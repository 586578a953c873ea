/** Small things that several modules need. */
module Helpers {

  datatype Option<T> = None | Some(value: T)

  function One(b: bool): int { if b then 1 else 0 }

  /** Division rounded up, as the CEIL macro has it. */
  function CeilDiv(a: nat, b: nat): nat
    requires b > 0
  {
    a / b + if a % b != 0 then 1 else 0
  }
}
