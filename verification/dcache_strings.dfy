/** dentry_string_cmp: names compared a word at a time. */
module DcacheStrings {

  /** Memory from a pointer on; a name is followed by whatever is there. */
  type Memory = nat -> bv8

  /** Both memories hold the same n bytes. */
  ghost predicate Agree(cs: Memory, ct: Memory, from: nat, n: nat) {
    forall i :: from <= i < from + n ==> cs(i) == ct(i)
  }

  /** The eight bytes from p on, the first the least significant. */
  function Word(m: Memory, p: nat): bv64 {
    Join(m(p), m(p + 1), m(p + 2), m(p + 3), m(p + 4), m(p + 5), m(p + 6), m(p + 7))
  }

  function Join(b0: bv8, b1: bv8, b2: bv8, b3: bv8, b4: bv8, b5: bv8, b6: bv8, b7: bv8): bv64 {
    (b0 as bv64) | ((b1 as bv64) << 8) | ((b2 as bv64) << 16) | ((b3 as bv64) << 24)
    | ((b4 as bv64) << 32) | ((b5 as bv64) << 40) | ((b6 as bv64) << 48) | ((b7 as bv64) << 56)
  }

  /** bytemask_from_count: all ones in the first n bytes. */
  function Mask(n: nat): bv64
    requires n < 8
  {
    match n
    case 0 => !(0xFFFF_FFFF_FFFF_FFFF << 0)
    case 1 => !(0xFFFF_FFFF_FFFF_FFFF << 8)
    case 2 => !(0xFFFF_FFFF_FFFF_FFFF << 16)
    case 3 => !(0xFFFF_FFFF_FFFF_FFFF << 24)
    case 4 => !(0xFFFF_FFFF_FFFF_FFFF << 32)
    case 5 => !(0xFFFF_FFFF_FFFF_FFFF << 40)
    case 6 => !(0xFFFF_FFFF_FFFF_FFFF << 48)
    case _ => !(0xFFFF_FFFF_FFFF_FFFF << 56)
  }

  /** No difference where the mask has ones. */
  predicate SameUnder(a: bv64, b: bv64, mask: bv64) { (a ^ b) & mask == 0 }

  function Full(b: bool): bv8 { if b then 0xFF else 0 }

  lemma MaskBytes(n: nat)
    requires n < 8
    ensures Mask(n) ==
              Join(Full(n > 0), Full(n > 1), Full(n > 2), Full(n > 3), Full(n > 4), Full(n > 5), Full(n > 6), 0)
  {
  }

  lemma JoinAnd(a0: bv8, a1: bv8, a2: bv8, a3: bv8, a4: bv8, a5: bv8, a6: bv8, a7: bv8,
                b0: bv8, b1: bv8, b2: bv8, b3: bv8, b4: bv8, b5: bv8, b6: bv8, b7: bv8)
    ensures Join(a0, a1, a2, a3, a4, a5, a6, a7) & Join(b0, b1, b2, b3, b4, b5, b6, b7)
         == Join(a0 & b0, a1 & b1, a2 & b2, a3 & b3, a4 & b4, a5 & b5, a6 & b6, a7 & b7)
  {
  }

  /** Exclusive or goes byte by byte. */
  lemma JoinXor(a0: bv8, a1: bv8, a2: bv8, a3: bv8, a4: bv8, a5: bv8, a6: bv8, a7: bv8,
                b0: bv8, b1: bv8, b2: bv8, b3: bv8, b4: bv8, b5: bv8, b6: bv8, b7: bv8)
    ensures Join(a0, a1, a2, a3, a4, a5, a6, a7) ^ Join(b0, b1, b2, b3, b4, b5, b6, b7)
         == Join(a0 ^ b0, a1 ^ b1, a2 ^ b2, a3 ^ b3, a4 ^ b4, a5 ^ b5, a6 ^ b6, a7 ^ b7)
  {
  }

  /** What the mask leaves of the difference of two bytes. */
  lemma Difference(a: bv8, b: bv8, covered: bool)
    ensures (a ^ b) & Full(covered) == 0 <==> (covered ==> a == b)
  {
  }

  lemma WholeSame(a0: bv8, a1: bv8, a2: bv8, a3: bv8, a4: bv8, a5: bv8, a6: bv8, a7: bv8,
                  b0: bv8, b1: bv8, b2: bv8, b3: bv8, b4: bv8, b5: bv8, b6: bv8, b7: bv8)
    ensures Join(a0, a1, a2, a3, a4, a5, a6, a7) == Join(b0, b1, b2, b3, b4, b5, b6, b7) <==>
      a0 == b0 && a1 == b1 && a2 == b2 && a3 == b3 && a4 == b4 && a5 == b5 && a6 == b6 && a7 == b7
  {
  }

  lemma WordsAgree(cs: Memory, ct: Memory, p: nat)
    ensures Word(cs, p) == Word(ct, p) <==> Agree(cs, ct, p, 8)
  {
    hide Join;
    WholeSame(cs(p), cs(p + 1), cs(p + 2), cs(p + 3), cs(p + 4), cs(p + 5), cs(p + 6), cs(p + 7),
              ct(p), ct(p + 1), ct(p + 2), ct(p + 3), ct(p + 4), ct(p + 5), ct(p + 6), ct(p + 7));
  }

  /** Two words are the same under a mask just when the bytes it covers are. */
  lemma MaskedSame(a0: bv8, a1: bv8, a2: bv8, a3: bv8, a4: bv8, a5: bv8, a6: bv8, a7: bv8,
                   b0: bv8, b1: bv8, b2: bv8, b3: bv8, b4: bv8, b5: bv8, b6: bv8, b7: bv8,
                   m0: bool, m1: bool, m2: bool, m3: bool, m4: bool, m5: bool, m6: bool)
    ensures
      SameUnder(Join(a0, a1, a2, a3, a4, a5, a6, a7), Join(b0, b1, b2, b3, b4, b5, b6, b7),
                Join(Full(m0), Full(m1), Full(m2), Full(m3), Full(m4), Full(m5), Full(m6), 0)) <==>
      && (m0 ==> a0 == b0) && (m1 ==> a1 == b1) && (m2 ==> a2 == b2) && (m3 ==> a3 == b3)
      && (m4 ==> a4 == b4) && (m5 ==> a5 == b5) && (m6 ==> a6 == b6)
  {
    hide Join, Full;
    JoinXor(a0, a1, a2, a3, a4, a5, a6, a7, b0, b1, b2, b3, b4, b5, b6, b7);
    JoinAnd(a0 ^ b0, a1 ^ b1, a2 ^ b2, a3 ^ b3, a4 ^ b4, a5 ^ b5, a6 ^ b6, a7 ^ b7,
            Full(m0), Full(m1), Full(m2), Full(m3), Full(m4), Full(m5), Full(m6), 0);
    WholeSame((a0 ^ b0) & Full(m0), (a1 ^ b1) & Full(m1), (a2 ^ b2) & Full(m2), (a3 ^ b3) & Full(m3),
              (a4 ^ b4) & Full(m4), (a5 ^ b5) & Full(m5), (a6 ^ b6) & Full(m6), (a7 ^ b7) & 0, 0, 0, 0, 0, 0, 0, 0, 0);
    JoinZero();
    Difference(a0, b0, m0); Difference(a1, b1, m1); Difference(a2, b2, m2); Difference(a3, b3, m3);
    Difference(a4, b4, m4); Difference(a5, b5, m5); Difference(a6, b6, m6);
  }

  lemma MaskedFirst(n: nat, a0: bv8, a1: bv8, a2: bv8, a3: bv8, a4: bv8, a5: bv8, a6: bv8, a7: bv8,
                    b0: bv8, b1: bv8, b2: bv8, b3: bv8, b4: bv8, b5: bv8, b6: bv8, b7: bv8)
    requires n < 8
    ensures SameUnder(Join(a0, a1, a2, a3, a4, a5, a6, a7), Join(b0, b1, b2, b3, b4, b5, b6, b7), Mask(n)) <==>
      && (n > 0 ==> a0 == b0) && (n > 1 ==> a1 == b1) && (n > 2 ==> a2 == b2) && (n > 3 ==> a3 == b3)
      && (n > 4 ==> a4 == b4) && (n > 5 ==> a5 == b5) && (n > 6 ==> a6 == b6)
  {
    hide Join, Mask, Full, SameUnder;
    MaskBytes(n);
    MaskedSame(a0, a1, a2, a3, a4, a5, a6, a7, b0, b1, b2, b3, b4, b5, b6, b7,
               n > 0, n > 1, n > 2, n > 3, n > 4, n > 5, n > 6);
  }

  lemma MaskedAgree(cs: Memory, ct: Memory, p: nat, n: nat)
    requires n < 8
    ensures SameUnder(Word(cs, p), Word(ct, p), Mask(n)) <==> Agree(cs, ct, p, n)
  {
    hide Join, Mask, Agree, SameUnder;
    MaskedFirst(n, cs(p), cs(p + 1), cs(p + 2), cs(p + 3), cs(p + 4), cs(p + 5), cs(p + 6), cs(p + 7),
                ct(p), ct(p + 1), ct(p + 2), ct(p + 3), ct(p + 4), ct(p + 5), ct(p + 6), ct(p + 7));
    AgreeByOffset(cs, ct, p, n);
  }

  lemma JoinZero()
    ensures Join(0, 0, 0, 0, 0, 0, 0, 0) == 0
  {
  }

  lemma AgreeByOffset(cs: Memory, ct: Memory, p: nat, n: nat)
    requires n < 8
    ensures Agree(cs, ct, p, n) <==>
      && (n > 0 ==> cs(p) == ct(p)) && (n > 1 ==> cs(p + 1) == ct(p + 1)) && (n > 2 ==> cs(p + 2) == ct(p + 2))
      && (n > 3 ==> cs(p + 3) == ct(p + 3)) && (n > 4 ==> cs(p + 4) == ct(p + 4))
      && (n > 5 ==> cs(p + 5) == ct(p + 5)) && (n > 6 ==> cs(p + 6) == ct(p + 6))
  {
  }

  /** A word at a time, with the last one masked: what follows the names in memory does not matter. */
  method DentryStringCmp(cs: Memory, ct: Memory, count: nat) returns (differ: bool)
    ensures differ <==> !Agree(cs, ct, 0, count)
  {
    hide Word, Mask;
    var p, tcount := 0, count;
    while true
      invariant p + tcount == count && Agree(cs, ct, 0, p)
      decreases tcount
    {
      var a, b := Word(cs, p), Word(ct, p);
      if tcount < 8 { break; }
      WordsAgree(cs, ct, p);
      if a != b { return true; }
      p, tcount := p + 8, tcount - 8;
      if tcount == 0 { return false; }
    }
    MaskedAgree(cs, ct, p, tcount);
    return (Word(cs, p) ^ Word(ct, p)) & Mask(tcount) != 0;
  }

  /** The other build compares byte by byte, and wants at least one. */
  method DentryStringCmpBytes(cs: Memory, ct: Memory, count: nat) returns (differ: bool)
    requires count > 0
    ensures differ <==> !Agree(cs, ct, 0, count)
  {
    var p, tcount := 0, count;
    while true
      invariant p + tcount == count && tcount > 0 && Agree(cs, ct, 0, p)
      decreases tcount
    {
      if cs(p) != ct(p) { return true; }
      p, tcount := p + 1, tcount - 1;
      if tcount == 0 { return false; }
    }
  }
}
