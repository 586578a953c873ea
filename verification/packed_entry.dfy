/** Index entries of a file: a block number in the low 20 bits, a used size in the high 12. */
module PackedEntry {

  const BLOCK_SIZE: nat := 4096
  const MAX_BLOCK_SIZE: nat := 4095
  const MAX_BLOCKS_PER_FILE: nat := 1024
  const MAX_FILESIZE: nat := 0x40_0000
  const NUMBERS: nat := 0x10_0000
  const SIZES: nat := 0x1000

  type Word = w: nat | w < 0x1_0000_0000

  function Number(w: Word): (n: nat)
    ensures n < NUMBERS
  {
    w % NUMBERS
  }

  function Size(w: Word): (n: nat)
    ensures n <= MAX_BLOCK_SIZE
  {
    w / NUMBERS
  }

  function WithNumber(w: Word, n: nat): (r: Word)
    ensures Number(r) == n % NUMBERS && Size(r) == Size(w)
  {
    Size(w) * NUMBERS + n % NUMBERS
  }

  function WithSize(w: Word, s: nat): (r: Word)
    ensures Size(r) == s % SIZES && Number(r) == Number(w)
  {
    s % SIZES * NUMBERS + Number(w)
  }

  method SetBlockNumber(blocks: array<Word>, i: nat, n: nat)
    requires i < blocks.Length
    modifies blocks
    ensures blocks[..] == old(blocks[..])[i := WithNumber(old(blocks[i]), n)]
  {
    blocks[i] := WithNumber(blocks[i], n);
  }

  method SetBlockSize(blocks: array<Word>, i: nat, s: nat)
    requires i < blocks.Length
    modifies blocks
    ensures blocks[..] == old(blocks[..])[i := WithSize(old(blocks[i]), s)]
  {
    blocks[i] := WithSize(blocks[i], s);
  }

  // ---- the same four on machine words ----

  const NUMBER_MASK: bv32 := 0x10_0000
  const SIZE_MASK: bv32 := 0xfff0_0000

  function GetNumberBits(w: bv32): bv32 { w & (NUMBER_MASK - 1) }

  function GetSizeBits(w: bv32): bv32 { (w & SIZE_MASK) >> 20 }

  function SetNumberBits(w: bv32, n: bv32): bv32 { (w & !(NUMBER_MASK - 1)) | (n & (NUMBER_MASK - 1)) }

  function SetSizeBits(w: bv32, s: bv32): bv32 { (w & !SIZE_MASK) | ((s << 20) & SIZE_MASK) }

  lemma NumberBitsAreRemainder(w: bv32)
    ensures GetNumberBits(w) == w % 0x10_0000
  {
  }

  lemma SizeBitsAreQuotient(w: bv32)
    ensures GetSizeBits(w) == w / 0x10_0000
  {
  }

  lemma SetNumberBitsIsWithNumber(w: bv32, n: bv32)
    ensures SetNumberBits(w, n) == w / 0x10_0000 * 0x10_0000 + n % 0x10_0000
  {
  }

  lemma SetSizeBitsIsWithSize(w: bv32, s: bv32)
    ensures SetSizeBits(w, s) == s % 0x1000 * 0x10_0000 + w % 0x10_0000
  {
  }
}
