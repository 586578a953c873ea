/** mkfs: the layout of a volume, and the two bitmaps it starts with. */
module Mkfs {
  import opened Volumes

  const WRAP: nat := 0x1_0000_0000
  const INODES_PER_BLOCK: nat := 51     // 4096 / sizeof(struct ouichefs_inode), an 80-byte structure
  const BITS_PER_BLOCK: nat := 32768

  /** uint32_t arithmetic. */
  function Add32(a: nat, b: nat): nat { (a + b) % WRAP }

  function Sub32(a: nat, b: nat): nat { (a - b) % WRAP }

  function IdivCeil(a: nat, b: nat): nat
    requires b > 0
  {
    if a % b != 0 then Add32(a / b, 1) else a / b
  }

  datatype Superblock = Superblock(
    nrBlocks: nat, nrInodes: nat, nrIstore: nat, nrIfree: nat, nrBfree: nat, nrFreeInodes: nat, nrFreeBlocks: nat)

  /** write_superblock on an image of nrBlocks blocks. */
  function Layout(nrBlocks: nat): Superblock {
    var mod := nrBlocks % INODES_PER_BLOCK;
    var nrInodes := if mod != 0 then Add32(nrBlocks, mod) else nrBlocks;
    var nrIstore := IdivCeil(nrInodes, INODES_PER_BLOCK);
    var nrIfree := IdivCeil(nrInodes, BITS_PER_BLOCK);
    var nrBfree := IdivCeil(nrBlocks, BITS_PER_BLOCK);
    var nrData := Sub32(Sub32(Sub32(Sub32(nrBlocks, 1), nrIstore), nrIfree), nrBfree);
    Superblock(nrBlocks, nrInodes, nrIstore, nrIfree, nrBfree, Sub32(nrInodes, 1), Sub32(nrData, 1))
  }

  /** nr_used of write_bfree_blocks: superblock, inode store, both bitmaps and the root's index block. */
  function NrUsed(sb: Superblock): nat { Add32(Add32(Add32(sb.nrIstore, sb.nrIfree), sb.nrBfree), 2) }

  lemma CeilOf51(a: nat)
    requires a < WRAP
    ensures a <= IdivCeil(a, INODES_PER_BLOCK) * INODES_PER_BLOCK < a + INODES_PER_BLOCK
  {
    assert a / 51 + 1 < WRAP;
  }

  lemma CeilOf32768(a: nat)
    requires a < WRAP
    ensures a <= IdivCeil(a, BITS_PER_BLOCK) * BITS_PER_BLOCK < a + BITS_PER_BLOCK
  {
    assert a / 32768 + 1 < WRAP;
  }

  lemma NoWrap(a: nat, b: nat)
    ensures a + b < WRAP ==> Add32(a, b) == a + b
    ensures b <= a < WRAP ==> Sub32(a, b) == a - b
  {
  }

  /** Inodes: as many as blocks, plus the remainder that the source adds on top, unless that wraps. */
  lemma LayoutSizes(nrBlocks: nat)
    requires nrBlocks < WRAP
    ensures var sb := Layout(nrBlocks);
            && (nrBlocks <= sb.nrInodes < nrBlocks + INODES_PER_BLOCK <==>
                nrBlocks + nrBlocks % INODES_PER_BLOCK < WRAP)
            && sb.nrInodes < nrBlocks + INODES_PER_BLOCK && sb.nrBlocks == nrBlocks
            && (nrBlocks + nrBlocks % INODES_PER_BLOCK < WRAP ==>
                  sb.nrInodes == nrBlocks + nrBlocks % INODES_PER_BLOCK)
            && (nrBlocks + nrBlocks % INODES_PER_BLOCK >= WRAP ==>
                  sb.nrInodes == nrBlocks + nrBlocks % INODES_PER_BLOCK - WRAP)
            && sb.nrInodes <= sb.nrIstore * INODES_PER_BLOCK < sb.nrInodes + INODES_PER_BLOCK
            && sb.nrInodes <= sb.nrIfree * BITS_PER_BLOCK < sb.nrInodes + BITS_PER_BLOCK
            && nrBlocks <= sb.nrBfree * BITS_PER_BLOCK < nrBlocks + BITS_PER_BLOCK
  {
    hide IdivCeil, Sub32;
    CeilOf51(Layout(nrBlocks).nrInodes);
    CeilOf32768(Layout(nrBlocks).nrInodes);
    CeilOf32768(nrBlocks);
  }

  lemma FourSubtractions(n: nat, a: nat, b: nat, c: nat)
    requires 2 + a + b + c <= n < WRAP
    ensures Sub32(Sub32(Sub32(Sub32(Sub32(n, 1), a), b), c), 1) == n - 2 - a - b - c
    ensures Add32(Add32(Add32(a, b), c), 2) == a + b + c + 2
  {
    hide Add32, Sub32;
    NoWrap(a, b);
    NoWrap(a + b, c);
    NoWrap(a + b + c, 2);
    NoWrap(n, 1);
    NoWrap(n - 1, a);
    NoWrap(n - 1 - a, b);
    NoWrap(n - 1 - a - b, c);
    NoWrap(n - 1 - a - b - c, 1);
  }

  /** From 100 blocks on, the smallest image mkfs accepts, the block counts do not go below zero; the inode count
      does if and only if it has wrapped to nothing. */
  lemma LayoutDoesNotUnderflow(nrBlocks: nat)
    requires 100 <= nrBlocks < WRAP
    ensures var sb := Layout(nrBlocks);
            && NrUsed(sb) == 2 + sb.nrIstore + sb.nrIfree + sb.nrBfree < nrBlocks
            && sb.nrFreeBlocks == nrBlocks - NrUsed(sb)
            && (sb.nrFreeInodes == sb.nrInodes - 1 <==> nrBlocks + nrBlocks % INODES_PER_BLOCK != WRAP)
  {
    hide IdivCeil, Sub32;
    LayoutSizes(nrBlocks);
    var sb := Layout(nrBlocks);
    assert 2 + sb.nrIstore + sb.nrIfree + sb.nrBfree < nrBlocks;
    FourSubtractions(nrBlocks, sb.nrIstore, sb.nrIfree, sb.nrBfree);
    FreeInodes(nrBlocks);
  }

  lemma InodesOf(n: nat, r: nat)
    requires 100 <= n < WRAP && r < INODES_PER_BLOCK
    ensures Add32(n, r) < WRAP && (Add32(n, r) == 0 <==> n + r == WRAP)
  {
  }

  lemma OneLess(n: nat)
    requires n < WRAP
    ensures Sub32(n, 1) == n - 1 <==> n != 0
  {
  }

  lemma FreeInodes(nrBlocks: nat)
    requires 100 <= nrBlocks < WRAP
    ensures var sb := Layout(nrBlocks);
            sb.nrFreeInodes == sb.nrInodes - 1 <==> nrBlocks + nrBlocks % INODES_PER_BLOCK != WRAP
  {
    hide IdivCeil, Sub32, Add32;
    InodesOf(nrBlocks, nrBlocks % INODES_PER_BLOCK);
    OneLess(Layout(nrBlocks).nrInodes);
  }

  /** That is one size of image: 26 blocks short of 2^32. */
  lemma WrapsToNoInodes(nrBlocks: nat)
    requires 100 <= nrBlocks < WRAP
    ensures nrBlocks + nrBlocks % INODES_PER_BLOCK == WRAP <==> nrBlocks == WRAP - 26
  {
    assert WRAP % INODES_PER_BLOCK == 1;
    if nrBlocks + nrBlocks % INODES_PER_BLOCK == WRAP {
      var r := nrBlocks % INODES_PER_BLOCK;
      assert (nrBlocks + r) % INODES_PER_BLOCK == (2 * r) % INODES_PER_BLOCK;
    }
  }

  /** Every image whose block numbers fit 20 bits has its metadata in the first bitmap block. */
  lemma MetadataFits(nrBlocks: nat)
    requires 100 <= nrBlocks <= 0x10_0000
    ensures NrUsed(Layout(nrBlocks)) <= BITS_PER_BLOCK
  {
    hide Layout, NrUsed;
    LayoutSizes(nrBlocks);
    LayoutDoesNotUnderflow(nrBlocks);
  }

  lemma LayoutKeepsBlocks(nrBlocks: nat)
    ensures Layout(nrBlocks).nrBlocks == nrBlocks
  {
  }

  function Ones(n: nat): (s: seq<bool>)
    ensures |s| == n && forall i :: 0 <= i < n ==> s[i]
  {
    seq(n, _ => true)
  }

  /** One 64-bit word of the bitmap: the loop over mask, lowest bit first. */
  method ClearLine(nrUsed: nat) returns (line: seq<bool>, left: nat)
    requires nrUsed > 0
    ensures |line| == 64 && left == (if nrUsed <= 64 then 0 else nrUsed - 64)
    ensures forall m :: 0 <= m < 64 ==> (line[m] <==> m >= nrUsed)
  {
    line, left := Ones(64), nrUsed;
    var m := 0;
    while m != 64
      invariant 0 <= m <= 64 && left > 0 && |line| == 64 && left + m == nrUsed
      invariant forall k :: 0 <= k < 64 ==> (line[k] <==> k >= m)
    {
      line := line[m := false];
      left := left - 1;
      if left == 0 { break; }
      m := m + 1;
    }
  }

  /** write_bfree_blocks: the bits written, in order; precisely those of the metadata and the root block are clear. */
  method WriteBfreeBlocks(sb: Superblock) returns (image: seq<bool>)
    requires NrUsed(sb) <= BITS_PER_BLOCK && sb.nrBfree >= 1
    ensures |image| == sb.nrBfree * BITS_PER_BLOCK
    ensures forall b :: 0 <= b < |image| ==> (image[b] <==> b >= NrUsed(sb))
  {
    var block := new bool[BITS_PER_BLOCK](_ => true);
    var nrUsed: nat, i: nat := NrUsed(sb), 0;
    while nrUsed > 0
      invariant (nrUsed > 0 ==> 64 * i + nrUsed == NrUsed(sb)) && (nrUsed == 0 ==> 64 * i >= NrUsed(sb))
      invariant forall b :: 0 <= b < BITS_PER_BLOCK ==> (block[b] <==> b >= NrUsed(sb) || b >= 64 * i)
    {
      var line, left := ClearLine(nrUsed);
      forall m | 0 <= m < 64 { block[64 * i + m] := line[m]; }
      nrUsed := left;
      i := i + 1;
    }
    image := block[..];
    var n := 1;
    while n < sb.nrBfree
      invariant 1 <= n <= sb.nrBfree && |image| == n * BITS_PER_BLOCK
      invariant forall b :: 0 <= b < |image| ==> (image[b] <==> b >= NrUsed(sb))
    {
      image := image + Ones(BITS_PER_BLOCK);
      n := n + 1;
    }
  }

  /** write_ifree_blocks: inode 0 and the root are taken. */
  method WriteIfreeBlocks(sb: Superblock) returns (image: seq<bool>)
    requires sb.nrIfree >= 1
    ensures |image| == sb.nrIfree * BITS_PER_BLOCK
    ensures forall b :: 0 <= b < |image| ==> (image[b] <==> b >= 2)
  {
    image := Ones(BITS_PER_BLOCK)[0 := false][1 := false];
    var n := 1;
    while n < sb.nrIfree
      invariant 1 <= n <= sb.nrIfree && |image| == n * BITS_PER_BLOCK
      invariant forall b :: 0 <= b < |image| ==> (image[b] <==> b >= 2)
    {
      image := image + Ones(BITS_PER_BLOCK);
      n := n + 1;
    }
  }

  lemma {:induction false} CountFrom(bits: seq<bool>, n: nat, first: nat)
    requires n <= |bits| && forall b :: 0 <= b < |bits| ==> (bits[b] <==> b >= first)
    ensures CountFree(bits, n) == if n <= first then 0 else n - first
  {
    if n > 0 { CountFrom(bits, n - 1, first); }
  }

  /** Formatting and then mounting: the bitmaps are copied to memory as they were written. */
  method Format(nrBlocks: nat, disk: seq<Block>) returns (vol: Volume)
    requires 100 <= nrBlocks < WRAP && NrUsed(Layout(nrBlocks)) <= BITS_PER_BLOCK && |disk| == nrBlocks
    ensures fresh(vol) && fresh(vol.bfree) && fresh(vol.ifree) && vol.bfree != vol.ifree
    ensures vol.BlocksOk() && vol.InodesOk() && vol.nrBlocks == nrBlocks && vol.disk == disk
    ensures forall b :: 0 <= b < nrBlocks ==> (vol.bfree[b] <==> b >= NrUsed(Layout(nrBlocks)))
    ensures forall ino :: 0 <= ino < vol.nrInodes ==> (vol.ifree[ino] <==> ino >= 2)
  {
    hide Layout, NrUsed;
    LayoutSizes(nrBlocks);
    LayoutDoesNotUnderflow(nrBlocks);
    LayoutKeepsBlocks(nrBlocks);
    var sb := Layout(nrBlocks);
    var ifreeBits := WriteIfreeBlocks(sb);
    var bfreeBits := WriteBfreeBlocks(sb);
    var bfree := new bool[|bfreeBits|](i requires 0 <= i < |bfreeBits| => bfreeBits[i]);
    var ifree := new bool[|ifreeBits|](i requires 0 <= i < |ifreeBits| => ifreeBits[i]);
    CountFrom(bfree[..], nrBlocks, NrUsed(sb));
    CountFrom(ifree[..], sb.nrInodes, 2);
    vol := new Volume(sb.nrBlocks, sb.nrInodes, bfree, ifree, sb.nrFreeBlocks, sb.nrFreeInodes, disk);
  }
}
