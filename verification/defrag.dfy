/** The packing loop of defrag: bytes move to the front, emptied blocks go back, the contents stay. */
module Defrag {
  import opened Helpers
  import opened PackedEntry
  import opened Volumes
  import opened FileContents
  import opened WriteData
  import opened DefragSteps

  /** What stays true all along, against the file's contents c and the state at the start. */
  ghost predicate Going(c: seq<byte>, es0: seq<Word>, bits0: seq<bool>, disk0: seq<Block>,
                        es: seq<Word>, bits: seq<bool>, disk: seq<Block>) {
    && InRange(es, disk) && Contents(es, disk) == c
    && LiveOk(es, |disk|) && BitsOk(bits0, es0, bits, es)
    && OthersKept(bits0, es0, disk0, disk)
  }

  lemma OthersKeptStep(bits0: seq<bool>, es0: seq<Word>, disk0: seq<Block>, disk: seq<Block>, b: nat, block: Block)
    requires OthersKept(bits0, es0, disk0, disk) && b < |disk| && (bits0[b] || !Absent(b, es0))
    ensures OthersKept(bits0, es0, disk0, disk[b := block])
  {
  }

  predicate EmptyBetween(es: seq<Word>, i: nat, j: nat)
    requires j <= |es|
  {
    forall m :: i < m < j ==> es[m] == 0
  }

  /** Lines 109 to 117: an empty block is given back. */
  lemma DropEmpty(c: seq<byte>, es0: seq<Word>, bits0: seq<bool>, disk0: seq<Block>,
                  es: seq<Word>, bits: seq<bool>, disk: seq<Block>, j: nat)
    requires Going(c, es0, bits0, disk0, es, bits, disk) && j < |es| && Number(es[j]) > 0 && Size(es[j]) == 0
    ensures Number(es[j]) < |bits| && !bits[Number(es[j])]
    ensures Going(c, es0, bits0, disk0, es[j := 0], bits[Number(es[j]) := true], disk)
    ensures LiveCount(es[j := 0]) == LiveCount(es) - 1
  {
    hide Contents;
    BitsDrop(bits0, es0, bits, es, |disk|, j);
    ContentsSame(es, es[j := 0], disk, disk);
  }

  /** The front of block j goes behind the used part of block i. */
  function Joined(es: seq<Word>, disk: seq<Block>, i: nat, j: nat, n: nat): Block
    requires i < |es| && j < |es| && InRange(es, disk) && Size(es[i]) + n <= MAX_BLOCK_SIZE && n <= Size(es[j])
  {
    CopyIn(disk[Number(es[i])], Size(es[i]), disk[Number(es[j])][..n])
  }

  lemma JoinedBytes(block: Block, size: nat, other: Block, n: nat, osize: nat)
    requires size + n <= MAX_BLOCK_SIZE && n <= osize <= MAX_BLOCK_SIZE
    ensures CopyIn(block, size, other[..n])[..size + n] == block[..size] + other[..osize][..n]
  {
  }

  /** Lines 119 to 146: all of block j fits behind block i. */
  lemma TakeAll(c: seq<byte>, es0: seq<Word>, bits0: seq<bool>, disk0: seq<Block>,
                es: seq<Word>, bits: seq<bool>, disk: seq<Block>, i: nat, j: nat)
    requires Going(c, es0, bits0, disk0, es, bits, disk) && i < j < |es| && EmptyBetween(es, i, j)
    requires Number(es[i]) > 0 && Number(es[j]) > 0 && Size(es[i]) + Size(es[j]) <= MAX_BLOCK_SIZE
    ensures Number(es[j]) < |bits| && !bits[Number(es[j])]
    ensures var n := Size(es[j]);
            var es' := es[i := WithSize(es[i], Size(es[i]) + n)][j := 0];
            && Going(c, es0, bits0, disk0, es', bits[Number(es[j]) := true],
                disk[Number(es[i]) := Joined(es, disk, i, j, n)])
            && LiveCount(es') == LiveCount(es) - 1
  {
    hide Contents, LiveCount, OthersKept, BitsOk, LiveOk, CopyIn;
    var n := Size(es[j]);
    var es1 := es[i := WithSize(es[i], Size(es[i]) + n)];
    var es', disk' := es1[j := 0], disk[Number(es[i]) := Joined(es, disk, i, j, n)];
    BitsResize(bits0, es0, bits, es, |disk|, i, Size(es[i]) + n);
    BitsDrop(bits0, es0, bits, es1, |disk|, j);
    NamedWasOurs(bits0, es0, bits, es, i);
    OthersKeptStep(bits0, es0, disk0, disk, Number(es[i]), Joined(es, disk, i, j, n));
    JoinedBytes(disk[Number(es[i])], Size(es[i]), disk[Number(es[j])], n, n);
    SameElsewhere(es, disk, es', disk', i, j, Joined(es, disk, i, j, n));
    MovedBytes(es, disk, es', disk', i, j, n);
  }

  lemma SameElsewhere(es: seq<Word>, disk: seq<Block>, es': seq<Word>, disk': seq<Block>, i: nat, j: nat, block: Block)
    requires i < |es| && j < |es| && |es'| == |es| && InRange(es, disk) && LiveOk(es, |disk|) && Number(es[i]) > 0
    requires forall m :: 0 <= m < |es| && m != i && m != j ==> es'[m] == es[m]
    requires disk' == disk[Number(es[i]) := block]
    ensures forall m :: 0 <= m < |es| && m != i && m != j ==> Used(es'[m], disk') == Used(es[m], disk)
  {
  }

  /** Lines 119 to 164: block i is filled up from block j, and what is left of j moves to a fresh block. */
  lemma TakeSome(c: seq<byte>, es0: seq<Word>, bits0: seq<bool>, disk0: seq<Block>,
                 es: seq<Word>, bits: seq<bool>, disk: seq<Block>, i: nat, j: nat, n: nat, b: nat, block: Block)
    requires Going(c, es0, bits0, disk0, es, bits, disk) && i < j < |es| && EmptyBetween(es, i, j)
    requires Number(es[i]) > 0 && Number(es[j]) > 0 && Size(es[i]) + n == MAX_BLOCK_SIZE && n < Size(es[j])
    requires 0 < b < |disk| <= NUMBERS && |disk| <= |bits| && bits[b]
    requires block[..Size(es[j]) - n] == disk[Number(es[j])][n..Size(es[j])]
    ensures !bits[Number(es[j])] && b != Number(es[j])
    ensures var w := WithNumber(WithSize(es[j], Size(es[j]) - n), b);
            var es' := es[i := WithSize(es[i], MAX_BLOCK_SIZE)][j := w];
            && Going(c, es0, bits0, disk0, es', bits[b := false][Number(es[j]) := true],
                     disk[Number(es[i]) := Joined(es, disk, i, j, n)][b := block])
            && LiveCount(es') == LiveCount(es)
  {
    hide Contents, LiveCount, OthersKept, BitsOk, LiveOk, CopyIn;
    var w := WithNumber(WithSize(es[j], Size(es[j]) - n), b);
    var es1 := es[i := WithSize(es[i], MAX_BLOCK_SIZE)];
    var disk1 := disk[Number(es[i]) := Joined(es, disk, i, j, n)];
    var es', disk' := es1[j := w], disk1[b := block];
    NamedIsTaken(bits0, es0, bits, es, b);
    BitsResize(bits0, es0, bits, es, |disk|, i, MAX_BLOCK_SIZE);
    BitsMove(bits0, es0, bits, es1, |disk|, j, w);
    NamedWasOurs(bits0, es0, bits, es, i);
    OthersKeptStep(bits0, es0, disk0, disk, Number(es[i]), Joined(es, disk, i, j, n));
    OthersKeptStep(bits0, es0, disk0, disk1, b, block);
    JoinedBytes(disk[Number(es[i])], Size(es[i]), disk[Number(es[j])], n, Size(es[j]));
    SameElsewhere(es, disk, es[i := es1[i]], disk1, i, j, Joined(es, disk, i, j, n));
    UnusedBlock(es, disk1, b, block);
    TailBytes(disk[Number(es[j])], n, Size(es[j]));
    MovedBytes(es, disk, es', disk', i, j, n);
  }

  lemma UnusedBlock(es: seq<Word>, disk: seq<Block>, b: nat, block: Block)
    requires InRange(es, disk) && Absent(b, es) && b < |disk|
    ensures forall m :: 0 <= m < |es| ==> disk[b := block][Number(es[m])] == disk[Number(es[m])]
  {
  }

  lemma TailBytes(block: Block, n: nat, size: nat)
    requires n <= size <= MAX_BLOCK_SIZE
    ensures block[n..size] == block[..size][n..]
  {
  }

  lemma UpdatePrefix(a: seq<Word>, i: nat, w: Word, n: nat)
    requires i < n <= |a|
    ensures a[i := w][..n] == a[..n][i := w]
  {
  }

  /** memcpy of n bytes from the front of block j behind block i (lines 130 to 135). */
  method Join(index: array<Word>, vol: Volume, nrBlocks: nat, i: nat, j: nat, n: nat)
    requires i < nrBlocks && j < nrBlocks <= index.Length && InRange(index[..][..nrBlocks], vol.disk)
    requires Size(index[i]) + n <= MAX_BLOCK_SIZE && n <= Size(index[j])
    modifies index, vol`disk
    ensures index[..][..nrBlocks] == old(index[..])[..nrBlocks][i := WithSize(old(index[i]), Size(old(index[i])) + n)]
    ensures vol.disk ==
              old(vol.disk)[Number(old(index[i])) := Joined(old(index[..])[..nrBlocks], old(vol.disk), i, j, n)]
  {
    var iBlock, size := Number(index[i]), Size(index[i]);
    vol.disk := vol.disk[iBlock := CopyIn(vol.disk[iBlock], size, vol.disk[Number(index[j])][..n])];
    UpdatePrefix(index[..], i, WithSize(index[i], size + n), nrBlocks);
    SetBlockSize(index, i, size + n);
  }

  /** Entry j is given up (lines 142 to 144). */
  method GiveUp(index: array<Word>, vol: Volume, nrBlocks: nat, j: nat)
    requires j < nrBlocks <= index.Length && vol.BlocksOk()
    requires 0 < Number(index[j]) < vol.nrBlocks && !vol.bfree[Number(index[j])]
    modifies index, vol`nrFreeBlocks, vol.bfree
    ensures index[..][..nrBlocks] == old(index[..])[..nrBlocks][j := 0]
    ensures vol.bfree[..] == old(vol.bfree[..])[Number(old(index[j])) := true]
    ensures vol.BlocksOk() && vol.nrFreeBlocks == old(vol.nrFreeBlocks) + 1
  {
    UpdatePrefix(index[..], j, 0, nrBlocks);
    var outside := vol.PutBlock(Number(index[j]));
    index[j] := 0;
  }

  /** The rest of block j, from byte n on, goes to a fresh block (lines 148 to 160). */
  method Relocate(index: array<Word>, vol: Volume, nrBlocks: nat, j: nat, n: nat) returns (b: nat)
    requires j < nrBlocks <= index.Length && n <= Size(index[j]) && vol.BlocksOk() && vol.nrBlocks <= NUMBERS
    requires 0 < Number(index[j]) < vol.nrBlocks && !vol.bfree[Number(index[j])] && vol.nrFreeBlocks >= 1
    modifies index, vol`disk, vol`nrFreeBlocks, vol.bfree
    ensures 0 < b < vol.nrBlocks && old(vol.bfree[..])[b] && b != Number(old(index[j]))
    ensures index[..][..nrBlocks]
         == old(index[..])[..nrBlocks][j := WithNumber(WithSize(old(index[j]), Size(old(index[j])) - n), b)]
    ensures vol.bfree[..] == old(vol.bfree[..])[b := false][Number(old(index[j])) := true]
    ensures vol.BlocksOk() && vol.nrFreeBlocks == old(vol.nrFreeBlocks)
    ensures |vol.disk| == old(|vol.disk|) && vol.disk == old(vol.disk)[b := vol.disk[b]]
    ensures vol.disk[b][..Size(old(index[j])) - n] == old(vol.disk[Number(index[j])])[n..Size(old(index[j]))]
  {
    hide CountFree;
    var jBlock, left := Number(index[j]), Size(index[j]) - n;
    b := vol.GetFreeBlock();
    vol.disk := vol.disk[b := vol.disk[jBlock][n..n + left] + vol.disk[b][left..]];
    UpdatePrefix(index[..], j, WithSize(index[j], left), nrBlocks);
    SetBlockSize(index, j, left);
    UpdatePrefix(index[..], j, WithNumber(index[j], b), nrBlocks);
    SetBlockNumber(index, j, b);
    var outside := vol.PutBlock(jBlock);
  }

  /** The same with no block free: get_free_block gives 0, and the rest of block j goes over block 0. */
  method Trample(vol: Volume, jBlock: nat, n: nat, left: nat)
    requires vol.BlocksOk() && vol.nrFreeBlocks == 0 && 0 < jBlock < |vol.disk| && n + left <= MAX_BLOCK_SIZE
    modifies vol`disk, vol`nrFreeBlocks, vol.bfree
    ensures |vol.disk| == old(|vol.disk|) && vol.disk == old(vol.disk)[0 := vol.disk[0]]
    ensures vol.disk[0][..left] == old(vol.disk[jBlock])[n..n + left]
  {
    hide CountFree;
    var b := vol.GetFreeBlock();
    vol.disk := vol.disk[b := vol.disk[jBlock][n..n + left] + vol.disk[b][left..]];
  }

  /** All of block j goes behind block i, and entry j is given up. */
  method TakeWhole(index: array<Word>, vol: Volume, nrBlocks: nat, i: nat, j: nat,
                   ghost c: seq<byte>, ghost es0: seq<Word>, ghost bits0: seq<bool>, ghost disk0: seq<Block>)
    returns (ghost wi: Word)
    requires i < j < nrBlocks <= index.Length && vol.BlocksOk()
    requires Going(c, es0, bits0, disk0, index[..][..nrBlocks], vol.bfree[..], vol.disk)
    requires EmptyBetween(index[..][..nrBlocks], i, j) && Number(index[i]) > 0 && Number(index[j]) > 0
    requires 0 < Size(index[j]) && Size(index[i]) + Size(index[j]) <= MAX_BLOCK_SIZE
    modifies index, vol`disk, vol`nrFreeBlocks, vol.bfree
    ensures vol.BlocksOk() && vol.nrFreeBlocks == old(vol.nrFreeBlocks) + 1
    ensures Going(c, es0, bits0, disk0, index[..][..nrBlocks], vol.bfree[..], vol.disk)
    ensures LiveCount(index[..][..nrBlocks]) == LiveCount(old(index[..])[..nrBlocks]) - 1
    ensures index[..][..nrBlocks] == old(index[..])[..nrBlocks][i := wi][j := 0]
    ensures Number(wi) == Number(old(index[i])) && Size(wi) > 0
  {
    hide Going, EmptyBetween, LiveCount, CountFree, Joined, Absent;
    ghost var es: seq<Word> := index[..][..nrBlocks];
    ghost var bits, disk := vol.bfree[..], vol.disk;
    GoingRange(c, es0, bits0, disk0, es, bits, disk);
    assert es[i] == index[i] && es[j] == index[j];
    wi := WithSize(es[i], Size(es[i]) + Size(es[j]));
    Join(index, vol, nrBlocks, i, j, Size(index[j]));
    assert index[..][..nrBlocks][j] == es[j] == index[j];
    TakeAll(c, es0, bits0, disk0, es, bits, disk, i, j);
    GiveUp(index, vol, nrBlocks, j);
  }

  /** Block i is filled up, and the rest of block j moves to a fresh block. */
  method TakePart(index: array<Word>, vol: Volume, nrBlocks: nat, i: nat, j: nat, n: nat,
                  ghost c: seq<byte>, ghost es0: seq<Word>, ghost bits0: seq<bool>, ghost disk0: seq<Block>)
    returns (ghost wi: Word, ghost wj: Word)
    requires i < j < nrBlocks <= index.Length && vol.BlocksOk() && vol.nrBlocks <= NUMBERS && vol.nrFreeBlocks >= 1
    requires Going(c, es0, bits0, disk0, index[..][..nrBlocks], vol.bfree[..], vol.disk)
    requires EmptyBetween(index[..][..nrBlocks], i, j) && Number(index[i]) > 0 && Number(index[j]) > 0
    requires Size(index[i]) + n == MAX_BLOCK_SIZE && n < Size(index[j])
    modifies index, vol`disk, vol`nrFreeBlocks, vol.bfree
    ensures vol.BlocksOk() && vol.nrFreeBlocks == old(vol.nrFreeBlocks)
    ensures Going(c, es0, bits0, disk0, index[..][..nrBlocks], vol.bfree[..], vol.disk)
    ensures LiveCount(index[..][..nrBlocks]) == LiveCount(old(index[..])[..nrBlocks])
    ensures index[..][..nrBlocks] == old(index[..])[..nrBlocks][i := wi][j := wj]
    ensures Number(wi) == Number(old(index[i])) && Size(wi) == MAX_BLOCK_SIZE && Number(wj) > 0
  {
    hide Going, EmptyBetween, LiveCount, CountFree, Joined, Absent;
    ghost var es: seq<Word> := index[..][..nrBlocks];
    ghost var bits, disk := vol.bfree[..], vol.disk;
    GoingRange(c, es0, bits0, disk0, es, bits, disk);
    assert es[i] == index[i] && es[j] == index[j];
    wi := WithSize(es[i], MAX_BLOCK_SIZE);
    Join(index, vol, nrBlocks, i, j, n);
    assert index[..][..nrBlocks][j] == es[j] == index[j];
    var b := Relocate(index, vol, nrBlocks, j, n);
    JoinElsewhere(es, disk, i, j, n);
    TakeSome(c, es0, bits0, disk0, es, bits, disk, i, j, n, b, vol.disk[b]);
    wj := WithNumber(WithSize(es[j], Size(es[j]) - n), b);
  }

  /** The same with no block free. */
  method LosePart(index: array<Word>, vol: Volume, nrBlocks: nat, i: nat, j: nat, n: nat)
    requires i < j < nrBlocks <= index.Length && vol.BlocksOk() && vol.nrFreeBlocks == 0
    requires InRange(index[..][..nrBlocks], vol.disk) && 0 < Number(index[j]) != Number(index[i])
    requires Size(index[i]) + n == MAX_BLOCK_SIZE && n < Size(index[j])
    modifies index, vol`disk, vol`nrFreeBlocks, vol.bfree
    ensures TrampledBy(old(index[i]), old(index[j]), old(vol.disk), vol.disk)
  {
    ghost var es: seq<Word>, disk := index[..][..nrBlocks], vol.disk;
    assert es[i] == index[i] && es[j] == index[j];
    Join(index, vol, nrBlocks, i, j, n);
    JoinElsewhere(es, disk, i, j, n);
    assert index[..][..nrBlocks][j] == es[j] == index[j];
    Trample(vol, Number(index[j]), n, Size(index[j]) - n);
  }

  /** Lines 119 to 164 for one pair of blocks.  Tells whether block j was emptied, and whether what was left of it,
      with no block free, went over block 0. */
  method Absorb(index: array<Word>, vol: Volume, nrBlocks: nat, i: nat, j: nat,
                ghost c: seq<byte>, ghost es0: seq<Word>, ghost bits0: seq<bool>, ghost disk0: seq<Block>)
    returns (lost: bool, emptied: bool, ghost wi: Word, ghost wj: Word)
    requires i < j < nrBlocks <= index.Length && vol.BlocksOk() && vol.nrBlocks <= NUMBERS
    requires Going(c, es0, bits0, disk0, index[..][..nrBlocks], vol.bfree[..], vol.disk)
    requires EmptyBetween(index[..][..nrBlocks], i, j)
    requires Number(index[i]) > 0 && Number(index[j]) > 0 && Size(index[j]) > 0
    modifies index, vol`disk, vol`nrFreeBlocks, vol.bfree
    ensures lost <==> old(vol.nrFreeBlocks) == 0 && Size(old(index[i])) + Size(old(index[j])) > MAX_BLOCK_SIZE
    ensures lost ==> TrampledBy(old(index[i]), old(index[j]), old(vol.disk), vol.disk)
    ensures !lost ==>
      && vol.BlocksOk() && vol.nrFreeBlocks > 0
      && vol.nrFreeBlocks == old(vol.nrFreeBlocks) + (if emptied then 1 else 0)
      && Going(c, es0, bits0, disk0, index[..][..nrBlocks], vol.bfree[..], vol.disk)
      && LiveCount(index[..][..nrBlocks]) == LiveCount(old(index[..])[..nrBlocks]) - (if emptied then 1 else 0)
      && index[..][..nrBlocks] == old(index[..])[..nrBlocks][i := wi][j := wj]
      && Number(wi) == Number(old(index[i])) && Size(wi) > 0
      && if emptied then wj == 0 else Number(wj) > 0 && Size(wi) == MAX_BLOCK_SIZE
  {
    hide Going, EmptyBetween, LiveCount, CountFree, Joined, Absent, TrampledBy;
    ghost var es: seq<Word> := index[..][..nrBlocks];
    GoingRange(c, es0, bits0, disk0, es, vol.bfree[..], vol.disk);
    assert es[i] == index[i] && es[j] == index[j];
    var toMove := Size(index[j]);
    if MAX_BLOCK_SIZE - Size(index[i]) < toMove { toMove := MAX_BLOCK_SIZE - Size(index[i]); }
    lost, emptied, wi, wj := false, Size(index[j]) == toMove, 0, 0;
    if emptied {
      wi := TakeWhole(index, vol, nrBlocks, i, j, c, es0, bits0, disk0);
    } else if vol.nrFreeBlocks > 0 {
      wi, wj := TakePart(index, vol, nrBlocks, i, j, toMove, c, es0, bits0, disk0);
    } else {
      lost := true;
      LosePart(index, vol, nrBlocks, i, j, toMove);
    }
  }

  /** Block i is full, block 0 begins with the bytes of block j for which there was no room, and no other block has
      changed. */
  ghost predicate TrampledBy(wi: Word, wj: Word, disk0: seq<Block>, disk: seq<Block>) {
    && Number(wi) < |disk0| && Number(wj) < |disk0| == |disk|
    && Size(wi) <= MAX_BLOCK_SIZE < Size(wi) + Size(wj) && Size(wj) <= MAX_BLOCK_SIZE
    && disk == disk0[Number(wi) := CopyIn(disk0[Number(wi)], Size(wi), disk0[Number(wj)][..MAX_BLOCK_SIZE - Size(wi)])]
                    [0 := disk[0]]
    && disk[0][..Size(wi) + Size(wj) - MAX_BLOCK_SIZE] == disk0[Number(wj)][MAX_BLOCK_SIZE - Size(wi)..Size(wj)]
  }

  lemma JoinElsewhere(es: seq<Word>, disk: seq<Block>, i: nat, j: nat, n: nat)
    requires i < j < |es| && InRange(es, disk) && Number(es[i]) != Number(es[j])
    requires Size(es[i]) + n <= MAX_BLOCK_SIZE && n <= Size(es[j])
    ensures disk[Number(es[i]) := Joined(es, disk, i, j, n)][Number(es[j])] == disk[Number(es[j])]
  {
  }

  lemma GoingRange(c: seq<byte>, es0: seq<Word>, bits0: seq<bool>, disk0: seq<Block>, es: seq<Word>, bits: seq<bool>,
                   disk: seq<Block>)
    requires Going(c, es0, bits0, disk0, es, bits, disk)
    ensures InRange(es, disk) && |bits| == |bits0|
    ensures forall m :: 0 <= m < |es| && Number(es[m]) > 0 ==> Number(es[m]) < |bits| && !bits[Number(es[m])]
    ensures forall m, n :: 0 <= m < n < |es| && Number(es[m]) > 0 ==> Number(es[m]) != Number(es[n])
  {
    forall m | 0 <= m < |es| && Number(es[m]) > 0 ensures Number(es[m]) < |bits| && !bits[Number(es[m])] {
      NotAbsent(es, m);
    }
  }

  /** Entries from j on still name their blocks. */
  predicate LiveFrom(es: seq<Word>, j: nat) { forall m :: j <= m < |es| ==> Number(es[m]) > 0 }

  /** Entries before i are settled: empty or full. */
  predicate Settled(es: seq<Word>, i: nat) {
    forall m :: 0 <= m < i && m < |es| ==> Size(es[m]) == 0 || Size(es[m]) == MAX_BLOCK_SIZE
  }

  lemma AfterDrop(es: seq<Word>, i: nat, j: nat)
    requires i < j < |es| && EmptyBetween(es, i, j) && LiveFrom(es, j) && Settled(es, i) && Number(es[i]) > 0
    ensures var es' := es[j := 0];
            EmptyBetween(es', i, j + 1) && LiveFrom(es', j + 1) && Settled(es', i) && es'[i] == es[i]
  {
  }

  lemma AfterAbsorb(es: seq<Word>, i: nat, j: nat, wi: Word, wj: Word)
    requires i < j < |es| && EmptyBetween(es, i, j) && LiveFrom(es, j) && Settled(es, i)
    ensures var es' := es[i := wi][j := wj];
            && EmptyBetween(es', i, j) && LiveFrom(es', j + 1) && Settled(es', i) && es'[i] == wi && es'[j] == wj
            && (wj == 0 ==> EmptyBetween(es', i, j + 1)) && (Number(wj) > 0 ==> LiveFrom(es', j))
  {
  }

  /** The first two blocks that are not both done with: the second has bytes, and more than the first has room for. */
  predicate Tramples(es: seq<Word>) {
    if |es| < 2 then false
    else if Size(es[0]) == MAX_BLOCK_SIZE then Tramples(es[1..])
    else Size(es[1]) > 0 && Size(es[0]) + Size(es[1]) > MAX_BLOCK_SIZE
  }

  /** The inner loop: fills block i from the blocks after it, up to the block that is not used up. */
  method PackInto(index: array<Word>, vol: Volume, nrBlocks: nat, i: nat,
                  ghost c: seq<byte>, ghost es0: seq<Word>, ghost bits0: seq<bool>, ghost disk0: seq<Block>)
    returns (lost: bool, j: nat, removed: nat)
    requires i < nrBlocks <= index.Length && vol.BlocksOk() && vol.nrBlocks <= NUMBERS
    requires Size(index[i]) < MAX_BLOCK_SIZE
    requires Going(c, es0, bits0, disk0, index[..][..nrBlocks], vol.bfree[..], vol.disk)
    requires LiveFrom(index[..][..nrBlocks], i) && Settled(index[..][..nrBlocks], i)
    modifies index, vol`disk, vol`nrFreeBlocks, vol.bfree
    ensures lost <==> old(vol.nrFreeBlocks) == 0 && Tramples(old(index[..])[..nrBlocks][i..])
    ensures lost ==> i + 1 < nrBlocks && TrampledBy(old(index[i]), old(index[i + 1]), old(vol.disk), vol.disk)
    ensures !lost ==>
      && vol.BlocksOk() && vol.nrFreeBlocks == old(vol.nrFreeBlocks) + removed
      && (vol.nrFreeBlocks == 0 ==> j == nrBlocks)
      && Going(c, es0, bits0, disk0, index[..][..nrBlocks], vol.bfree[..], vol.disk)
      && LiveCount(index[..][..nrBlocks]) == LiveCount(old(index[..])[..nrBlocks]) - removed
      && i < j <= nrBlocks && EmptyBetween(index[..][..nrBlocks], i, j)
      && LiveFrom(index[..][..nrBlocks], j) && Settled(index[..][..nrBlocks], i)
      && (j < nrBlocks ==> Size(index[..][..nrBlocks][i]) == MAX_BLOCK_SIZE)
  {
    hide Going, EmptyBetween, LiveFrom, Settled, LiveCount, CountFree, TrampledBy;
    ghost var es: seq<Word> := index[..][..nrBlocks];
    ghost var es1 := es;
    NothingBetween(es, i);
    j, removed, lost := i + 1, 0, false;
    while j < nrBlocks
      invariant i < j <= nrBlocks && es == index[..][..nrBlocks]
      invariant vol.BlocksOk() && vol.nrFreeBlocks == old(vol.nrFreeBlocks) + removed
      invariant if j == i + 1 then removed == 0 && es == es1 && vol.disk == old(vol.disk)
                else vol.nrFreeBlocks > 0 && (old(vol.nrFreeBlocks) == 0 ==> !Tramples(es1[i..]))
      invariant Going(c, es0, bits0, disk0, es, vol.bfree[..], vol.disk)
      invariant LiveCount(es) == LiveCount(old(index[..])[..nrBlocks]) - removed
      invariant EmptyBetween(es, i, j) && LiveFrom(es, j) && Settled(es, i) && Number(es[i]) > 0
    {
      LiveHere(es, j);
      assert index[i] == es[i] && index[j] == es[j];
      if Size(index[j]) == 0 {
        DropEmpty(c, es0, bits0, disk0, es, vol.bfree[..], vol.disk, j);
        GoingRange(c, es0, bits0, disk0, es, vol.bfree[..], vol.disk);
        AfterDrop(es, i, j);
        GiveUp(index, vol, nrBlocks, j);
        es := es[j := 0];
        removed := removed + 1;
        j := j + 1;
        continue;
      }
      var emptied;
      ghost var wi, wj;
      lost, emptied, wi, wj := Absorb(index, vol, nrBlocks, i, j, c, es0, bits0, disk0);
      if lost { return lost, j, removed; }
      AfterAbsorb(es, i, j, wi, wj);
      es := es[i := wi][j := wj];
      assert index[i] == es[i];
      if emptied {
        removed := removed + 1;
      } else if Size(index[i]) == MAX_BLOCK_SIZE {
        break;
      }
      j := j + 1;
    }
  }

  lemma NothingBetween(es: seq<Word>, i: nat)
    requires i < |es| && LiveFrom(es, i)
    ensures EmptyBetween(es, i, i + 1) && LiveFrom(es, i + 1) && Number(es[i]) > 0
  {
  }

  lemma LiveHere(es: seq<Word>, j: nat)
    requires j < |es| && LiveFrom(es, j)
    ensures Number(es[j]) > 0
  {
  }

  lemma SettledNext(es: seq<Word>, i: nat, j: nat)
    requires i < j <= |es| && Settled(es, i) && EmptyBetween(es, i, j)
    ensures j == |es| ==> Packed(es)
    ensures Size(es[i]) == MAX_BLOCK_SIZE ==> Settled(es, j)
  {
  }

  lemma Start(inode: Inode, index: array<Word>, vol: Volume)
    requires FileOk(inode, index, vol)
    ensures var es := index[..][..inode.blocks - 1];
            && Going(Bytes(inode, index, vol), es, vol.bfree[..], vol.disk, es, vol.bfree[..], vol.disk)
            && LiveFrom(es, 0) && Settled(es, 0) && LiveCount(es) == |es|
            && TotalSize(es) == inode.size && |Bytes(inode, index, vol)| == inode.size
  {
    var es := index[..][..inode.blocks - 1];
    assert es == Entries(inode, index);
    LiveCountAll(es);
    BitsStart(vol.bfree[..], es, vol.nrBlocks);
  }

  lemma GoingSize(c: seq<byte>, es0: seq<Word>, bits0: seq<bool>, disk0: seq<Block>, es: seq<Word>, bits: seq<bool>,
                  disk: seq<Block>)
    requires Going(c, es0, bits0, disk0, es, bits, disk)
    ensures TotalSize(es) == |c|
  {
  }

  /** Lines 82 to 179.  The file keeps its contents, with as few non-empty blocks as its size allows; the
      blocks it no longer names are free, and i_blocks has gone down by their number.  This fails precisely when no
      block is free and the first block that is not full is followed by one with more bytes than it has room for:
      then what is left of that one goes over block 0, the superblock. */
  method Defrag(inode: Inode, index: array<Word>, vol: Volume) returns (lost: bool, ghost at: nat)
    requires FileOk(inode, index, vol)
    modifies inode`blocks, index, vol`disk, vol`nrFreeBlocks, vol.bfree
    ensures var nrBlocks := old(inode.blocks) - 1;
            var es0, es := old(index[..])[..nrBlocks], index[..][..nrBlocks];
            && (lost <==> old(vol.nrFreeBlocks) == 0 && Tramples(es0))
            && (lost ==> at + 1 < nrBlocks && TrampledBy(es0[at], es0[at + 1], old(vol.disk), vol.disk))
            && (!lost ==>
                  && Going(old(Bytes(inode, index, vol)), es0, old(vol.bfree[..]), old(vol.disk), es, vol.bfree[..],
                      vol.disk)
                  && Packed(es) && NonEmpty(es) == CeilDiv(inode.size, MAX_BLOCK_SIZE)
                  && vol.BlocksOk() && inode.blocks == 1 + LiveCount(es) <= old(inode.blocks)
                  && vol.nrFreeBlocks == old(vol.nrFreeBlocks) + (old(inode.blocks) - inode.blocks))
  {
    hide Contents, TotalSize, Going, EmptyBetween, LiveFrom, Settled, Packed, NonEmpty, CountFree, Distinct, TrampledBy;
    var nrBlocks := inode.blocks - 1;
    ghost var es0: seq<Word>, c := index[..][..nrBlocks], Bytes(inode, index, vol);
    ghost var bits0, disk0 := vol.bfree[..], vol.disk;
    Start(inode, index, vol);
    PackedEmpty(index[..][..nrBlocks]);
    var i: nat, removed: nat := 0, 0;
    lost, at := false, 0;
    assert es0[0..] == es0;
    while i < nrBlocks
      invariant 0 <= i <= nrBlocks && inode.blocks == nrBlocks + 1
      invariant vol.BlocksOk() && vol.nrFreeBlocks == old(vol.nrFreeBlocks) + removed
      invariant old(vol.nrFreeBlocks) == 0 ==>
        if vol.nrFreeBlocks == 0 && i < nrBlocks
        then index[..][..nrBlocks] == es0 && vol.disk == disk0 && Tramples(es0) == Tramples(es0[i..])
        else !Tramples(es0)
      invariant Going(c, es0, bits0, disk0, index[..][..nrBlocks], vol.bfree[..], vol.disk)
      invariant LiveCount(index[..][..nrBlocks]) == nrBlocks - removed
      invariant LiveFrom(index[..][..nrBlocks], i)
      invariant if i < nrBlocks then Settled(index[..][..nrBlocks], i) else Packed(index[..][..nrBlocks])
    {
      ghost var es: seq<Word> := index[..][..nrBlocks];
      assert index[i] == es[i];
      if MAX_BLOCK_SIZE - Size(index[i]) == 0 {
        NothingBetween(es, i);
        SettledNext(es, i, i + 1);
        TramplesNext(es0, i);
        i := i + 1;
        continue;
      }
      GoingSizes(c, es0, bits0, disk0, es, vol.bfree[..], vol.disk, i);
      var j, n;
      lost, j, n := PackInto(index, vol, nrBlocks, i, c, es0, bits0, disk0);
      if lost { return lost, i; }
      SettledNext(index[..][..nrBlocks], i, j);
      removed := removed + n;
      i := j;
    }
    inode.blocks := inode.blocks - removed;
    GoingSize(c, es0, bits0, disk0, index[..][..nrBlocks], vol.bfree[..], vol.disk);
    PackedCount(index[..][..nrBlocks]);
  }

  lemma TramplesNext(es: seq<Word>, i: nat)
    requires i < |es|
    ensures Size(es[i]) == MAX_BLOCK_SIZE ==> Tramples(es[i..]) == Tramples(es[i + 1..])
    ensures i + 1 == |es| ==> !Tramples(es[i..])
  {
    if i + 1 < |es| { assert es[i..][1..] == es[i + 1..]; }
  }

  lemma GoingSizes(c: seq<byte>, es0: seq<Word>, bits0: seq<bool>, disk0: seq<Block>, es: seq<Word>, bits: seq<bool>,
                   disk: seq<Block>, i: nat)
    requires Going(c, es0, bits0, disk0, es, bits, disk) && i < |es|
    ensures Size(es[i]) <= MAX_BLOCK_SIZE
  {
  }

  lemma PackedEmpty(es: seq<Word>)
    ensures es == [] ==> Packed(es)
  {
  }
}
