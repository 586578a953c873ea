/** What a file holds: the concatenation of the used prefixes of the blocks in its index. */
module FileContents {
  import opened PackedEntry
  import opened Volumes

  const MAX_OFFSET: nat := MAX_FILESIZE - 1024

  class Inode {
    var size: nat      // i_size
    var blocks: nat    // i_blocks, the index block included

    constructor (size: nat, blocks: nat)
      ensures this.size == size && this.blocks == blocks
    {
      this.size, this.blocks := size, blocks;
    }
  }

  predicate InRange(es: seq<Word>, disk: seq<Block>) {
    forall i :: 0 <= i < |es| ==> Number(es[i]) < |disk|
  }

  /** The bytes that entry e stands for. */
  function Used(e: Word, disk: seq<Block>): (u: seq<byte>)
    requires Number(e) < |disk|
    ensures |u| == Size(e)
  {
    disk[Number(e)][..Size(e)]
  }

  function Contents(es: seq<Word>, disk: seq<Block>): (c: seq<byte>)
    requires InRange(es, disk)
    ensures |c| == TotalSize(es)
  {
    ContentsFrom(es, disk)
  }

  function ContentsFrom(es: seq<Word>, disk: seq<Block>): (c: seq<byte>)
    requires InRange(es, disk)
    ensures |c| == SizeFrom(es)
  {
    if es == [] then [] else Used(es[0], disk) + ContentsFrom(es[1..], disk)
  }

  function TotalSize(es: seq<Word>): nat { SizeFrom(es) }

  function SizeFrom(es: seq<Word>): nat {
    if es == [] then 0 else Size(es[0]) + SizeFrom(es[1..])
  }

  predicate Distinct(es: seq<Word>) {
    forall i, j :: 0 <= i < j < |es| ==> Number(es[i]) != Number(es[j])
  }

  /** Every entry names a block that is handed out. */
  predicate Owned(es: seq<Word>, bits: seq<bool>, nrBlocks: nat) {
    forall i :: 0 <= i < |es| ==> 0 < Number(es[i]) < nrBlocks <= |bits| && !bits[Number(es[i])]
  }

  /** No entry names block b. */
  predicate Absent(b: nat, es: seq<Word>) { forall m :: 0 <= m < |es| ==> Number(es[m]) != b }

  /** From entries es0 to es: free is what was free or belonged to the file, and which the file no longer names. */
  ghost predicate BitsOk(bits0: seq<bool>, es0: seq<Word>, bits: seq<bool>, es: seq<Word>) {
    && |bits| == |bits0|
    && (forall b :: 0 < b < |bits| ==> bits[b] == ((bits0[b] || !Absent(b, es0)) && Absent(b, es)))
    && (forall m :: 0 <= m < |es| && Number(es[m]) > 0 ==>
          Number(es[m]) < |bits0| && (bits0[Number(es[m])] || !Absent(Number(es[m]), es0)))
    && (0 < |bits| ==> !bits[0])
  }

  /** No block that was handed out to another file has changed. */
  ghost predicate OthersKept(bits0: seq<bool>, es0: seq<Word>, disk0: seq<Block>, disk: seq<Block>) {
    |disk0| == |disk| <= |bits0| && forall b :: 0 <= b < |disk| && !bits0[b] && Absent(b, es0) ==> disk[b] == disk0[b]
  }

  /** The invariant of a regular file. */
  ghost predicate FileOk(inode: Inode, index: array<Word>, vol: Volume)
    reads inode, index, vol, vol.bfree
  {
    && vol.BlocksOk() && vol.nrBlocks <= NUMBERS
    && index.Length == MAX_BLOCKS_PER_FILE && 1 <= inode.blocks <= MAX_BLOCKS_PER_FILE + 1
    && Owned(Entries(inode, index), vol.bfree[..], vol.nrBlocks)
    && Distinct(Entries(inode, index))
    && TotalSize(Entries(inode, index)) == inode.size
    && (inode.size == 0 <==> inode.blocks == 1)
  }

  function Entries(inode: Inode, index: array<Word>): seq<Word>
    requires 1 <= inode.blocks <= index.Length + 1
    reads inode, index
  {
    index[..inode.blocks - 1]
  }

  ghost function Bytes(inode: Inode, index: array<Word>, vol: Volume): seq<byte>
    requires 1 <= inode.blocks <= index.Length + 1
    requires InRange(Entries(inode, index), vol.disk)
    reads inode, index, vol
  {
    Contents(Entries(inode, index), vol.disk)
  }

  lemma {:induction false} TotalSizeConcat(a: seq<Word>, b: seq<Word>)
    ensures TotalSize(a + b) == TotalSize(a) + TotalSize(b)
  {
    if a == [] {
      assert a + b == b;
    } else {
      assert (a + b)[1..] == a[1..] + b;
      TotalSizeConcat(a[1..], b);
    }
  }

  lemma EmptyFile(disk: seq<Block>)
    ensures InRange([], disk) && |Contents([], disk)| == 0 && TotalSize([]) == 0
  {
  }

  lemma TotalSizeOne(e: Word)
    ensures TotalSize([e]) == Size(e)
  {
    assert SizeFrom([e]) == Size(e) + SizeFrom([e][1..]);
  }

  lemma TotalSizeExtend(es: seq<Word>, k: nat)
    requires k < |es|
    ensures TotalSize(es[..k + 1]) == TotalSize(es[..k]) + Size(es[k])
  {
    assert es[..k + 1] == es[..k] + [es[k]];
    TotalSizeConcat(es[..k], [es[k]]);
    TotalSizeOne(es[k]);
  }

  lemma TotalSizeSplit(es: seq<Word>, k: nat)
    requires k < |es|
    ensures TotalSize(es) == TotalSize(es[..k]) + Size(es[k]) + TotalSize(es[k + 1..])
  {
    TotalSizeExtend(es, k);
    assert es == es[..k + 1] + es[k + 1..];
    TotalSizeConcat(es[..k + 1], es[k + 1..]);
  }

  lemma {:induction false} ContentsConcat(a: seq<Word>, b: seq<Word>, disk: seq<Block>)
    requires InRange(a, disk) && InRange(b, disk)
    ensures InRange(a + b, disk) && Contents(a + b, disk) == Contents(a, disk) + Contents(b, disk)
  {
    if a == [] {
      assert a + b == b;
    } else {
      assert (a + b)[1..] == a[1..] + b;
      ContentsConcat(a[1..], b, disk);
    }
  }

  lemma ContentsOne(e: Word, disk: seq<Block>)
    requires Number(e) < |disk|
    ensures Contents([e], disk) == Used(e, disk) && TotalSize([e]) == Size(e)
  {
    assert [e][1..] == [];
  }

  /** Splitting an index at entry k. */
  lemma ContentsSplit(es: seq<Word>, k: nat, disk: seq<Block>)
    requires k < |es| && InRange(es, disk)
    ensures Contents(es, disk) == Contents(es[..k], disk) + Used(es[k], disk) + Contents(es[k + 1..], disk)
    ensures TotalSize(es) == TotalSize(es[..k]) + Size(es[k]) + TotalSize(es[k + 1..])
  {
    assert es == es[..k] + ([es[k]] + es[k + 1..]);
    ContentsConcat(es[..k], [es[k]] + es[k + 1..], disk);
    ContentsConcat([es[k]], es[k + 1..], disk);
    ContentsOne(es[k], disk);
  }

  lemma ContentsExtend(es: seq<Word>, k: nat, disk: seq<Block>)
    requires k < |es| && InRange(es, disk)
    ensures Contents(es[..k + 1], disk) == Contents(es[..k], disk) + Used(es[k], disk)
    ensures TotalSize(es[..k + 1]) == TotalSize(es[..k]) + Size(es[k])
  {
    assert es[..k + 1] == es[..k] + [es[k]];
    ContentsConcat(es[..k], [es[k]], disk);
    ContentsOne(es[k], disk);
  }

  /** Contents depend on the used prefixes only. */
  lemma {:induction false} ContentsFrame(es: seq<Word>, d1: seq<Block>, d2: seq<Block>)
    requires InRange(es, d1) && InRange(es, d2)
    requires forall i :: 0 <= i < |es| ==> d1[Number(es[i])] == d2[Number(es[i])]
    ensures Contents(es, d1) == Contents(es, d2)
  {
    if es != [] { ContentsFrame(es[1..], d1, d2); }
  }

  lemma {:induction false} TotalSizeBound(es: seq<Word>)
    ensures TotalSize(es) <= |es| * MAX_BLOCK_SIZE
  {
    if es != [] { TotalSizeBound(es[1..]); }
  }
}
