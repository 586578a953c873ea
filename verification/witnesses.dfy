/** Inputs at which the calls do not do what they mean to. */
module Witnesses {
  import opened PackedEntry
  import opened Volumes
  import opened FileContents
  import opened FileWrite
  import opened Directories
  import Defrag
  import Rename

  // ---- files with blocks of given sizes ----

  lemma {:induction false} FreeAbove(bits: seq<bool>, used: nat, n: nat)
    requires n <= |bits| && forall i :: 0 <= i < |bits| ==> bits[i] == (i >= used)
    ensures CountFree(bits, n) == if n <= used then 0 else n - used
  {
    if n > 0 { FreeAbove(bits, used, n - 1); }
  }

  /** Block n holds the byte n, modulo 256, throughout. */
  function Marked(n: nat): Block { seq(BLOCK_SIZE, _ => (n % 256) as byte) }

  /** A volume whose first blocks are handed out and whose last are free. */
  method NewVolume(used: nat, free: nat) returns (vol: Volume)
    requires used > 0
    ensures fresh(vol) && fresh(vol.bfree) && vol.BlocksOk() && vol.nrBlocks == used + free && vol.nrFreeBlocks == free
    ensures forall i :: 0 <= i < used ==> !vol.bfree[i]
    ensures |vol.disk| == used + free && forall i :: 0 <= i < used + free ==> vol.disk[i] == Marked(i)
  {
    var bfree := new bool[used + free](i => i >= used);
    var ifree := new bool[1](_ => false);
    FreeAbove(bfree[..], used, used + free);
    var disk: seq<Block> := seq(used + free, i requires 0 <= i < used + free => Marked(i));
    vol := new Volume(used + free, 1, bfree, ifree, free, 1, disk);
  }

  function EntryAt(sizes: seq<nat>, i: nat): Word
    requires i < |sizes| < MAX_BLOCKS_PER_FILE && sizes[i] <= MAX_BLOCK_SIZE
  {
    sizes[i] * NUMBERS + i + 1
  }

  lemma EntryFields(sizes: seq<nat>, i: nat)
    requires i < |sizes| < MAX_BLOCKS_PER_FILE && sizes[i] <= MAX_BLOCK_SIZE
    ensures Number(EntryAt(sizes, i)) == i + 1 && Size(EntryAt(sizes, i)) == sizes[i]
  {
  }

  /** A file with blocks of the given sizes, on a volume with so many free blocks. */
  method NewFile(sizes: seq<nat>, free: nat) returns (inode: Inode, index: array<Word>, vol: Volume)
    requires 0 < |sizes| < MAX_BLOCKS_PER_FILE && (forall i :: 0 <= i < |sizes| ==> 0 < sizes[i] <= MAX_BLOCK_SIZE)
    requires |sizes| + 1 + free <= NUMBERS
    ensures fresh(inode) && fresh(index) && fresh(vol) && fresh(vol.bfree)
    ensures FileOk(inode, index, vol) && inode.blocks == |sizes| + 1 && vol.nrFreeBlocks == free
    ensures forall i :: 0 <= i < |sizes| ==>
        Size(Entries(inode, index)[i]) == sizes[i] && Number(Entries(inode, index)[i]) == i + 1
    ensures |vol.disk| == |sizes| + 1 + free && forall i :: 0 <= i < |vol.disk| ==> vol.disk[i] == Marked(i)
  {
    hide CountFree, TotalSize, Owned, Distinct, Marked;
    index := new Word[MAX_BLOCKS_PER_FILE](i requires 0 <= i < MAX_BLOCKS_PER_FILE => 0);
    var i := 0;
    while i < |sizes|
      invariant i <= |sizes| && forall m :: 0 <= m < i ==> Number(index[m]) == m + 1 && Size(index[m]) == sizes[m]
    {
      EntryFields(sizes, i);
      index[i] := EntryAt(sizes, i);
      i := i + 1;
    }
    SomeBytes(index[..|sizes|]);
    inode := new Inode(TotalSize(index[..|sizes|]), |sizes| + 1);
    vol := NewVolume(|sizes| + 1, free);
    InOrder(index[..|sizes|], vol.bfree[..], vol.nrBlocks);
    assert Entries(inode, index) == index[..|sizes|];
  }

  lemma SomeBytes(es: seq<Word>)
    requires es != [] && Size(es[0]) > 0
    ensures TotalSize(es) > 0
  {
  }

  lemma InOrder(es: seq<Word>, bits: seq<bool>, nrBlocks: nat)
    requires forall i :: 0 <= i < |es| ==> Number(es[i]) == i + 1
    requires |es| < nrBlocks <= |bits| && forall i :: 0 <= i <= |es| ==> !bits[i]
    ensures Owned(es, bits, nrBlocks) && Distinct(es)
  {
  }

  // ---- the witnesses ----

  /** Writing 4090 bytes at the end of a file of 10 runs past the block. */
  method WritePastTheBlock() returns (r: WriteResult)
    ensures r == Overrun
  {
    var inode, index, vol := NewFile([10], 2);
    TotalSizeOne(index[0]);
    assert Entries(inode, index) == [index[0]];
    var data: seq<byte> := seq(4090, _ => 1);
    r := OuichefsWrite(inode, index, vol, data, 10);
  }

  /** Writing 4086 bytes there fills it to the brim, which its size field cannot say. */
  method WriteToTheBrim() returns (r: WriteResult, inode: Inode, index: array<Word>)
    ensures r == Wrote(4086) && ShortByOneBlock(inode, index)
  {
    var vol;
    inode, index, vol := NewFile([10], 2);
    TotalSizeOne(index[0]);
    assert Entries(inode, index) == [index[0]];
    var data: seq<byte> := seq(4086, _ => 1);
    r := OuichefsWrite(inode, index, vol, data, 10);
  }

  /** Packing blocks of 4000 and 200 bytes with none free overwrites block 0, which was all zeros, with the last 105
      bytes of the second. */
  method DefragWhenFull() returns (lost: bool, vol: Volume)
    ensures lost && |vol.disk| == 3 && vol.disk[0][..105] == Marked(2)[..105]
  {
    var inode, index;
    inode, index, vol := NewFile([4000, 200], 0);
    assert index[..][..2] == Entries(inode, index);
    ghost var at;
    lost, at := Defrag.Defrag(inode, index, vol);
    assert at == 0;
    assert Marked(2)[95..200] == Marked(2)[..105];
  }

  // ---- a full directory ----

  /** 128 entries with inodes 1, 2, ... and names of one character each. */
  function FullSlots(n: nat): seq<Slot>
    requires n <= MAX_SUBFILES
  {
    seq(n, i requires 0 <= i < n => Slot(i + 1, [(i + 1) as char]))
  }

  lemma FullOk()
    ensures ListOk(FullSlots(MAX_SUBFILES)) && Directories.Used(FullSlots(MAX_SUBFILES)) == FullSlots(MAX_SUBFILES)
    ensures HasInode(FullSlots(MAX_SUBFILES), 1)
  {
    var es := FullSlots(MAX_SUBFILES);
    UsedIs(es, MAX_SUBFILES);
    assert es[0].inode == 1;
    forall i, j | 0 <= i < j < |es| ensures es[i].name != es[j].name { assert es[i].name[0] != es[j].name[0]; }
  }

  lemma {:induction false} NoSubDirs(es: seq<Slot>)
    ensures SubDirs(es, {}) == 0
  {
    if es != [] { NoSubDirs(es[1..]); }
  }

  method NewFullDirectory() returns (d: Directory)
    ensures fresh(d) && fresh(d.files) && d.Valid() && d.LinksOk({}) && d.Entries() == FullSlots(MAX_SUBFILES)
  {
    d := new Directory();
    forall i | 0 <= i < MAX_SUBFILES { d.files[i] := Slot(i + 1, [(i + 1) as char]); }
    assert d.files[..] == FullSlots(MAX_SUBFILES);
    FullOk();
    NoSubDirs(d.Entries());
  }

  /** Moving a file out of a full directory into an empty one searches past the directory block. */
  method RenameFromFull() returns (status: Status)
    ensures status == OutOfBounds
  {
    var src := NewFullDirectory();
    var dst := new Directory();
    FullOk();
    NoSubDirs(dst.Entries());
    status := Rename.RenameAcross(src, dst, 1, false, "a", {});
  }
}
