/** What the calls on one file leave to another: its blocks stay handed out, its own and unchanged. */
module OtherFiles {
  import opened PackedEntry
  import opened Volumes
  import opened FileContents
  import opened FileWrite
  import opened FileLives
  import opened Defrag
  import D = Directories

  /** No block has a place in both. */
  predicate Apart(a: seq<Word>, b: seq<Word>) {
    forall i, j :: 0 <= i < |a| && 0 <= j < |b| ==> Number(a[i]) != Number(b[j])
  }

  lemma ApartIsAbsent(a: seq<Word>, b: seq<Word>, j: nat)
    requires Apart(a, b) && j < |b|
    ensures Absent(Number(b[j]), a)
  {
  }

  /** A file that shares no block with the one worked on keeps its blocks and contents, and shares none then. */
  lemma OtherKept(bits0: seq<bool>, es0: seq<Word>, disk0: seq<Block>, bits: seq<bool>, es: seq<Word>,
                  disk: seq<Block>, other: seq<Word>)
    requires BitsOk(bits0, es0, bits, es) && OthersKept(bits0, es0, disk0, disk)
    requires Owned(other, bits0, |disk0|) && Apart(es0, other)
    ensures Owned(other, bits, |disk|) && Apart(es, other) && InRange(other, disk0) && InRange(other, disk)
    ensures Contents(other, disk) == Contents(other, disk0)
  {
    hide Contents, Absent, Apart;
    forall j | 0 <= j < |other|
      ensures !bits[Number(other[j])] && disk[Number(other[j])] == disk0[Number(other[j])]
    {
      ApartIsAbsent(es0, other, j);
    }
    OtherApart(bits0, es0, bits, es, other, |disk0|);
    ContentsFrame(other, disk0, disk);
  }

  lemma OtherApart(bits0: seq<bool>, es0: seq<Word>, bits: seq<bool>, es: seq<Word>, other: seq<Word>, nrBlocks: nat)
    requires BitsOk(bits0, es0, bits, es) && Owned(other, bits0, nrBlocks) && Apart(es0, other)
    ensures Apart(es, other)
  {
    hide Absent;
    forall i, j | 0 <= i < |es| && 0 <= j < |other| ensures Number(es[i]) != Number(other[j]) {
      ApartIsAbsent(es0, other, j);
    }
  }

  /** The other file is a file as before, with the same bytes, and shares no block with es. */
  twostate predicate StillApart(inode: Inode, index: array<Word>, vol: Volume, es: seq<Word>)
    requires old(FileOk(inode, index, vol))
    reads inode, index, vol, vol.bfree
  {
    && FileOk(inode, index, vol) && Entries(inode, index) == old(Entries(inode, index))
    && Bytes(inode, index, vol) == old(Bytes(inode, index, vol)) && Apart(es, Entries(inode, index))
  }

  /** A write, whether it inserts or leaves the sizes one block short. */
  method WriteBeside(inode: Inode, index: array<Word>, vol: Volume, data: seq<byte>, offset: nat,
                     ghost inode2: Inode, ghost index2: array<Word>)
    returns (r: WriteResult)
    requires FileOk(inode, index, vol) && offset <= inode.size
    requires FileOk(inode2, index2, vol) && inode2 != inode && index2 != index
    requires Apart(Entries(inode, index), Entries(inode2, index2))
    modifies inode, index, vol`disk, vol`nrFreeBlocks, vol.bfree
    ensures r != Overrun ==>
              1 <= inode.blocks <= index.Length + 1 && StillApart(inode2, index2, vol, Entries(inode, index))
  {
    hide Contents, TotalSize, Distinct, CountFree, Inserted, Needed, JumpFor, BitsOk, OthersKept, Owned, Apart;
    ghost var es0, other := Entries(inode, index), Entries(inode2, index2);
    ghost var bits0, disk0 := vol.bfree[..], vol.disk;
    r := OuichefsWrite(inode, index, vol, data, offset);
    if r != Overrun && 1 <= inode.blocks <= index.Length + 1
       && BitsOk(bits0, es0, vol.bfree[..], Entries(inode, index)) && OthersKept(bits0, es0, disk0, vol.disk) {
      OtherKept(bits0, es0, disk0, vol.bfree[..], Entries(inode, index), vol.disk, other);
    }
  }

  /** The packing loop of defrag, but when it overwrites block 0. */
  method DefragBeside(inode: Inode, index: array<Word>, vol: Volume, ghost inode2: Inode, ghost index2: array<Word>)
    returns (lost: bool)
    requires FileOk(inode, index, vol)
    requires FileOk(inode2, index2, vol) && inode2 != inode && index2 != index
    requires Apart(Entries(inode, index), Entries(inode2, index2))
    modifies inode`blocks, index, vol`disk, vol`nrFreeBlocks, vol.bfree
    ensures !lost ==> StillApart(inode2, index2, vol, index[..][..old(inode.blocks) - 1])
  {
    hide Contents, TotalSize, Distinct, CountFree, BitsOk, OthersKept, Owned, Apart;
    ghost var es0, other := Entries(inode, index), Entries(inode2, index2);
    ghost var bits0, disk0 := vol.bfree[..], vol.disk;
    assert index[..][..inode.blocks - 1] == es0;
    ghost var at;
    lost, at := Defrag.Defrag(inode, index, vol);
    if !lost { OtherKept(bits0, es0, disk0, vol.bfree[..], index[..][..|es0|], vol.disk, other); }
  }

  /** Giving back and zeroing blocks of empty entries does nothing to another file. */
  lemma OtherFreed(bits0: seq<bool>, disk0: seq<Block>, bits: seq<bool>, disk: seq<Block>, es: seq<Word>,
                   other: seq<Word>)
    requires Freed(bits0, bits, es) && Scrubbed(disk0, disk, es) && Owned(other, bits0, |disk0|) && Apart(es, other)
    ensures InRange(other, disk0) && InRange(other, disk) && Owned(other, bits, |disk|)
    ensures Contents(other, disk) == Contents(other, disk0)
  {
    hide Contents, Zeros;
    forall j | 0 <= j < |other| ensures !GivenBack(es, Number(other[j])) { }
    ContentsFrame(other, disk0, disk);
  }

  /** Nor does giving back and zeroing a block that it does not name. */
  lemma OtherIndexFreed(bits: seq<bool>, disk: seq<Block>, bno: nat, block: Block, other: seq<Word>)
    requires Owned(other, bits, |disk|) && Absent(bno, other) && bno < |disk|
    ensures InRange(other, disk) && InRange(other, disk[bno := block])
    ensures |disk| <= |bits| ==> Owned(other, bits[bno := true], |disk|)
    ensures Contents(other, disk[bno := block]) == Contents(other, disk)
  {
    hide Contents;
    ContentsFrame(other, disk, disk[bno := block]);
  }

  /** unlink of a file or directory with index block bno. */
  method UnlinkBeside(dir: D.Directory, vol: Volume, inode: Inode, index: array<Word>, ino: nat, bno: nat, isDir: bool,
                      ghost dirs: set<nat>, ghost es: seq<Word>, ghost inode2: Inode, ghost index2: array<Word>)
    requires VolumeOk(vol) && dir.Valid() && dir.LinksOk(dirs)
    requires D.HasInode(dir.Entries(), ino) && (isDir <==> ino in dirs)
    requires 0 < ino < vol.nrInodes && !vol.ifree[ino] && 0 < bno < vol.nrBlocks && !vol.bfree[bno]
    requires if isDir then es == [] else FileOk(inode, index, vol) && es == Entries(inode, index)
    requires Absent(bno, es)
    requires FileOk(inode2, index2, vol) && inode2 != inode && index2 != index
    requires Apart(es, Entries(inode2, index2)) && Absent(bno, Entries(inode2, index2))
    modifies dir`nlink, dir.files, vol`nrFreeBlocks, vol`nrFreeInodes, vol`disk, vol.bfree, vol.ifree, inode, index
    ensures StillApart(inode2, index2, vol, [])
  {
    hide Contents, TotalSize, Distinct, CountFree, Owned, Apart, Freed, Scrubbed, Zeros, Empties;
    hide D.ListOk, D.Packed, D.SubDirs, D.HasName, D.HasInode, D.Without;
    ghost var other := Entries(inode2, index2);
    ghost var bits0, disk0 := vol.bfree[..], vol.disk;
    OtherIndexFreed(bits0, disk0, bno, Zeros(), other);
    NoneApart(other);
    Unlink(dir, vol, inode, index, ino, bno, isDir, dirs, es);
    OtherFreed(bits0[bno := true], disk0[bno := Zeros()], vol.bfree[..], vol.disk, es, other);
  }

  lemma NoneApart(other: seq<Word>)
    ensures Apart([], other)
  {
  }

  /** The truncation in open, as far as it goes. */
  method TruncateBeside(inode: Inode, index: array<Word>, vol: Volume, trunc: bool, ghost inode2: Inode,
                        ghost index2: array<Word>)
    returns (outOfBounds: bool)
    requires FileOk(inode, index, vol)
    requires forall i :: inode.blocks - 1 <= i < index.Length ==> index[i] == 0
    requires FileOk(inode2, index2, vol) && inode2 != inode && index2 != index
    requires Apart(Entries(inode, index), Entries(inode2, index2))
    modifies inode, index, vol`nrFreeBlocks, vol.bfree
    ensures StillApart(inode2, index2, vol, if trunc then [] else old(Entries(inode, index)))
  {
    hide Contents, TotalSize, Distinct, CountFree, Owned, Apart, Freed, Empties;
    ghost var es, other := Entries(inode, index), Entries(inode2, index2);
    ghost var bits0 := vol.bfree[..];
    NoneApart(other);
    outOfBounds := OpenTruncating(inode, index, vol, trunc, es);
    OtherOpened(bits0, vol.bfree[..], vol.disk, if trunc then es else [], other);
  }

  lemma OtherOpened(bits0: seq<bool>, bits: seq<bool>, disk: seq<Block>, es: seq<Word>, other: seq<Word>)
    requires Freed(bits0, bits, es) && Owned(other, bits0, |disk|) && Apart(es, other)
    ensures Owned(other, bits, |disk|)
  {
    forall j | 0 <= j < |other| ensures !GivenBack(es, Number(other[j])) { }
  }

  /** create: the new index block, too, is nobody else's. */
  method CreateBeside(dir: D.Directory, vol: Volume, inode: Inode, index: array<Word>, name: string, mode: Mode,
                      ghost dirs: set<nat>, ghost inode2: Inode, ghost index2: array<Word>)
    returns (status: D.Status, ghost b: nat)
    requires VolumeOk(vol) && dir.Valid() && dir.LinksOk(dirs) && name != "" && !D.HasName(dir.Entries(), name)
    requires InodesTaken(dir.Entries(), dirs, vol.ifree[..]) && index.Length == MAX_BLOCKS_PER_FILE
    requires FileOk(inode2, index2, vol) && inode2 != inode && index2 != index
    modifies dir`nlink, dir.files, vol`nrFreeBlocks, vol`nrFreeInodes, vol`disk, vol.bfree, vol.ifree, inode, index
    ensures StillApart(inode2, index2, vol, [])
    ensures status == D.Ok ==> Absent(b, Entries(inode2, index2)) && b < |vol.bfree[..]| && !vol.bfree[b]
  {
    hide Contents, TotalSize, Distinct, CountFree, Owned, Zeros, InodesTaken;
    hide D.ListOk, D.Packed, D.SubDirs, D.HasName, D.HasInode;
    ghost var other := Entries(inode2, index2);
    ghost var bits0, disk0 := vol.bfree[..], vol.disk;
    var ino, bno;
    status, ino, bno := Create(dir, vol, inode, index, name, mode, dirs);
    b := bno;
    if status == D.Ok { OtherClaimed(bits0, disk0, bno, Zeros(), other); }
  }

  lemma OtherClaimed(bits: seq<bool>, disk: seq<Block>, bno: nat, block: Block, other: seq<Word>)
    requires Owned(other, bits, |disk|) && bno < |disk| <= |bits| && bits[bno]
    ensures Absent(bno, other) && Owned(other, bits[bno := false], |disk|)
    ensures InRange(other, disk) && InRange(other, disk[bno := block])
    ensures Contents(other, disk[bno := block]) == Contents(other, disk)
  {
    hide Contents;
    ContentsFrame(other, disk, disk[bno := block]);
  }
}
