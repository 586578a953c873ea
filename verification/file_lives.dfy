/** From ouichefs_create to ouichefs_unlink: what a file or directory takes from the volume, and what comes back.

    unlink, and open with O_TRUNC, pass whole index entries to put_block.  An entry with a size in its high bits is
    a number past the volume and is refused, so of the blocks of a file only the empty ones come back. */
module FileLives {
  import opened Helpers
  import opened PackedEntry
  import opened Volumes
  import opened FileContents
  import D = Directories

  /** S_ISREG, S_ISDIR, or neither. */
  datatype Mode = Regular | Directory | Other

  function Empties(es: seq<Word>): (n: nat)
    ensures n <= |es|
  {
    if es == [] then 0 else (if Size(es[0]) == 0 then 1 else 0) + Empties(es[1..])
  }

  /** b is the block of an empty entry. */
  predicate GivenBack(es: seq<Word>, b: nat) { exists i :: 0 <= i < |es| && Size(es[i]) == 0 && Number(es[i]) == b }

  /** Free is what was free, and the blocks of the empty entries. */
  ghost predicate Freed(bits0: seq<bool>, bits: seq<bool>, es: seq<Word>) {
    |bits| == |bits0| && forall b :: 0 <= b < |bits| ==> (bits[b] <==> bits0[b] || GivenBack(es, b))
  }

  /** The blocks of the empty entries are zeroed, the others as they were. */
  ghost predicate Scrubbed(disk0: seq<Block>, disk: seq<Block>, es: seq<Word>) {
    |disk| == |disk0| &&
    forall b :: 0 <= b < |disk| ==> disk[b] == if GivenBack(es, b) then Zeros() else disk0[b]
  }

  function Zeros(): (z: Block)
    ensures forall i :: 0 <= i < BLOCK_SIZE ==> z[i] == 0
  {
    seq(BLOCK_SIZE, _ => 0)
  }

  lemma {:induction false} EmptiesExtend(es: seq<Word>, i: nat)
    requires i < |es|
    ensures Empties(es[..i + 1]) == Empties(es[..i]) + if Size(es[i]) == 0 then 1 else 0
  {
    if i > 0 {
      EmptiesExtend(es[1..], i - 1);
      assert es[..i + 1][1..] == es[1..][..i] && es[..i][1..] == es[1..][..i - 1];
    }
  }

  lemma GivenBackExtend(es: seq<Word>, i: nat, b: nat)
    requires i < |es|
    ensures GivenBack(es[..i + 1], b) <==> GivenBack(es[..i], b) || (Size(es[i]) == 0 && Number(es[i]) == b)
  {
    var more := es[..i + 1];
    if k :| 0 <= k < i && Size(es[..i][k]) == 0 && Number(es[..i][k]) == b { assert more[k] == es[..i][k]; }
    if Size(es[i]) == 0 && Number(es[i]) == b { assert more[i] == es[i]; }
    if GivenBack(more, b) {
      var k :| 0 <= k < |more| && Size(more[k]) == 0 && Number(more[k]) == b;
      if k < i { assert es[..i][k] == more[k]; }
    }
  }

  /** put_block takes a whole entry for a block number if it is empty, and refuses it if it is not. */
  lemma WholeEntry(w: Word, nrBlocks: nat)
    requires 0 < Number(w) < nrBlocks <= NUMBERS
    ensures if Size(w) == 0 then w == Number(w) else w > nrBlocks
  {
  }

  lemma PutStep(bits0: seq<bool>, bits: seq<bool>, es: seq<Word>, i: nat, nrBlocks: nat)
    requires Owned(es, bits0, nrBlocks) && Distinct(es) && nrBlocks <= NUMBERS && i < |es|
    requires Freed(bits0, bits, es[..i])
    ensures if Size(es[i]) == 0
            then 0 < es[i] < nrBlocks <= |bits| && !bits[es[i]] && Freed(bits0, bits[es[i] := true], es[..i + 1])
            else es[i] > nrBlocks && Freed(bits0, bits, es[..i + 1])
  {
    hide GivenBack;
    WholeEntry(es[i], nrBlocks);
    NotYetBack(es, i);
    forall b | 0 <= b < |bits|
      ensures GivenBack(es[..i + 1], b) <==> GivenBack(es[..i], b) || (Size(es[i]) == 0 && Number(es[i]) == b)
    {
      GivenBackExtend(es, i, b);
    }
  }

  lemma NotYetBack(es: seq<Word>, i: nat)
    requires Distinct(es) && i < |es|
    ensures !GivenBack(es[..i], Number(es[i]))
  {
  }

  lemma ScrubStep(disk0: seq<Block>, disk: seq<Block>, es: seq<Word>, i: nat)
    requires i < |es| && Number(es[i]) < |disk| && Scrubbed(disk0, disk, es[..i])
    ensures Scrubbed(disk0, if Size(es[i]) == 0 then disk[Number(es[i]) := Zeros()] else disk, es[..i + 1])
  {
    hide GivenBack, Zeros;
    forall b | 0 <= b < |disk|
      ensures GivenBack(es[..i + 1], b) <==> GivenBack(es[..i], b) || (Size(es[i]) == 0 && Number(es[i]) == b)
    {
      GivenBackExtend(es, i, b);
    }
  }

  /** Of the blocks of a file exactly the empty ones come back. */
  lemma BackIfEmpty(bits0: seq<bool>, bits: seq<bool>, es: seq<Word>, nrBlocks: nat, i: nat)
    requires Owned(es, bits0, nrBlocks) && Distinct(es) && Freed(bits0, bits, es) && i < |es|
    ensures bits[Number(es[i])] <==> Size(es[i]) == 0
  {
    if GivenBack(es, Number(es[i])) {
      var k :| 0 <= k < |es| && Size(es[k]) == 0 && Number(es[k]) == Number(es[i]);
    }
  }

  lemma AllEmptyBack(bits0: seq<bool>, bits: seq<bool>, es: seq<Word>, nrBlocks: nat)
    requires Owned(es, bits0, nrBlocks) && Distinct(es) && Freed(bits0, bits, es)
    ensures forall i :: 0 <= i < |es| ==> (bits[Number(es[i])] <==> Size(es[i]) == 0)
  {
    forall i | 0 <= i < |es| ensures bits[Number(es[i])] <==> Size(es[i]) == 0 {
      BackIfEmpty(bits0, bits, es, nrBlocks, i);
    }
  }

  /** So all come back, to the bitmap and to the counter, precisely when the file holds no byte. */
  lemma {:induction false} AllBack(es: seq<Word>)
    ensures TotalSize(es) == 0 <==> Empties(es) == |es|
    ensures TotalSize(es) == 0 <==> forall i :: 0 <= i < |es| ==> Size(es[i]) == 0
  {
    if es != [] {
      AllBack(es[1..]);
      assert forall i :: 1 <= i < |es| ==> es[i] == es[1..][i - 1];
    }
  }

  /** The loop of unlink over the data blocks (lines 363 to 377): put_block, then zero the block if it can be read. */
  method PutBlocks(index: array<Word>, n: nat, vol: Volume, ghost es: seq<Word>)
    requires n <= index.Length && es == index[..n] && vol.BlocksOk() && vol.nrBlocks <= NUMBERS
    requires Owned(es, vol.bfree[..], vol.nrBlocks) && Distinct(es)
    modifies vol`nrFreeBlocks, vol`disk, vol.bfree
    ensures vol.BlocksOk() && vol.nrFreeBlocks == old(vol.nrFreeBlocks) + Empties(es)
    ensures Freed(old(vol.bfree[..]), vol.bfree[..], es) && Scrubbed(old(vol.disk), vol.disk, es)
  {
    hide CountFree, Empties, Freed, Scrubbed, Distinct;
    ghost var bits0, disk0 := vol.bfree[..], vol.disk;
    var i := 0;
    NothingBack(bits0, disk0, es);
    while i < n
      invariant i <= n && vol.BlocksOk() && vol.nrFreeBlocks == old(vol.nrFreeBlocks) + Empties(es[..i])
      invariant Freed(bits0, vol.bfree[..], es[..i]) && Scrubbed(disk0, vol.disk, es[..i])
    {
      assert index[i] == es[i];
      PutStep(bits0, vol.bfree[..], es, i, vol.nrBlocks);
      ScrubStep(disk0, vol.disk, es, i);
      EmptiesExtend(es, i);
      WholeEntry(es[i], vol.nrBlocks);
      if index[i] != 0 {
        var outside := vol.PutBlock(index[i]);
        if index[i] < |vol.disk| { vol.disk := vol.disk[index[i] := Zeros()]; }
      }
      i := i + 1;
    }
    assert es[..n] == es;
  }

  lemma NothingBack(bits: seq<bool>, disk: seq<Block>, es: seq<Word>)
    ensures Freed(bits, bits, es[..0]) && Scrubbed(disk, disk, es[..0]) && Empties(es[..0]) == 0
  {
  }

  // ---- the calls ----

  /** The volume of the calls below: exact counters, two bitmaps, block numbers that fit an entry. */
  ghost predicate VolumeOk(vol: Volume)
    reads vol, vol.bfree, vol.ifree
  {
    vol.BlocksOk() && vol.InodesOk() && vol.bfree != vol.ifree && vol.nrBlocks <= NUMBERS
  }

  /** The bits with number n handed out. */
  function Claimed(bits: seq<bool>, taken: bool, n: nat): seq<bool> {
    if taken && n < |bits| then bits[n := false] else bits
  }

  /** ouichefs_new_inode. When it gets as far as get_free_block the counter is not 0, so its clean-up is not reached. */
  method NewInode(vol: Volume, mode: Mode) returns (status: D.Status, ino: nat, bno: nat)
    requires VolumeOk(vol)
    modifies vol`nrFreeBlocks, vol`nrFreeInodes, vol.bfree, vol.ifree
    ensures VolumeOk(vol)
    ensures status == if mode.Other? then D.Einval
                      else if old(vol.nrFreeBlocks) == 0 || old(vol.nrFreeInodes) == 1 then D.Enospc else D.Ok
    ensures status == D.Ok ==> IsFirstFree(old(vol.ifree[..]), vol.nrInodes, ino)
                               && IsFirstFree(old(vol.bfree[..]), vol.nrBlocks, bno)
    ensures vol.bfree[..] == Claimed(old(vol.bfree[..]), status == D.Ok, bno)
    ensures vol.ifree[..] == Claimed(old(vol.ifree[..]), status == D.Ok, ino)
    ensures vol.nrFreeBlocks == old(vol.nrFreeBlocks) - One(status == D.Ok)
    ensures vol.nrFreeInodes == old(vol.nrFreeInodes) - One(status == D.Ok)
  {
    hide CountFree;
    if mode.Other? { return D.Einval, 0, 0; }
    if vol.nrFreeInodes == 0 || vol.nrFreeBlocks == 0 { return D.Enospc, 0, 0; }
    ino := vol.GetFreeInode();
    if ino == 0 { return D.Enospc, 0, 0; }
    bno := vol.GetFreeBlock();
    return D.Ok, ino, bno;
  }

  /** The inodes of a directory's entries, and of all directories, are handed out. */
  ghost predicate InodesTaken(es: seq<D.Slot>, dirs: set<nat>, ifree: seq<bool>) {
    && (forall i :: 0 <= i < |es| ==> es[i].inode < |ifree| && !ifree[es[i].inode])
    && (forall n :: n in dirs && n < |ifree| ==> !ifree[n])
  }

  lemma FreshInode(es: seq<D.Slot>, dirs: set<nat>, ifree: seq<bool>, ino: nat)
    requires InodesTaken(es, dirs, ifree) && ino < |ifree| && ifree[ino]
    ensures !D.HasInode(es, ino) && ino !in dirs
  {
  }

  /** The inode's new figures, and the buffer of its index block scrubbed. */
  method Clear(inode: Inode, index: array<Word>, blocks: nat, size: nat)
    modifies inode, index
    ensures inode.blocks == blocks && inode.size == size && forall i :: 0 <= i < index.Length ==> index[i] == 0
  {
    inode.blocks, inode.size := blocks, size;
    forall i | 0 <= i < index.Length { index[i] := 0; }
  }

  /** The end of unlink: put_block and put_inode. */
  method Release(vol: Volume, bno: nat, ino: nat)
    requires VolumeOk(vol) && 0 < bno < vol.nrBlocks && !vol.bfree[bno] && 0 < ino < vol.nrInodes && !vol.ifree[ino]
    modifies vol`nrFreeBlocks, vol`nrFreeInodes, vol.bfree, vol.ifree
    ensures VolumeOk(vol)
    ensures vol.bfree[..] == old(vol.bfree[..])[bno := true] && vol.nrFreeBlocks == old(vol.nrFreeBlocks) + 1
    ensures vol.ifree[..] == old(vol.ifree[..])[ino := true] && vol.nrFreeInodes == old(vol.nrFreeInodes) + 1
  {
    var outside := vol.PutBlock(bno);
    outside := vol.PutInode(ino);
  }

  /** ouichefs_create and ouichefs_mkdir; inode and index are what iget and sb_bread give for the numbers taken. */
  method Create(dir: D.Directory, vol: Volume, inode: Inode, index: array<Word>, name: string, mode: Mode,
                ghost dirs: set<nat>)
    returns (status: D.Status, ino: nat, bno: nat)
    requires VolumeOk(vol) && dir.Valid() && dir.LinksOk(dirs) && name != "" && !D.HasName(dir.Entries(), name)
    requires InodesTaken(dir.Entries(), dirs, vol.ifree[..]) && index.Length == MAX_BLOCKS_PER_FILE
    modifies dir`nlink, dir.files, vol`nrFreeBlocks, vol`nrFreeInodes, vol`disk, vol.bfree, vol.ifree, inode, index
    ensures VolumeOk(vol)
    ensures status == if |name| > D.FILENAME_LEN then D.Enametoolong
                      else if |old(dir.Entries())| == D.MAX_SUBFILES then D.Emlink
                      else if mode.Other? then D.Einval
                      else if old(vol.nrFreeBlocks) == 0 || old(vol.nrFreeInodes) == 1 then D.Enospc
                      else D.Ok
    ensures vol.bfree[..] == Claimed(old(vol.bfree[..]), status == D.Ok, bno)
    ensures vol.ifree[..] == Claimed(old(vol.ifree[..]), status == D.Ok, ino)
    ensures vol.nrFreeBlocks == old(vol.nrFreeBlocks) - One(status == D.Ok)
    ensures vol.nrFreeInodes == old(vol.nrFreeInodes) - One(status == D.Ok)
    ensures status == D.Ok ==>
              IsFirstFree(old(vol.ifree[..]), vol.nrInodes, ino) && IsFirstFree(old(vol.bfree[..]), vol.nrBlocks, bno)
              && ino != 0 && bno != 0 && !D.HasInode(old(dir.Entries()), ino)
    ensures vol.disk == if status == D.Ok then old(vol.disk)[bno := Zeros()] else old(vol.disk)
    ensures dir.Entries() == old(dir.Entries()) + if status == D.Ok then [D.Slot(ino, D.StrScpy(name))] else []
    ensures dir.LinksOk(if status == D.Ok && mode.Directory? then dirs + {ino} else dirs) && D.Packed(dir.files[..])
    ensures dir.Valid() <==> status != D.Ok || !D.HasName(old(dir.Entries()), D.StrScpy(name))
    ensures status == D.Ok && mode.Regular? ==> FileOk(inode, index, vol) && inode.size == 0
    ensures status == D.Ok && mode.Directory? ==> inode.size == BLOCK_SIZE
    ensures status == D.Ok ==> inode.blocks == 1 && forall i :: 0 <= i < index.Length ==> index[i] == 0
    ensures status != D.Ok ==> unchanged(inode, index)
  {
    hide CountFree, D.ListOk, D.Packed, D.SubDirs, D.HasName, D.HasInode, InodesTaken, Zeros;
    status := dir.CreateTest(name);
    ino, bno := 0, 0;
    if status != D.Ok { return; }
    ghost var ifree := vol.ifree[..];
    status, ino, bno := NewInode(vol, mode);
    if status != D.Ok { return; }
    FreshInode(dir.Entries(), dirs, ifree, ino);
    vol.disk := vol.disk[bno := Zeros()];
    Clear(inode, index, 1, if mode.Directory? then BLOCK_SIZE else 0);
    dir.Register(name, ino, mode.Directory?, dirs);
  }

  /** ouichefs_unlink of the regular file or directory with inode ino and index block bno. */
  method Unlink(dir: D.Directory, vol: Volume, inode: Inode, index: array<Word>, ino: nat, bno: nat, isDir: bool,
                ghost dirs: set<nat>, ghost es: seq<Word>)
    requires VolumeOk(vol) && dir.Valid() && dir.LinksOk(dirs)
    requires D.HasInode(dir.Entries(), ino) && (isDir <==> ino in dirs)
    requires 0 < ino < vol.nrInodes && !vol.ifree[ino] && 0 < bno < vol.nrBlocks && !vol.bfree[bno]
    requires if isDir then es == [] else FileOk(inode, index, vol) && es == Entries(inode, index)
    requires forall i :: 0 <= i < |es| ==> Number(es[i]) != bno
    modifies dir`nlink, dir.files, vol`nrFreeBlocks, vol`nrFreeInodes, vol`disk, vol.bfree, vol.ifree, inode, index
    ensures VolumeOk(vol) && dir.Valid() && dir.LinksOk(dirs - {ino})
    ensures dir.Entries() == D.Without(old(dir.Entries()), ino)
    ensures Freed(old(vol.bfree[..])[bno := true], vol.bfree[..], es)
    ensures forall i :: 0 <= i < |es| ==> (vol.bfree[Number(es[i])] <==> Size(es[i]) == 0)
    ensures vol.nrFreeBlocks == old(vol.nrFreeBlocks) + 1 + Empties(es)
    ensures vol.ifree[..] == old(vol.ifree[..])[ino := true] && vol.nrFreeInodes == old(vol.nrFreeInodes) + 1
    ensures Scrubbed(old(vol.disk)[bno := Zeros()], vol.disk, es)
    ensures inode.blocks == inode.size == 0 && forall i :: 0 <= i < index.Length ==> index[i] == 0
  {
    hide CountFree, D.ListOk, D.Packed, D.SubDirs, D.HasName, D.HasInode, D.Without;
    hide Empties, Freed, Scrubbed, TotalSize, Zeros;
    ghost var bits0, disk0 := vol.bfree[..], vol.disk;
    dir.Unlink(ino, isDir, dirs);
    NothingBack(bits0, disk0, es);
    if !isDir { PutBlocks(index, inode.blocks - 1, vol, es); }
    ghost var bits := vol.bfree[..];
    FreedMore(bits0, bits, es, bno);
    ScrubbedMore(disk0, vol.disk, es, bno);
    vol.disk := vol.disk[bno := Zeros()];
    Clear(inode, index, 0, 0);
    Release(vol, bno, ino);
    AllEmptyBack(bits0, bits, es, vol.nrBlocks);
  }

  lemma FreedMore(bits0: seq<bool>, bits: seq<bool>, es: seq<Word>, bno: nat)
    requires Freed(bits0, bits, es) && bno < |bits0| && !bits0[bno]
    requires forall i :: 0 <= i < |es| ==> Number(es[i]) != bno
    ensures bno < |bits| && !bits[bno] && Freed(bits0[bno := true], bits[bno := true], es)
  {
  }

  lemma ScrubbedMore(disk0: seq<Block>, disk: seq<Block>, es: seq<Word>, bno: nat)
    requires Scrubbed(disk0, disk, es) && bno < |disk0|
    ensures bno < |disk| && Scrubbed(disk0[bno := Zeros()], disk[bno := Zeros()], es)
  {
  }

  /** The truncation in ouichefs_open; unused entries of the index are 0. The loop stops at an entry that is 0, and
      leaves the block when there is none; i_blocks ends as 0, where a file without blocks has 1. */
  method OpenTruncating(inode: Inode, index: array<Word>, vol: Volume, trunc: bool, ghost es: seq<Word>)
    returns (outOfBounds: bool)
    requires FileOk(inode, index, vol) && es == Entries(inode, index)
    requires forall i :: |es| <= i < index.Length ==> index[i] == 0
    modifies inode, index, vol`nrFreeBlocks, vol.bfree
    ensures outOfBounds <==> trunc && |es| == MAX_BLOCKS_PER_FILE
    ensures vol.BlocksOk()
    ensures vol.nrFreeBlocks == old(vol.nrFreeBlocks) + if trunc then Empties(es) else 0
    ensures Freed(old(vol.bfree[..]), vol.bfree[..], if trunc then es else [])
    ensures forall i :: 0 <= i < |es| ==> (vol.bfree[Number(es[i])] <==> trunc && Size(es[i]) == 0)
    ensures trunc && es != [] && !outOfBounds ==> inode.size == inode.blocks == 0
    ensures FileOk(inode, index, vol) <==> !trunc || es == []
  {
    hide CountFree, Empties, Freed, Distinct, TotalSize;
    ghost var bits0 := vol.bfree[..];
    NothingBack(bits0, vol.disk, es);
    NothingBack(bits0, vol.disk, []);
    if !trunc || inode.size == 0 { return false; }
    var i := 0;
    ghost var was := index[..];
    while true
      invariant 0 <= i <= |es| && vol.BlocksOk() && vol.nrFreeBlocks == old(vol.nrFreeBlocks) + Empties(es[..i])
      invariant Freed(bits0, vol.bfree[..], es[..i])
      invariant (forall k :: i <= k < index.Length ==> index[k] == was[k]) && (i > 0 ==> index[0] == 0)
      invariant inode.blocks == old(inode.blocks) && inode.size == old(inode.size)
      decreases |es| - i
    {
      if i == index.Length {
        assert es[..i] == es && Number(Entries(inode, index)[0]) == 0;
        AllEmptyBack(bits0, vol.bfree[..], es, vol.nrBlocks);
        return true;
      }
      if index[i] == 0 { break; }
      PutStep(bits0, vol.bfree[..], es, i, vol.nrBlocks);
      EmptiesExtend(es, i);
      var outside := vol.PutBlock(index[i]);
      index[i] := 0;
      i := i + 1;
    }
    assert es[..i] == es;
    AllEmptyBack(bits0, vol.bfree[..], es, vol.nrBlocks);
    inode.size, inode.blocks := 0, 0;
    return false;
  }

  /** A file or directory that is created and unlinked leaves the volume and the directory as they were, but that
      the block b that was its index block is full of zeros. */
  method CreateThenUnlink(dir: D.Directory, vol: Volume, inode: Inode, index: array<Word>, name: string, mode: Mode,
                          ghost dirs: set<nat>)
    returns (status: D.Status, ghost b: nat)
    requires VolumeOk(vol) && dir.Valid() && dir.LinksOk(dirs) && name != "" && !D.HasName(dir.Entries(), name)
    requires InodesTaken(dir.Entries(), dirs, vol.ifree[..]) && index.Length == MAX_BLOCKS_PER_FILE
    requires !D.HasName(dir.Entries(), D.StrScpy(name))
    modifies dir`nlink, dir.files, vol`nrFreeBlocks, vol`nrFreeInodes, vol`disk, vol.bfree, vol.ifree, inode, index
    ensures vol.bfree[..] == old(vol.bfree[..]) && vol.nrFreeBlocks == old(vol.nrFreeBlocks)
    ensures vol.ifree[..] == old(vol.ifree[..]) && vol.nrFreeInodes == old(vol.nrFreeInodes)
    ensures status == D.Ok ==> IsFirstFree(old(vol.bfree[..]), vol.nrBlocks, b)
    ensures vol.disk == if status == D.Ok then old(vol.disk)[b := Zeros()] else old(vol.disk)
    ensures dir.Entries() == old(dir.Entries()) && dir.nlink == old(dir.nlink) && VolumeOk(vol) && dir.Valid()
  {
    hide CountFree, D.ListOk, D.Packed, D.SubDirs, D.HasName, D.HasInode, D.Without;
    hide Freed, Scrubbed, Empties, Zeros, InodesTaken;
    ghost var es, bits, ifree, disk := dir.Entries(), vol.bfree[..], vol.ifree[..], vol.disk;
    var ino, bno;
    status, ino, bno := Create(dir, vol, inode, index, name, mode, dirs);
    b := bno;
    if status == D.Ok {
      FreshInode(es, dirs, ifree, ino);
      WithoutLast(es, D.Slot(ino, D.StrScpy(name)));
      ghost var dirs' := if mode.Directory? then dirs + {ino} else dirs;
      assert dirs' - {ino} == dirs;
      Unlink(dir, vol, inode, index, ino, bno, mode.Directory?, dirs', []);
      OnlyThese(bits[bno := false][bno := true], vol.bfree[..], disk[bno := Zeros()][bno := Zeros()], vol.disk);
    }
  }

  lemma OnlyThese(bits0: seq<bool>, bits: seq<bool>, disk0: seq<Block>, disk: seq<Block>)
    requires Freed(bits0, bits, []) && Scrubbed(disk0, disk, [])
    ensures bits == bits0 && disk == disk0 && Empties([]) == 0
  {
  }

  lemma WithoutLast(es: seq<D.Slot>, slot: D.Slot)
    requires !D.HasInode(es, slot.inode)
    ensures D.HasInode(es + [slot], slot.inode) && D.Without(es + [slot], slot.inode) == es
  {
    assert (es + [slot])[|es|] == slot;
    D.WithoutIs(es + [slot], |es|, slot.inode);
  }
}
