/** Reading back a write: the two system calls together. */
module WriteThenRead {
  import opened PackedEntry
  import opened Volumes
  import opened FileContents
  import opened FileRead
  import opened FileWrite

  lemma InsertedSlices(c: seq<byte>, o: nat, data: seq<byte>, n: nat)
    requires o <= |c| && n <= |c| - o
    ensures Inserted(c, o, data)[o..o + |data|] == data
    ensures Inserted(c, o, data)[o + |data|..o + |data| + n] == c[o..o + n]
  {
  }

  /** After a clean write, a read of as many bytes at the same offset gives the data, and a read from
      the end of the data on gives what used to be at the offset. */
  method WriteThenRead(inode: Inode, index: array<Word>, vol: Volume, data: seq<byte>, offset: nat, len: nat)
    returns (written: ReadResult, shifted: ReadResult)
    requires FileOk(inode, index, vol) && data != [] && offset + |data| <= MAX_OFFSET && offset <= inode.size
    requires Clean(inode.blocks - 1, Needed(JumpFor(Entries(inode, index), offset), |data|))
    requires Needed(JumpFor(Entries(inode, index), offset), |data|) <= vol.nrFreeBlocks
    modifies inode, index, vol`disk, vol`nrFreeBlocks, vol.bfree
    ensures written == Read(data)
    ensures len > 0 ==>
              shifted == if offset == old(inode.size) then ReadResult.Espipe
                         else Read(old(Bytes(inode, index, vol))[offset..Min(offset + len, old(inode.size))])
  {
    hide Contents, TotalSize, Inserted, OthersKept, BitsOk, Owned, JumpFor, Distinct, CountFree;
    BytesLength(inode, index, vol);
    ghost var c := Bytes(inode, index, vol);
    ghost var n := Min(offset + len, inode.size) - offset;
    InsertedSlices(c, offset, data, n);
    var r := OuichefsWrite(inode, index, vol, data, offset);
    written := OuichefsRead(inode, index, vol, |data|, offset);
    shifted := OuichefsRead(inode, index, vol, len, offset + |data|);
  }

  lemma BytesLength(inode: Inode, index: array<Word>, vol: Volume)
    requires FileOk(inode, index, vol)
    ensures InRange(Entries(inode, index), vol.disk) && |Bytes(inode, index, vol)| == inode.size
  {
  }
}
