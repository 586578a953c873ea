/** ouichefs_read returns exactly the bytes asked for, through partial and empty blocks. */
module FileRead {
  import opened PackedEntry
  import opened Volumes
  import opened FileContents

  datatype ReadResult = Read(bytes: seq<byte>) | Espipe

  function Min(a: nat, b: nat): nat { if a < b then a else b }

  /** The k-th used prefix, seen inside the whole. */
  lemma ContentsAt(es: seq<Word>, k: nat, disk: seq<Block>)
    requires k < |es| && InRange(es, disk)
    ensures TotalSize(es[..k + 1]) == TotalSize(es[..k]) + Size(es[k]) <= TotalSize(es)
    ensures Contents(es, disk)[TotalSize(es[..k])..TotalSize(es[..k + 1])] == disk[Number(es[k])][..Size(es[k])]
  {
    ContentsSplit(es, k, disk);
    ContentsExtend(es, k, disk);
  }

  lemma SliceOfSlice(c: seq<byte>, lo: nat, block: Block, size: nat, a: nat, b: nat)
    requires a <= b <= size <= |block| && lo + size <= |c| && c[lo..lo + size] == block[..size]
    ensures c[lo + a..lo + b] == block[a..b]
  {
    forall k | 0 <= k < b - a ensures c[lo + a..lo + b][k] == block[a..b][k] {
      assert c[lo..lo + size][a + k] == block[..size][a + k];
    }
  }

  lemma SliceJoin(c: seq<byte>, a: nat, m: nat, b: nat)
    requires a <= m <= b <= |c|
    ensures c[a..m] + c[m..b] == c[a..b]
  {
  }

  /** Taking n bytes at jump from the k-th block carries a copy of c on by n bytes. */
  lemma CopyStep(es: seq<Word>, k: nat, disk: seq<Block>, jump: nat, n: nat)
    requires k < |es| && InRange(es, disk) && jump + n <= Size(es[k])
    ensures TotalSize(es[..k + 1]) == TotalSize(es[..k]) + Size(es[k]) <= TotalSize(es)
    ensures var at := TotalSize(es[..k]) + jump;
            Contents(es, disk)[at..at + n] == disk[Number(es[k])][jump..jump + n]
  {
    ContentsAt(es, k, disk);
    SliceOfSlice(Contents(es, disk), TotalSize(es[..k]), disk[Number(es[k])], Size(es[k]), jump, jump + n);
  }

  /** The first block that ends at or after the offset, and the offset within it. */
  method Locate(index: array<Word>, nrBlocks: nat, offset: nat) returns (i: nat, curJump: nat)
    requires nrBlocks <= index.Length && offset < TotalSize(index[..nrBlocks])
    ensures i < nrBlocks && curJump <= Size(index[i]) && TotalSize(index[..i]) + curJump == offset
  {
    var jumped := 0;
    i, curJump := 0, 0;
    ghost var es := index[..nrBlocks];
    while i < nrBlocks
      invariant 0 <= i <= nrBlocks && jumped == TotalSize(es[..i])
      invariant i == nrBlocks ==> jumped == TotalSize(es)
      invariant i == 0 || offset > jumped
    {
      TotalSizeExtend(es, i);
      assert es[..i] == index[..i];
      assert i + 1 == nrBlocks ==> es[..i + 1] == es;
      jumped := jumped + Size(index[i]);
      if offset <= jumped {
        curJump := Size(index[i]) - (jumped - offset);
        return;
      }
      i := i + 1;
    }
  }

  /** out holds the contents from at onwards, and block j from jump on comes next. */
  ghost predicate Copied(es: seq<Word>, disk: seq<Block>, at: nat, out: seq<byte>, j: nat, jump: nat)
    requires InRange(es, disk)
  {
    && j <= |es| && TotalSize(es[..j]) + jump == at + |out| <= TotalSize(es)
    && (j < |es| ==> jump <= Size(es[j]))
    && out == Contents(es, disk)[at..at + |out|]
  }

  lemma CopiedStep(es: seq<Word>, disk: seq<Block>, at: nat, out: seq<byte>, j: nat, jump: nat, n: nat)
    requires InRange(es, disk) && Copied(es, disk, at, out, j, jump) && j < |es| && jump + n <= Size(es[j])
    ensures var out' := out + disk[Number(es[j])][jump..jump + n];
            at + |out'| <= TotalSize(es) && out' == Contents(es, disk)[at..at + |out'|]
            && (jump + n == Size(es[j]) ==> Copied(es, disk, at, out', j + 1, 0))
  {
    CopyStep(es, j, disk, jump, n);
    SliceJoin(Contents(es, disk), at, at + |out|, at + |out| + n);
  }

  lemma CopiedNothing(es: seq<Word>, disk: seq<Block>, i: nat, jump: nat)
    requires InRange(es, disk) && i < |es| && jump <= Size(es[i])
    ensures Copied(es, disk, TotalSize(es[..i]) + jump, [], i, jump)
  {
    CopyStep(es, i, disk, jump, 0);
  }

  lemma CopiedAll(es: seq<Word>, disk: seq<Block>, at: nat, out: seq<byte>)
    requires InRange(es, disk) && Copied(es, disk, at, out, |es|, 0)
    ensures at + |out| == TotalSize(es) && out == Contents(es, disk)[at..]
  {
    assert es[..|es|] == es;
  }

  /** Copies up to len bytes, starting at jump in block i. */
  method CopyOut(index: array<Word>, ghost es: seq<Word>, nrBlocks: nat, disk: seq<Block>, i: nat, jump: nat, len: nat)
    returns (out: seq<byte>)
    requires nrBlocks <= index.Length && es == index[..nrBlocks] && InRange(es, disk)
    requires i < nrBlocks && jump <= Size(es[i])
    ensures TotalSize(es[..i]) + jump <= TotalSize(es)
    ensures out == Contents(es, disk)[TotalSize(es[..i]) + jump..Min(TotalSize(es[..i]) + jump + len, TotalSize(es))]
  {
    ghost var at := TotalSize(es[..i]) + jump;
    CopiedNothing(es, disk, i, jump);
    var j, left: nat, curJump: nat := i, len, jump;
    out := [];
    while left > 0 && j < nrBlocks
      invariant i <= j <= nrBlocks && |out| + left == len
      invariant at + |out| <= TotalSize(es)
      invariant left > 0 ==> Copied(es, disk, at, out, j, curJump)
      invariant left == 0 ==> out == Contents(es, disk)[at..at + |out|]
      invariant j > i ==> curJump == 0
    {
      var entry := index[j];
      var n := Min(left, Size(entry) - curJump);
      CopiedStep(es, disk, at, out, j, curJump, n);
      out := out + disk[Number(entry)][curJump..curJump + n];
      if i == j { curJump := 0; }
      left := left - n;
      j := j + 1;
    }
    if left > 0 { CopiedAll(es, disk, at, out); }
  }

  method OuichefsRead(inode: Inode, index: array<Word>, vol: Volume, len: nat, offset: nat) returns (r: ReadResult)
    requires FileOk(inode, index, vol)
    ensures r == if len == 0 then Read([])
                 else if offset > MAX_OFFSET || offset >= inode.size then Espipe
                 else Read(Bytes(inode, index, vol)[offset..Min(offset + len, inode.size)])
  {
    if len == 0 { return Read([]); }
    if offset > MAX_OFFSET { return Espipe; }
    if offset >= inode.size { return Espipe; }
    var i, curJump := Locate(index, inode.blocks - 1, offset);
    assert index[..i] == Entries(inode, index)[..i];
    var out := CopyOut(index, Entries(inode, index), inode.blocks - 1, vol.disk, i, curJump, Min(len, inode.size));
    return Read(out);
  }
}
