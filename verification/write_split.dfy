/** The first half of ouichefs_write: finding the block of the offset, shifting the index, splitting the block. */
module WriteSplit {
  import opened PackedEntry
  import opened Volumes
  import opened FileContents
  import opened WriteAlloc

  /** Block i holds the offset, jump bytes in: the first block that ends at or after it. */
  predicate IsPlace(es: seq<Word>, offset: nat, i: nat, jump: nat) {
    if es == [] then i == 0 && jump == 0
    else i < |es| && TotalSize(es[..i]) + jump == offset && jump <= Size(es[i]) && (i == 0 || jump > 0)
  }

  method FindPlace(index: array<Word>, nrBlocks: nat, offset: nat) returns (blockJump: nat, byteJump: nat)
    requires nrBlocks <= index.Length && offset <= TotalSize(index[..nrBlocks])
    ensures IsPlace(index[..nrBlocks], offset, blockJump, byteJump)
  {
    ghost var es := index[..nrBlocks];
    // the source leaves both unset when the file has no block yet
    blockJump, byteJump := 0, 0;
    var i, jumped := 0, 0;
    while i < nrBlocks
      invariant 0 <= i <= nrBlocks && jumped == TotalSize(es[..i])
      invariant i == 0 || offset > jumped
      invariant i == nrBlocks ==> i == 0
      invariant blockJump == 0 && byteJump == 0
    {
      TotalSizeExtend(es, i);
      assert i == nrBlocks - 1 ==> es[..i + 1] == es;
      jumped := jumped + Size(index[i]);
      if !(jumped < offset && i != nrBlocks - 1) {
        blockJump := i;
        byteJump := Size(index[i]) - (jumped - offset);
        return;
      }
      i := i + 1;
    }
  }

  /** Moves entries after blockJump up by k places. */
  method Shift(index: array<Word>, nrBlocks: nat, blockJump: nat, k: nat)
    requires blockJump < nrBlocks && nrBlocks + k <= index.Length
    modifies index
    ensures index[..blockJump + 1] == old(index[..blockJump + 1])
    ensures index[blockJump + 1 + k..nrBlocks + k] == old(index[blockJump + 1..nrBlocks])
  {
    var j := nrBlocks - 1;
    while j > blockJump
      invariant blockJump <= j < nrBlocks
      invariant index[..j + 1] == old(index[..j + 1])
      invariant index[j + 1 + k..nrBlocks + k] == old(index[j + 1..nrBlocks])
    {
      assert old(index[j..nrBlocks]) == [old(index[j])] + old(index[j + 1..nrBlocks]);
      assert old(index[..j]) == old(index[..j + 1])[..j];
      index[j + k] := index[j];
      assert index[j + k..nrBlocks + k] == [index[j + k]] + index[j + 1 + k..nrBlocks + k];
      j := j - 1;
    }
  }

  /** Copies what follows byteJump in block blockJump to the block of entry last, and divides the size. */
  method MoveTail(index: array<Word>, vol: Volume, blockJump: nat, last: nat, byteJump: nat)
    requires blockJump < last < index.Length && byteJump <= Size(index[blockJump])
    requires Number(index[blockJump]) < |vol.disk| && Number(index[last]) < |vol.disk|
    modifies index, vol`disk
    ensures index[..] == old(index[..])[blockJump := WithSize(old(index[blockJump]), byteJump)]
                                      [last := WithSize(old(index[last]), Size(old(index[blockJump])) - byteJump)]
    ensures |vol.disk| == old(|vol.disk|)
    ensures forall b :: 0 <= b < |vol.disk| && b != Number(old(index[last])) ==> vol.disk[b] == old(vol.disk[b])
    ensures vol.disk[Number(old(index[last]))][..MAX_BLOCK_SIZE - byteJump]
         == old(vol.disk[Number(index[blockJump])])[byteJump..MAX_BLOCK_SIZE]
  {
    var from, to := Number(index[blockJump]), Number(index[last]);
    var moved := MAX_BLOCK_SIZE - byteJump;
    vol.disk := vol.disk[to := vol.disk[from][byteJump..MAX_BLOCK_SIZE] + vol.disk[to][moved..]];
    var size := Size(index[blockJump]);
    SetBlockSize(index, blockJump, byteJump);
    SetBlockSize(index, last, size - byteJump);
  }

  /** Entries es, with k fresh ones put in after entry i. */
  ghost predicate Opened(es: seq<Word>, i: nat, added: seq<Word>, es': seq<Word>) {
    i < |es| && es' == es[..i + 1] + added + es[i + 1..]
  }

  lemma OpenedSlices(was: seq<Word>, shifted: seq<Word>, now: seq<Word>, nrBlocks: nat, i: nat, k: nat,
                     added: seq<Word>)
    requires |was| == |shifted| && i < nrBlocks && nrBlocks + k <= |was| && |added| == k
    requires shifted[..i + 1] == was[..i + 1] && shifted[i + 1 + k..nrBlocks + k] == was[i + 1..nrBlocks]
    requires now == shifted[..i + 1] + added + shifted[i + 1 + k..]
    ensures Opened(was[..nrBlocks], i, added, now[..nrBlocks + k])
  {
    assert was[..nrBlocks][..i + 1] == was[..i + 1] && was[..nrBlocks][i + 1..] == was[i + 1..nrBlocks];
    assert now[..nrBlocks + k] == shifted[..i + 1] + added + shifted[i + 1 + k..][..nrBlocks - i - 1];
    assert shifted[i + 1 + k..][..nrBlocks - i - 1] == shifted[i + 1 + k..nrBlocks + k];
  }

  /** Lines 555 to 621: the shift and the allocation of k blocks after block blockJump. */
  method OpenUp(index: array<Word>, vol: Volume, nrBlocks: nat, blockJump: nat, k: nat) returns (ghost added: seq<Word>)
    requires blockJump < nrBlocks && nrBlocks + k <= index.Length
    requires vol.BlocksOk() && vol.nrBlocks <= NUMBERS && k <= vol.nrFreeBlocks
    modifies index, vol`nrFreeBlocks, vol.bfree
    ensures vol.BlocksOk() && vol.nrFreeBlocks == old(vol.nrFreeBlocks) - k
    ensures |added| == k && FreshRun(old(vol.bfree[..]), vol.bfree[..], vol.nrBlocks, added)
    ensures Opened(old(index[..])[..nrBlocks], blockJump, added, index[..][..nrBlocks + k])
  {
    hide FreshRun, Opened;
    ghost var was := index[..];
    Shift(index, nrBlocks, blockJump, k);
    ghost var shifted := index[..];
    added := AllocateRun(index, vol, blockJump + 1, k);
    OpenedSlices(was, shifted, index[..], nrBlocks, blockJump, k, added);
  }

  /** memset of the rest of the block, when the write stays inside it (line 690). */
  function Padded(block: Block, from: nat): (r: Block)
    ensures forall i :: 0 <= i < BLOCK_SIZE ==> r[i] == if from <= i < MAX_BLOCK_SIZE then 0 else block[i]
  {
    if from < MAX_BLOCK_SIZE then block[..from] + seq(MAX_BLOCK_SIZE - from, _ => 0) + block[MAX_BLOCK_SIZE..]
    else block
  }

  lemma PaddedKeeps(block: Block, from: nat, jump: nat)
    requires jump <= from && jump <= MAX_BLOCK_SIZE
    ensures Padded(block, from)[..jump] == block[..jump]
  {
  }

  /** After lines 555 to 690: k fresh blocks follow block i, which has kept its first jump bytes;
      the last fresh one has the rest. */
  ghost predicate Split(es: seq<Word>, disk0: seq<Block>, i: nat, jump: nat, added: seq<Word>, es': seq<Word>,
                        disk: seq<Block>) {
    && i < |es| && InRange(es, disk0) && jump <= Size(es[i]) && |added| >= 1 && |disk| == |disk0|
    && InRange(added, disk)
    && es' == es[..i] + RunOf(es[i], jump, added) + [TailOf(es[i], jump, added)] + es[i + 1..]
    && Used(TailOf(es[i], jump, added), disk) == Used(es[i], disk0)[jump..]
    && disk[Number(es[i])][..jump] == Used(es[i], disk0)[..jump]
    && forall b :: 0 <= b < |disk| && b != Number(es[i]) && Absent(b, added) ==> disk[b] == disk0[b]
  }

  function RunOf(e: Word, jump: nat, added: seq<Word>): (r: seq<Word>)
    requires |added| >= 1
    ensures |r| == |added|
  {
    [WithSize(e, jump)] + added[..|added| - 1]
  }

  function TailOf(e: Word, jump: nat, added: seq<Word>): Word
    requires |added| >= 1 && jump <= Size(e)
  {
    WithSize(added[|added| - 1], Size(e) - jump)
  }

  lemma SplitSlices(es: seq<Word>, i: nat, jump: nat, added: seq<Word>, a: seq<Word>, b: seq<Word>)
    requires Opened(es, i, added, a) && |added| >= 1 && jump <= Size(es[i])
    requires b == a[i := WithSize(es[i], jump)][i + |added| := TailOf(es[i], jump, added)]
    ensures b == es[..i] + RunOf(es[i], jump, added) + [TailOf(es[i], jump, added)] + es[i + 1..]
  {
  }

  lemma SplitBytes(block: Block, tail: Block, jump: nat, size: nat)
    requires jump <= size <= MAX_BLOCK_SIZE && tail[..MAX_BLOCK_SIZE - jump] == block[jump..MAX_BLOCK_SIZE]
    ensures tail[..size - jump] == block[..size][jump..] && block[..size][..jump] == block[..jump]
  {
    forall m | 0 <= m < size - jump ensures tail[m] == block[jump + m] {
      assert tail[m] == tail[..MAX_BLOCK_SIZE - jump][m] == block[jump..MAX_BLOCK_SIZE][m];
    }
    assert tail[..size - jump] == block[..size][jump..];
    assert block[..size][..jump] == block[..jump];
  }

  lemma OpenedAt(es: seq<Word>, i: nat, added: seq<Word>, wide: seq<Word>)
    requires Opened(es, i, added, wide) && |added| >= 1
    ensures |wide| == |es| + |added| && wide[i] == es[i] && wide[i + |added|] == added[|added| - 1]
  {
  }

  lemma SplitDone(es: seq<Word>, disk0: seq<Block>, i: nat, jump: nat, added: seq<Word>, wide: seq<Word>,
                  es': seq<Word>, disk1: seq<Block>, disk2: seq<Block>, len: nat)
    requires Opened(es, i, added, wide) && |added| >= 1 && jump <= Size(es[i])
    requires es' == wide[i := WithSize(es[i], jump)][i + |added| := TailOf(es[i], jump, added)]
    requires InRange(es, disk0) && InRange(added, disk0) && |disk1| == |disk0|
    requires Number(es[i]) != Number(added[|added| - 1])
    requires disk1[Number(added[|added| - 1])][..MAX_BLOCK_SIZE - jump] == disk0[Number(es[i])][jump..MAX_BLOCK_SIZE]
    requires forall b :: 0 <= b < |disk1| && b != Number(added[|added| - 1]) ==> disk1[b] == disk0[b]
    requires disk2 == disk1[Number(es[i]) := Padded(disk1[Number(es[i])], jump + len)]
    ensures Split(es, disk0, i, jump, added, es', disk2)
  {
    SplitSlices(es, i, jump, added, wide, es');
    SplitBytes(disk0[Number(es[i])], disk1[Number(added[|added| - 1])], jump, Size(es[i]));
    PaddedKeeps(disk1[Number(es[i])], jump + len, jump);
  }

  method SplitAt(index: array<Word>, vol: Volume, nrBlocks: nat, blockJump: nat, k: nat, byteJump: nat, len: nat)
    returns (ghost added: seq<Word>)
    requires blockJump < nrBlocks && 1 <= k && nrBlocks + k <= index.Length
    requires vol.BlocksOk() && vol.nrBlocks <= NUMBERS && k <= vol.nrFreeBlocks
    requires Owned(index[..][..nrBlocks], vol.bfree[..], vol.nrBlocks) && byteJump <= Size(index[blockJump])
    modifies index, vol`disk, vol`nrFreeBlocks, vol.bfree
    ensures vol.BlocksOk() && vol.nrFreeBlocks == old(vol.nrFreeBlocks) - k
    ensures |added| == k && FreshRun(old(vol.bfree[..]), vol.bfree[..], vol.nrBlocks, added)
    ensures Split(old(index[..])[..nrBlocks], old(vol.disk), blockJump, byteJump, added, index[..][..nrBlocks + k],
        vol.disk)
    ensures Number(old(index[blockJump])) < |old(vol.disk)| == |vol.disk|
    ensures vol.disk[Number(old(index[blockJump]))]
         == Padded(old(vol.disk)[Number(old(index[blockJump]))], byteJump + len)
  {
    hide Split, Padded, Opened, WithSize;
    ghost var es: seq<Word>, disk0, bits := index[..][..nrBlocks], vol.disk, vol.bfree[..];
    added := OpenUp(index, vol, nrBlocks, blockJump, k);
    ghost var wide := index[..][..nrBlocks + k];
    OpenedAt(es, blockJump, added, wide);
    assert index[blockJump] == wide[blockJump] && index[blockJump + k] == wide[blockJump + k];
    assert bits[Number(added[k - 1])] && !bits[Number(es[blockJump])];
    MoveTail(index, vol, blockJump, blockJump + k, byteJump);
    ghost var disk1 := vol.disk;
    var b := Number(index[blockJump]);
    vol.disk := vol.disk[b := Padded(vol.disk[b], byteJump + len)];
    SplitDone(es, disk0, blockJump, byteJump, added, wide, index[..][..nrBlocks + k], disk1, vol.disk, len);
  }
}
