/** ouichefs_write inserts: it shifts index entries, splits the block at the offset, and fills fresh blocks. */
module FileWrite {
  import opened Helpers
  import opened PackedEntry
  import opened Volumes
  import opened FileContents
  import opened WriteAlloc
  import opened WriteData
  import opened WriteSplit

  datatype WriteResult =
    | Wrote(n: nat)
    | Espipe | Enospc | Efbig
    | Overrun            // copy_from_user past the end of a 4096-byte buffer

  /** Fresh blocks a write of len bytes needs, before any clipping. */
  function Needed(jump: nat, len: nat): nat { CeilDiv(jump + len, MAX_BLOCK_SIZE) }

  function Clipped(nrBlocks: nat, needed: nat): int {
    if nrBlocks + needed > MAX_BLOCKS_PER_FILE then MAX_BLOCKS_PER_FILE - nrBlocks else needed
  }

  /** When the code inserts: no clipping, and a one-block file does not spill past its block. */
  predicate Clean(nrBlocks: nat, needed: nat) {
    nrBlocks + needed <= MAX_BLOCKS_PER_FILE && !(nrBlocks == 1 && needed >= 2)
  }

  /** The index after a write: the old one up to the split block, the run, the tail, the rest. */
  ghost predicate Spliced(es: seq<Word>, i: nat, run: seq<Word>, tail: Word, es': seq<Word>) {
    && i < |es| && |run| > 0 && Number(run[0]) == Number(es[i])
    && es' == es[..i] + run + [tail] + es[i + 1..]
  }

  lemma ContentsOfFour(a: seq<Word>, run: seq<Word>, tail: Word, d: seq<Word>, disk: seq<Block>)
    requires InRange(a, disk) && InRange(run, disk) && InRange(d, disk) && Number(tail) < |disk|
    ensures InRange(a + run + [tail] + d, disk)
    ensures Contents(a + run + [tail] + d, disk)
         == Contents(a, disk) + Contents(run, disk) + Used(tail, disk) + Contents(d, disk)
  {
    ContentsConcat(a, run, disk);
    ContentsConcat(a + run, [tail], disk);
    ContentsConcat(a + run + [tail], d, disk);
    ContentsOne(tail, disk);
  }

  /** The parts that a write leaves alone. */
  lemma SplicedParts(es: seq<Word>, disk: seq<Block>, i: nat, run: seq<Word>, tail: Word, es': seq<Word>,
                     disk': seq<Block>)
    requires Spliced(es, i, run, tail, es') && InRange(es, disk) && |disk| == |disk'|
    requires InRange(run, disk') && Number(tail) < |disk'|
    requires forall m :: 0 <= m < |es| && m != i ==> disk'[Number(es[m])] == disk[Number(es[m])]
    ensures InRange(es', disk') && InRange(es[..i], disk) && InRange(es[i + 1..], disk)
    ensures var a, d := Contents(es[..i], disk), Contents(es[i + 1..], disk);
            && Contents(es, disk) == a + Used(es[i], disk) + d
            && Contents(es', disk') == a + Contents(run, disk') + Used(tail, disk') + d
  {
    hide Contents;
    ContentsSplit(es, i, disk);
    ContentsFrame(es[..i], disk, disk');
    ContentsFrame(es[i + 1..], disk, disk');
    ContentsOfFour(es[..i], run, tail, es[i + 1..], disk');
  }

  /** If the run holds what came before the split followed by the data, and the tail what came after it,
      the whole has the data inserted. */
  lemma SplicedContents(es: seq<Word>, disk: seq<Block>, i: nat, jump: nat, run: seq<Word>, tail: Word,
                        es': seq<Word>, disk': seq<Block>, o: nat, data: seq<byte>)
    requires Spliced(es, i, run, tail, es') && InRange(es, disk) && |disk| == |disk'|
    requires InRange(run, disk') && Number(tail) < |disk'|
    requires jump <= Size(es[i]) && o == TotalSize(es[..i]) + jump
    requires Contents(run, disk') == Used(es[i], disk)[..jump] + data
    requires Used(tail, disk') == Used(es[i], disk)[jump..]
    requires forall m :: 0 <= m < |es| && m != i ==> disk'[Number(es[m])] == disk[Number(es[m])]
    ensures InRange(es', disk') && o <= |Contents(es, disk)|
    ensures Contents(es', disk') == Inserted(Contents(es, disk), o, data)
  {
    hide TotalSize;
    SplicedParts(es, disk, i, run, tail, es', disk');
    Lengths(es, i, disk);
    InsertAt(Contents(es, disk), Contents(es', disk'), Contents(es[..i], disk), Used(es[i], disk),
             Contents(es[i + 1..], disk), jump, o, data);
  }

  lemma Lengths(es: seq<Word>, i: nat, disk: seq<Block>)
    requires i < |es| && InRange(es, disk) && InRange(es[..i], disk)
    ensures |Contents(es, disk)| == TotalSize(es) && |Contents(es[..i], disk)| == TotalSize(es[..i])
    ensures TotalSize(es[..i]) + Size(es[i]) <= TotalSize(es)
  {
    ContentsSplit(es, i, disk);
  }

  function Inserted(c: seq<byte>, o: nat, data: seq<byte>): seq<byte>
    requires o <= |c|
  {
    c[..o] + data + c[o..]
  }

  lemma InsertAt(c: seq<byte>, c': seq<byte>, a: seq<byte>, used: seq<byte>, d: seq<byte>, jump: nat, o: nat,
                 data: seq<byte>)
    requires jump <= |used| && c == a + used + d && c' == a + (used[..jump] + data) + used[jump..] + d
    requires o == |a| + jump
    ensures c' == Inserted(c, o, data)
  {
    assert c[..o] == a + used[..jump];
    assert c[o..] == used[jump..] + d;
  }


  /** No block that was handed out, other than b0, has changed. */
  ghost predicate Kept(bits: seq<bool>, b0: nat, disk: seq<Block>, disk': seq<Block>) {
    |disk| == |disk'| <= |bits| && forall b :: 0 <= b < |disk| && !bits[b] && b != b0 ==> disk'[b] == disk[b]
  }

  lemma RunFacts(es: seq<Word>, disk0: seq<Block>, i: nat, jump: nat, added: seq<Word>, es': seq<Word>,
                 disk: seq<Block>, bits: seq<bool>, bits': seq<bool>, data: seq<byte>)
    requires Split(es, disk0, i, jump, added, es', disk) && Owned(es, bits, |disk0|)
    requires FreshRun(bits, bits', |disk0|, added)
    ensures Filled(RunOf(es[i], jump, added), disk, Used(es[i], disk0)[..jump], data, 0, 0)
    ensures Kept(bits, Number(es[i]), disk0, disk)
    ensures forall b :: 0 <= b < |disk| && !bits[b] && b != Number(es[i]) ==> Absent(b, RunOf(es[i], jump, added))
    ensures Absent(Number(added[|added| - 1]), RunOf(es[i], jump, added))
  {
    var run := RunOf(es[i], jump, added);
    forall m, n | 0 <= m < n < |run| ensures Number(run[m]) != Number(run[n]) {
      assert run[n] == added[n - 1];
      if m > 0 { assert run[m] == added[m - 1]; }
    }
  }

  /** Fresh numbers put among old ones: all still handed out, and distinct. */
  lemma OpenedOwned(es: seq<Word>, i: nat, added: seq<Word>, bits: seq<bool>, bits': seq<bool>, nrBlocks: nat)
    requires i < |es| && Owned(es, bits, nrBlocks) && Distinct(es) && FreshRun(bits, bits', nrBlocks, added)
    ensures Owned(es[..i + 1] + added + es[i + 1..], bits', nrBlocks) && Distinct(es[..i + 1] + added + es[i + 1..])
  {
    var all, k := es[..i + 1] + added + es[i + 1..], |added|;
    forall m | 0 <= m < |all|
      ensures 0 < Number(all[m]) < nrBlocks && !bits'[Number(all[m])]
      ensures all[m] == if m <= i then es[m] else if m <= i + k then added[m - i - 1] else es[m - k]
      ensures bits[Number(all[m])] <==> i < m <= i + k
    {
    }
  }

  /** The numbers of the new index are the old ones and those of the run, so blocks went from the free to the file. */
  lemma ClaimsRun(es: seq<Word>, i: nat, added: seq<Word>, bits: seq<bool>, bits': seq<bool>, nrBlocks: nat,
                  es': seq<Word>)
    requires i < |es| && Owned(es, bits, nrBlocks) && FreshRun(bits, bits', nrBlocks, added) && 0 < nrBlocks && !bits[0]
    requires SameNumbers(es[..i + 1] + added + es[i + 1..], es')
    ensures BitsOk(bits, es, bits', es')
  {
    var all, k := es[..i + 1] + added + es[i + 1..], |added|;
    forall b: nat ensures Absent(b, es') <==> Absent(b, es) && Absent(b, added) { AbsentOpened(es, i, added, es', b); }
  }

  lemma ClaimsNew(added: seq<Word>, bits: seq<bool>, bits': seq<bool>, nrBlocks: nat, run: seq<Word>)
    requires FreshRun(bits, bits', nrBlocks, added) && SameNumbers(added, run) && 0 < nrBlocks && !bits[0]
    ensures BitsOk(bits, [], bits', run)
  {
    forall b: nat ensures Absent(b, run) <==> Absent(b, added) {
      if Absent(b, run) { forall m | 0 <= m < |added| ensures Number(added[m]) != b { assert Number(run[m]) != b; } }
    }
  }

  lemma AbsentOpened(es: seq<Word>, i: nat, added: seq<Word>, es': seq<Word>, b: nat)
    requires i < |es| && SameNumbers(es[..i + 1] + added + es[i + 1..], es')
    ensures Absent(b, es') <==> Absent(b, es) && Absent(b, added)
  {
    var all, k := es[..i + 1] + added + es[i + 1..], |added|;
    forall m | 0 <= m < |es| ensures Number(es[m]) == Number(es'[if m <= i then m else m + k]) {
      assert all[if m <= i then m else m + k] == es[m];
    }
    forall m | 0 <= m < k ensures Number(added[m]) == Number(es'[i + 1 + m]) {
      assert all[i + 1 + m] == added[m];
    }
    forall m | 0 <= m < |es'|
      ensures Number(es'[m]) == Number(if m <= i then es[m] else if m <= i + k then added[m - i - 1] else es[m - k])
    {
    }
  }

  lemma SameNumbersOwned(a: seq<Word>, b: seq<Word>, bits: seq<bool>, nrBlocks: nat)
    requires SameNumbers(a, b) && Owned(a, bits, nrBlocks) && Distinct(a)
    ensures Owned(b, bits, nrBlocks) && Distinct(b)
  {
  }

  /** What the split and the copy loop come to, on the numbers. */
  lemma ResultNumbers(es: seq<Word>, i: nat, jump: nat, added: seq<Word>, run: seq<Word>, es': seq<Word>)
    requires i < |es| && |added| >= 1 && jump <= Size(es[i]) && SameNumbers(run, RunOf(es[i], jump, added))
    requires es' == es[..i] + run + [TailOf(es[i], jump, added)] + es[i + 1..]
    ensures SameNumbers(es[..i + 1] + added + es[i + 1..], es')
  {
    var all, k := es[..i + 1] + added + es[i + 1..], |added|;
    forall m | 0 <= m < |all| ensures Number(all[m]) == Number(es'[m]) {
      if i <= m < i + k {
        assert es'[m] == run[m - i] && Number(run[m - i]) == Number(RunOf(es[i], jump, added)[m - i]);
      }
    }
  }

  lemma TotalSizeOfFour(a: seq<Word>, run: seq<Word>, tail: Word, d: seq<Word>)
    ensures TotalSize(a + run + [tail] + d) == TotalSize(a) + TotalSize(run) + Size(tail) + TotalSize(d)
  {
    TotalSizeConcat(a, run);
    TotalSizeConcat(a + run, [tail]);
    TotalSizeConcat(a + run + [tail], d);
    TotalSizeOne(tail);
  }

  lemma ResultSizes(es: seq<Word>, i: nat, jump: nat, added: seq<Word>, run: seq<Word>, es': seq<Word>)
    requires i < |es| && |added| >= 1 && jump <= Size(es[i])
    requires es' == es[..i] + run + [TailOf(es[i], jump, added)] + es[i + 1..]
    ensures TotalSize(es') + jump == TotalSize(es) + TotalSize(run)
  {
    hide TotalSize;
    TotalSizeOfFour(es[..i], run, TailOf(es[i], jump, added), es[i + 1..]);
    TotalSizeSplit(es, i);
  }

  /** What the split and the copy loop come to. */
  lemma SplitResult(es: seq<Word>, disk0: seq<Block>, bits: seq<bool>, i: nat, jump: nat, o: nat, added: seq<Word>,
                    es2: seq<Word>, disk2: seq<Block>, bits': seq<bool>, run: seq<Word>, es': seq<Word>,
                    disk': seq<Block>, data: seq<byte>, nrBlocks: nat)
    requires Split(es, disk0, i, jump, added, es2, disk2) && Owned(es, bits, |disk0|) && Distinct(es)
    requires FreshRun(bits, bits', |disk0|, added) && o == TotalSize(es[..i]) + jump
    requires Progress(RunOf(es[i], jump, added), disk2, run, disk', Used(es[i], disk0)[..jump], data, |added|, 0,
        nrBlocks)
    requires es' == es[..i] + run + [TailOf(es[i], jump, added)] + es[i + 1..]
    ensures Owned(es', bits', |disk0|) && Distinct(es') && InRange(es', disk')
    ensures !bits[0] ==> BitsOk(bits, es, bits', es')
    ensures Kept(bits, Number(es[i]), disk0, disk')
    ensures TotalSize(es[..i]) + jump <= |Contents(es, disk0)|
    ensures if Fits(nrBlocks, |added|, jump, |data|)
            then Contents(es', disk') == Inserted(Contents(es, disk0), o, data)
            else TotalSize(es') + BLOCK_SIZE == TotalSize(es) + |data|
  {
    hide Contents, TotalSize;
    RunFacts(es, disk0, i, jump, added, es2, disk2, bits, bits', data);
    OpenedOwned(es, i, added, bits, bits', |disk0|);
    ResultNumbers(es, i, jump, added, run, es');
    SameNumbersOwned(es[..i + 1] + added + es[i + 1..], es', bits', |disk0|);
    if !bits[0] { ClaimsRun(es, i, added, bits, bits', |disk0|, es'); }
    ResultSizes(es, i, jump, added, run, es');
    Lengths(es, i, disk0);
    if Fits(nrBlocks, |added|, jump, |data|) {
      SplicedContents(es, disk0, i, jump, run, TailOf(es[i], jump, added), es', disk', o, data);
    }
  }

  lemma RunSlices(es: seq<Word>, disk0: seq<Block>, i: nat, jump: nat, added: seq<Word>, es2: seq<Word>,
                  disk2: seq<Block>, index: seq<Word>)
    requires Split(es, disk0, i, jump, added, es2, disk2) && |es2| <= |index| && es2 == index[..|es2|]
    ensures i + |added| <= |index| && index[i..i + |added|] == RunOf(es[i], jump, added)
  {
    assert es2[i..i + |added|] == RunOf(es[i], jump, added);
  }

  lemma RunBack(es: seq<Word>, disk0: seq<Block>, i: nat, jump: nat, added: seq<Word>, es2: seq<Word>,
                disk2: seq<Block>, was: seq<Word>, now: seq<Word>)
    requires Split(es, disk0, i, jump, added, es2, disk2) && |es2| <= |was| == |now| && es2 == was[..|es2|]
    requires now[..i] == was[..i] && now[i + |added|..] == was[i + |added|..]
    ensures now[..|es2|] == es[..i] + now[i..i + |added|] + [TailOf(es[i], jump, added)] + es[i + 1..]
  {
    assert was[..i] == es2[..i] == es[..i];
    assert now[..|es2|] == now[..i] + now[i..i + |added|] + now[i + |added|..][..|es2| - i - |added|];
    assert now[i + |added|..][..|es2| - i - |added|] == es2[i + |added|..];
    assert es2[i + |added|..] == [TailOf(es[i], jump, added)] + es[i + 1..];
  }

  /** The block has zeros from some byte on, up to the last that the size field can count. */
  predicate Blank(disk: seq<Block>, b: nat, from: nat) {
    b < |disk| && forall m :: from <= m < MAX_BLOCK_SIZE ==> disk[b][m] == 0
  }

  lemma StaysBlank(disk0: seq<Block>, disk: seq<Block>, b: nat, from: nat)
    requires TailKept(disk0, disk, b, from) && Blank(disk0, b, from)
    ensures Blank(disk, b, from)
  {
    forall m | from <= m < MAX_BLOCK_SIZE ensures disk[b][m] == 0 { assert disk[b][m] == disk[b][from..][m - from]; }
  }

  /** The write into a file that has blocks: it is split at the offset. */
  method WriteExisting(index: array<Word>, vol: Volume, nrBlocks: nat, blockJump: nat, k: nat, byteJump: nat,
                       data: seq<byte>, ghost o: nat) returns (overrun: bool)
    requires blockJump < nrBlocks && 1 <= k && nrBlocks + k <= index.Length && data != []
    requires vol.BlocksOk() && vol.nrBlocks <= NUMBERS && k <= vol.nrFreeBlocks
    requires Owned(index[..][..nrBlocks], vol.bfree[..], vol.nrBlocks) && Distinct(index[..][..nrBlocks])
    requires byteJump <= Size(index[blockJump]) && (k - 1) * MAX_BLOCK_SIZE < byteJump + |data|
    requires o == TotalSize(index[..][..blockJump]) + byteJump
    modifies index, vol`disk, vol`nrFreeBlocks, vol.bfree
    ensures vol.BlocksOk() && vol.nrFreeBlocks == old(vol.nrFreeBlocks) - k
    ensures overrun <==> Overruns(nrBlocks, k, byteJump, |data|)
    ensures InRange(old(index[..])[..nrBlocks], old(vol.disk))
    ensures !overrun ==>
              var es, es' := old(index[..])[..nrBlocks], index[..][..nrBlocks + k];
              && Owned(es', vol.bfree[..], vol.nrBlocks) && Distinct(es') && InRange(es', vol.disk)
              && BitsOk(old(vol.bfree[..]), es, vol.bfree[..], es')
              && Kept(old(vol.bfree[..]), Number(es[blockJump]), old(vol.disk), vol.disk)
              && o <= |Contents(es, old(vol.disk))|
              && if Fits(nrBlocks, k, byteJump, |data|)
                 then Contents(es', vol.disk) == Inserted(Contents(es, old(vol.disk)), o, data)
                 else TotalSize(es') + BLOCK_SIZE == TotalSize(es) + |data|
    ensures !overrun && k == 1 ==> Blank(vol.disk, Number(index[blockJump]), byteJump + |data|)
  {
    hide Contents, TotalSize, Split, Progress, FreshRun, Filled, Kept, Distinct, Inserted, TailKept, Blank;
    ghost var es: seq<Word>, disk0, bits := index[..][..nrBlocks], vol.disk, vol.bfree[..];
    assert es[..blockJump] == index[..][..blockJump];
    ghost var added := SplitAt(index, vol, nrBlocks, blockJump, k, byteJump, |data|);
    ghost var index2: seq<Word>, disk2 := index[..], vol.disk;
    ghost var es2: seq<Word> := index2[..nrBlocks + k];
    ghost var head := Used(es[blockJump], disk0)[..byteJump];
    RunFacts(es, disk0, blockJump, byteJump, added, es2, disk2, bits, vol.bfree[..], data);
    RunSlices(es, disk0, blockJump, byteJump, added, es2, disk2, index2);
    overrun := CopyData(index, vol, nrBlocks, blockJump, k, byteJump, data, head);
    if overrun { return; }
    if k == 1 { StaysBlank(disk2, vol.disk, Number(index[blockJump]), byteJump + |data|); }
    RunBack(es, disk0, blockJump, byteJump, added, es2, disk2, index2, index[..]);
    SplitResult(es, disk0, bits, blockJump, byteJump, o, added, es2, disk2, vol.bfree[..],
                index[blockJump..blockJump + k], index[..][..nrBlocks + k], vol.disk, data, nrBlocks);
  }

  lemma NewFacts(bits: seq<bool>, bits': seq<bool>, nrBlocks: nat, added: seq<Word>, disk0: seq<Block>,
                 disk: seq<Block>, data: seq<byte>)
    requires FreshRun(bits, bits', nrBlocks, added) && |added| >= 1 && |disk0| == |disk| == nrBlocks
    requires forall b :: 0 <= b < nrBlocks && b != Number(added[0]) ==> disk[b] == disk0[b]
    ensures Filled(added, disk, [], data, 0, 0) && Owned(added, bits', nrBlocks)
    ensures forall b :: 0 <= b < nrBlocks && !bits[b] ==> Absent(b, added) && disk[b] == disk0[b]
  {
  }

  lemma NewResult(bits: seq<bool>, bits': seq<bool>, added: seq<Word>, disk0: seq<Block>, disk1: seq<Block>,
                  run: seq<Word>, disk: seq<Block>, data: seq<byte>)
    requires FreshRun(bits, bits', |disk0|, added) && |added| >= 1 && |disk0| == |disk1|
    requires forall b :: 0 <= b < |disk0| && b != Number(added[0]) ==> disk1[b] == disk0[b]
    requires Progress(added, disk1, run, disk, [], data, |added|, 0, 0)
    ensures Owned(run, bits', |disk0|) && Distinct(run) && InRange(run, disk)
    ensures 0 < |disk0| && !bits[0] ==> BitsOk(bits, [], bits', run)
    ensures Kept(bits, |disk0|, disk0, disk)
    ensures if Fits(0, |added|, 0, |data|) then Contents(run, disk) == data else TotalSize(run) + BLOCK_SIZE == |data|
  {
    NewFacts(bits, bits', |disk0|, added, disk0, disk1, data);
    SameNumbersOwned(added, run, bits', |disk0|);
    if 0 < |disk0| && !bits[0] { ClaimsNew(added, bits, bits', |disk0|, run); }
    assert [] + data == data;
  }

  /** The write into a file without blocks. */
  method WriteNew(index: array<Word>, vol: Volume, k: nat, data: seq<byte>) returns (overrun: bool)
    requires 1 <= k <= index.Length && data != [] && (k - 1) * MAX_BLOCK_SIZE < |data|
    requires vol.BlocksOk() && vol.nrBlocks <= NUMBERS && k <= vol.nrFreeBlocks
    modifies index, vol`disk, vol`nrFreeBlocks, vol.bfree
    ensures vol.BlocksOk() && vol.nrFreeBlocks == old(vol.nrFreeBlocks) - k
    ensures overrun <==> Overruns(0, k, 0, |data|)
    ensures !overrun ==>
              && Owned(index[..][..k], vol.bfree[..], vol.nrBlocks) && Distinct(index[..][..k])
              && InRange(index[..][..k], vol.disk) && BitsOk(old(vol.bfree[..]), [], vol.bfree[..], index[..][..k])
              && Kept(old(vol.bfree[..]), |old(vol.disk)|, old(vol.disk), vol.disk)
              && if Fits(0, k, 0, |data|) then Contents(index[..][..k], vol.disk) == data
                 else TotalSize(index[..][..k]) + BLOCK_SIZE == |data|
    ensures !overrun && k == 1 ==> Blank(vol.disk, Number(index[0]), |data|)
  {
    hide Contents, TotalSize, Progress, FreshRun, Filled, Kept, Distinct, Owned, TailKept, Blank;
    ghost var disk0, bits := vol.disk, vol.bfree[..];
    ghost var added := AllocateRun(index, vol, 0, k);
    assert index[0..k] == added == index[..][..k];
    NewNumber(bits, vol.bfree[..], vol.nrBlocks, added);
    var b := Number(index[0]);
    vol.disk := vol.disk[b := Padded(vol.disk[b], |data|)];
    ghost var disk1 := vol.disk;
    NewFacts(bits, vol.bfree[..], vol.nrBlocks, added, disk0, disk1, data);
    overrun := CopyData(index, vol, 0, 0, k, 0, data, []);
    if overrun { return; }
    if k == 1 { StaysBlank(disk1, vol.disk, b, |data|); }
    assert index[0..k] == index[..][..k];
    NewResult(bits, vol.bfree[..], added, disk0, disk1, index[..][..k], vol.disk, data);
  }

  /** The block of a one-block write to a file without blocks, for whatever byte_jump, which nobody has set, holds. */
  function FirstStored(block: Block, byteJump: nat, data: seq<byte>): Block
    requires byteJump + |data| <= MAX_BLOCK_SIZE
  {
    CopyIn(Padded(block, byteJump + |data|), byteJump, data)
  }

  /** The file, its first |data| bytes, is the data on every disk if and only if byte_jump happens to be 0. */
  lemma UnsetByteJump(byteJump: nat, data: seq<byte>)
    requires data != [] && byteJump + |data| <= MAX_BLOCK_SIZE
    ensures (forall block: Block :: FirstStored(block, byteJump, data)[..|data|] == data) <==> byteJump == 0
  {
    if byteJump > 0 {
      var other: byte := if data[0] == 0 then 1 else 0;
      var block: Block := seq(BLOCK_SIZE, _ => other);
      assert FirstStored(block, byteJump, data)[..|data|][0] == other;
    }
  }

  lemma NewNumber(bits: seq<bool>, bits': seq<bool>, nrBlocks: nat, added: seq<Word>)
    requires FreshRun(bits, bits', nrBlocks, added) && |added| >= 1
    ensures Number(added[0]) < nrBlocks
  {
  }

  /** How far into its block the offset falls; an offset on a boundary belongs to the earlier block. */
  function JumpFor(es: seq<Word>, offset: nat): nat {
    if es == [] then 0
    else if offset <= Size(es[0]) || |es| == 1 then offset
    else JumpFor(es[1..], offset - Size(es[0]))
  }

  lemma {:induction false} PlaceIsJumpFor(es: seq<Word>, offset: nat, i: nat, jump: nat)
    requires IsPlace(es, offset, i, jump)
    ensures jump == JumpFor(es, offset)
  {
    if es != [] && i > 0 {
      TotalSizeSplit(es[..i], 0);
      assert es[..i][1..] == es[1..][..i - 1];
      assert es[..i][..0] == [];
      PlaceIsJumpFor(es[1..], offset - Size(es[0]), i - 1, jump);
    } else if es != [] {
      assert es[..0] == [];
    }
  }

  lemma CleanIsFits(nrBlocks: nat, jump: nat, len: nat)
    requires len > 0 && nrBlocks <= MAX_BLOCKS_PER_FILE && Clipped(nrBlocks, Needed(jump, len)) > 0
    ensures var k := Clipped(nrBlocks, Needed(jump, len));
            && (k - 1) * MAX_BLOCK_SIZE < jump + len
            && (Fits(nrBlocks, k, jump, len) <==> Clean(nrBlocks, Needed(jump, len)))
  {
  }

  lemma InsertedSize(es: seq<Word>, disk: seq<Block>, es': seq<Word>, disk': seq<Block>, o: nat, data: seq<byte>)
    requires InRange(es, disk) && InRange(es', disk') && o <= |Contents(es, disk)|
    requires Contents(es', disk') == Inserted(Contents(es, disk), o, data)
    ensures TotalSize(es') == TotalSize(es) + |data|
  {
  }

  lemma NewContents(disk: seq<Block>, es': seq<Word>, disk': seq<Block>, data: seq<byte>)
    requires InRange(es', disk') && Contents(es', disk') == data
    ensures InRange([], disk) && |Contents([], disk)| == 0 && TotalSize([]) == 0
    ensures Contents(es', disk') == Inserted(Contents([], disk), 0, data)
  {
  }

  /** Lines 555 to 779: shift, allocate, split unless the file is new, and copy. */
  method Store(index: array<Word>, vol: Volume, nrBlocks: nat, blockJump: nat, k: nat, byteJump: nat, data: seq<byte>,
               offset: nat)
    returns (overrun: bool)
    requires vol.BlocksOk() && vol.nrBlocks <= NUMBERS && 1 <= k <= vol.nrFreeBlocks
    requires nrBlocks + k <= index.Length && data != [] && (k - 1) * MAX_BLOCK_SIZE < byteJump + |data|
    requires Owned(index[..][..nrBlocks], vol.bfree[..], vol.nrBlocks) && Distinct(index[..][..nrBlocks])
    requires IsPlace(index[..][..nrBlocks], offset, blockJump, byteJump) && (nrBlocks == 0 ==> offset == 0)
    modifies index, vol`disk, vol`nrFreeBlocks, vol.bfree
    ensures vol.BlocksOk() && vol.nrFreeBlocks == old(vol.nrFreeBlocks) - k
    ensures overrun <==> Overruns(nrBlocks, k, byteJump, |data|)
    ensures InRange(old(index[..])[..nrBlocks], old(vol.disk))
    ensures !overrun ==>
              var es, es' := old(index[..])[..nrBlocks], index[..][..nrBlocks + k];
              && Owned(es', vol.bfree[..], vol.nrBlocks) && Distinct(es') && InRange(es', vol.disk)
              && OthersKept(old(vol.bfree[..]), es, old(vol.disk), vol.disk)
              && BitsOk(old(vol.bfree[..]), es, vol.bfree[..], es')
              && offset <= |Contents(es, old(vol.disk))|
              && if Fits(nrBlocks, k, byteJump, |data|)
                 then Contents(es', vol.disk) == Inserted(Contents(es, old(vol.disk)), offset, data)
                      && TotalSize(es') == TotalSize(es) + |data|
                 else TotalSize(es') + BLOCK_SIZE == TotalSize(es) + |data|
    ensures !overrun && k == 1 ==> Blank(vol.disk, Number(index[blockJump]), byteJump + |data|)
  {
    hide Contents, TotalSize, Inserted, Distinct, Fits, Blank;
    ghost var es: seq<Word>, disk := index[..][..nrBlocks], vol.disk;
    if nrBlocks > 0 {
      assert index[..][..blockJump] == es[..blockJump];
      overrun := WriteExisting(index, vol, nrBlocks, blockJump, k, byteJump, data, offset);
    } else {
      overrun := WriteNew(index, vol, k, data);
      if !overrun && Fits(nrBlocks, k, byteJump, |data|) { NewContents(disk, index[..][..k], vol.disk, data); }
      EmptyFile(disk);
    }
    if !overrun && Fits(nrBlocks, k, byteJump, |data|) {
      InsertedSize(es, disk, index[..][..nrBlocks + k], vol.disk, offset, data);
    }
  }

  /** What the checks of lines 411 to 568 decide. */
  function Answer(len: nat, offset: nat, nrBlocks: nat, needed: nat, nrFree: int): WriteResult {
    if len == 0 then Wrote(0)
    else if offset > MAX_OFFSET then Espipe
    else if offset + len > MAX_OFFSET then Enospc
    else if Clipped(nrBlocks, needed) == 0 then Efbig
    else if Clipped(nrBlocks, needed) > nrFree then Enospc
    else Wrote(len)
  }

  /** Blocks go from the free to the file and nowhere else, and no other block that was handed out has changed. */
  twostate predicate OthersLeft(inode: Inode, index: array<Word>, vol: Volume)
    requires old(FileOk(inode, index, vol)) && 1 <= inode.blocks <= index.Length + 1
    reads inode, index, vol, vol.bfree
  {
    && vol.BlocksOk() && BitsOk(old(vol.bfree[..]), old(Entries(inode, index)), vol.bfree[..], Entries(inode, index))
    && OthersKept(old(vol.bfree[..]), old(Entries(inode, index)), old(vol.disk), vol.disk)
  }

  /** The data are inserted, the file is a file again, and nobody else's bytes moved. */
  twostate predicate InsertedInto(inode: Inode, index: array<Word>, vol: Volume, data: seq<byte>, offset: nat)
    requires old(FileOk(inode, index, vol)) && offset <= old(inode.size)
    reads inode, index, vol, vol.bfree
  {
    && FileOk(inode, index, vol)
    && inode.size == old(inode.size) + |data|
    && Bytes(inode, index, vol) == Inserted(old(Bytes(inode, index, vol)), offset, data)
    && OthersLeft(inode, index, vol)
  }

  /** i_size and the used sizes disagree by one block. */
  ghost predicate ShortByOneBlock(inode: Inode, index: array<Word>)
    reads inode, index
  {
    1 <= inode.blocks <= index.Length + 1 && TotalSize(Entries(inode, index)) + BLOCK_SIZE == inode.size
  }

  /** Lines 555 to 804, once the checks have passed. */
  method Accept(inode: Inode, index: array<Word>, vol: Volume, blockJump: nat, k: nat, byteJump: nat,
                data: seq<byte>, offset: nat) returns (overrun: bool)
    requires FileOk(inode, index, vol) && offset <= inode.size && data != []
    requires IsPlace(Entries(inode, index), offset, blockJump, byteJump)
    requires 1 <= k <= vol.nrFreeBlocks && inode.blocks - 1 + k <= MAX_BLOCKS_PER_FILE
    requires (k - 1) * MAX_BLOCK_SIZE < byteJump + |data|
    modifies inode, index, vol`disk, vol`nrFreeBlocks, vol.bfree
    ensures overrun <==> Overruns(old(inode.blocks) - 1, k, byteJump, |data|)
    ensures var fits := Fits(old(inode.blocks) - 1, k, byteJump, |data|);
            && (overrun ==> !fits)
            && (!overrun && fits ==> InsertedInto(inode, index, vol, data, offset))
            && (!overrun && !fits ==> ShortByOneBlock(inode, index) && OthersLeft(inode, index, vol))
            && (!overrun ==> inode.blocks == old(inode.blocks) + k && vol.nrFreeBlocks == old(vol.nrFreeBlocks) - k)
    ensures !overrun && k == 1 ==> Blank(vol.disk, Number(index[blockJump]), byteJump + |data|)
  {
    hide Contents, TotalSize, Inserted, Distinct, Fits, OthersKept, CountFree, Overruns, Blank;
    ghost var es: seq<Word> := Entries(inode, index);
    if Overruns(inode.blocks - 1, k, byteJump, |data|) { OverrunsMisfit(inode.blocks - 1, k, byteJump, |data|); }
    var nrBlocks := inode.blocks - 1;
    assert index[..][..nrBlocks] == es;
    overrun := Store(index, vol, nrBlocks, blockJump, k, byteJump, data, offset);
    if overrun { return; }
    inode.blocks := inode.blocks + k;
    inode.size := inode.size + |data|;
    assert index[..][..nrBlocks + k] == Entries(inode, index);
  }

  /** A write of data at offset that the checks let through inserts the data precisely when it is Clean;
      otherwise it runs over a buffer, or leaves used sizes that fall 4096 short of i_size. */
  method OuichefsWrite(inode: Inode, index: array<Word>, vol: Volume, data: seq<byte>, offset: nat)
    returns (r: WriteResult)
    requires FileOk(inode, index, vol) && offset <= inode.size
    modifies inode, index, vol`disk, vol`nrFreeBlocks, vol.bfree
    ensures var needed := Needed(JumpFor(old(Entries(inode, index)), offset), |data|);
            var nrBlocks := old(inode.blocks) - 1;
            var answer := Answer(|data|, offset, nrBlocks, needed, old(vol.nrFreeBlocks));
            if data == [] || answer != Wrote(|data|) then
              && r == answer && unchanged(inode, index, vol, vol.bfree)
            else if Clean(nrBlocks, needed) then
              && r == answer && InsertedInto(inode, index, vol, data, offset)
              && inode.blocks == old(inode.blocks) + needed && vol.nrFreeBlocks == old(vol.nrFreeBlocks) - needed
            else if
              Overruns(nrBlocks, Clipped(nrBlocks, needed), JumpFor(old(Entries(inode, index)), offset), |data|)
            then
              r == Overrun
            else
              r == answer && ShortByOneBlock(inode, index) && OthersLeft(inode, index, vol)
    ensures data == [] ==> r == Wrote(0)
    ensures r == WriteResult.Espipe <==> data != [] && offset > MAX_OFFSET
    ensures r == Efbig <==>
              data != [] && offset + |data| <= MAX_OFFSET && old(inode.blocks) - 1 == MAX_BLOCKS_PER_FILE
    ensures r == Enospc <==>
      && data != [] && offset <= MAX_OFFSET
      && (offset + |data| > MAX_OFFSET
          || (old(inode.blocks) - 1 < MAX_BLOCKS_PER_FILE
              && (JumpFor(old(Entries(inode, index)), offset) + |data| + 4094) / 4095 > old(vol.nrFreeBlocks)
              && MAX_BLOCKS_PER_FILE - (old(inode.blocks) - 1) > old(vol.nrFreeBlocks)))
  {
    hide FileOk, ShortByOneBlock, Fits, Overruns, Needed, JumpFor, TotalSize, Contents, Inserted, OthersKept;
    if data == [] { return Wrote(0); }
    if offset > MAX_OFFSET { return Espipe; }
    if offset + |data| > MAX_OFFSET { return Enospc; }
    FileFacts(inode, index, vol);
    NeededIs(JumpFor(Entries(inode, index), offset), |data|);
    var nrBlocks := inode.blocks - 1;
    var blockJump, byteJump := FindPlace(index, nrBlocks, offset);
    PlaceIsJumpFor(Entries(inode, index), offset, blockJump, byteJump);
    var k := Needed(byteJump, |data|);
    if nrBlocks + k > MAX_BLOCKS_PER_FILE { k := MAX_BLOCKS_PER_FILE - nrBlocks; }
    if k == 0 { return Efbig; }
    if k > vol.nrFreeBlocks { return Enospc; }
    CleanIsFits(nrBlocks, byteJump, |data|);
    var overrun := Accept(inode, index, vol, blockJump, k, byteJump, data, offset);
    return if overrun then Overrun else Wrote(|data|);
  }

  /** The blocks needed are as few as hold the bytes before the offset in its block, and the data. */
  lemma NeededIs(jump: nat, len: nat)
    ensures Needed(jump, len) == (jump + len + 4094) / 4095
    ensures len > 0 ==> Needed(jump, len) > 0
  {
  }

  lemma FileFacts(inode: Inode, index: array<Word>, vol: Volume)
    requires FileOk(inode, index, vol)
    ensures 1 <= inode.blocks <= MAX_BLOCKS_PER_FILE + 1 && index.Length == MAX_BLOCKS_PER_FILE
    ensures TotalSize(index[..inode.blocks - 1]) == inode.size && Entries(inode, index) == index[..inode.blocks - 1]
  {
  }
}
