/** The copy loop of ouichefs_write over the blocks it fills. */
module WriteData {
  import opened PackedEntry
  import opened Volumes
  import opened FileContents

  /** The buffer with count bytes of data copied in at jump. */
  function CopyIn(block: Block, jump: nat, data: seq<byte>): (r: Block)
    requires jump + |data| <= BLOCK_SIZE
    ensures r[..jump + |data|] == block[..jump] + data && r[jump + |data|..] == block[jump + |data|..]
  {
    block[..jump] + data + block[jump + |data|..]
  }

  lemma {:induction false} NoSizes(es: seq<Word>)
    requires forall m :: 0 <= m < |es| ==> Size(es[m]) == 0
    ensures TotalSize(es) == 0
  {
    if es != [] { NoSizes(es[1..]); }
  }

  /** Rewriting one block, and the size of its entry, adds that block's used prefix to those before it. */
  lemma FillStep(es: seq<Word>, disk: seq<Block>, i: nat, size: nat, block: Block)
    requires i < |es| && InRange(es, disk) && Distinct(es)
    ensures var es', disk' := es[i := WithSize(es[i], size)], disk[Number(es[i]) := block];
            && InRange(es', disk') && Distinct(es')
            && Contents(es'[..i + 1], disk') == Contents(es[..i], disk) + block[..size % SIZES]
            && TotalSize(es'[..i + 1]) == TotalSize(es[..i]) + size % SIZES
  {
    var es', disk' := es[i := WithSize(es[i], size)], disk[Number(es[i]) := block];
    ContentsExtend(es', i, disk');
    assert es'[..i] == es[..i];
    ContentsFrame(es[..i], disk, disk');
  }

  /** The state of the copy loop before block i of the run: w bytes of data are in place. */
  ghost predicate Filled(es: seq<Word>, disk: seq<Block>, head: seq<byte>, data: seq<byte>, i: nat, w: nat) {
    && InRange(es, disk) && Distinct(es) && i <= |es| && w <= |data|
    && (if i == 0 then w == 0 else Contents(es[..i], disk) == head + data[..w])
    && (i < |es| ==> Size(es[i]) == JumpAt(head, i) && Headed(disk[Number(es[i])], head, i))
    && (forall m :: i <= m < |es| && m > 0 ==> Size(es[m]) == 0)
  }

  /** Block 0 of the run keeps head in front of the data. */
  predicate Headed(block: Block, head: seq<byte>, i: nat) {
    JumpAt(head, i) <= MAX_BLOCK_SIZE && (i == 0 ==> block[..|head|] == head)
  }

  function JumpAt(head: seq<byte>, i: nat): nat { if i == 0 then |head| else 0 }

  lemma DataStep(block: Block, head: seq<byte>, data: seq<byte>, i: nat, w: nat, n: nat)
    requires Headed(block, head, i) && w + n <= |data| && JumpAt(head, i) + n <= MAX_BLOCK_SIZE && (i == 0 ==> w == 0)
    ensures var jump := JumpAt(head, i);
            (if i == 0 then [] else head + data[..w]) + CopyIn(block, jump, data[w..w + n])[..jump + n] ==
                head + data[..w + n]
  {
    assert data[..w] + data[w..w + n] == data[..w + n];
    if i > 0 {
      var copied := CopyIn(block, 0, data[w..w + n]);
      assert copied[..n] == data[w..w + n] by { assert block[..0] == []; }
      Associates(head, data[..w], data[w..w + n]);
    }
  }

  lemma Associates(a: seq<byte>, b: seq<byte>, c: seq<byte>)
    ensures (a + b) + c == a + (b + c)
  {
  }

  lemma FilledStep(es: seq<Word>, disk: seq<Block>, head: seq<byte>, data: seq<byte>, i: nat, w: nat, n: nat)
    requires Filled(es, disk, head, data, i, w) && i < |es| && w + n <= |data| && JumpAt(head, i) + n <= MAX_BLOCK_SIZE
    ensures var jump := JumpAt(head, i);
            Filled(es[i := WithSize(es[i], jump + n)],
                   disk[Number(es[i]) := CopyIn(disk[Number(es[i])], jump, data[w..w + n])], head, data, i + 1, w + n)
  {
    hide Contents, TotalSize;
    if i == 0 { assert es[..i] == []; EmptyFile(disk); }
    var jump := JumpAt(head, i);
    var block := CopyIn(disk[Number(es[i])], jump, data[w..w + n]);
    FillStep(es, disk, i, jump + n, block);
    DataStep(disk[Number(es[i])], head, data, i, w, n);
  }

  predicate SameNumbers(a: seq<Word>, b: seq<Word>) {
    |a| == |b| && forall m :: 0 <= m < |a| ==> Number(a[m]) == Number(b[m])
  }

  /** copy_from_user of chunk at jump into the block of entry i, and its new size. */
  method FillEntry(index: array<Word>, vol: Volume, i: nat, jump: nat, chunk: seq<byte>, size: nat)
    requires i < index.Length && Number(index[i]) < |vol.disk| && jump + |chunk| <= BLOCK_SIZE
    modifies index, vol`disk
    ensures index[..] == old(index[..])[i := WithSize(old(index[i]), size)]
    ensures vol.disk == old(vol.disk)[Number(old(index[i])) := CopyIn(old(vol.disk[Number(index[i])]), jump, chunk)]
  {
    vol.disk := vol.disk[Number(index[i]) := CopyIn(vol.disk[Number(index[i])], jump, chunk)];
    SetBlockSize(index, i, size);
  }

  /** The data fit the k blocks of the run, and the one-block test does not cut the loop short. */
  predicate Fits(nrBlocks: nat, k: nat, byteJump: nat, len: nat) {
    byteJump + len <= k * MAX_BLOCK_SIZE && !(nrBlocks == 1 && k >= 2)
  }

  /** How far into its block the copy loop gets in its last turn. */
  function LastFill(nrBlocks: nat, k: int, byteJump: nat, len: nat): int {
    byteJump + len - if nrBlocks == 1 then 0 else (k - 1) * MAX_BLOCK_SIZE
  }

  /** The last turn runs past the 4096 bytes of its block. */
  predicate Overruns(nrBlocks: nat, k: int, byteJump: nat, len: nat) {
    LastFill(nrBlocks, k, byteJump, len) > BLOCK_SIZE
  }

  lemma OverrunsMisfit(nrBlocks: nat, k: nat, byteJump: nat, len: nat)
    requires k >= 1 && Overruns(nrBlocks, k, byteJump, len)
    ensures !Fits(nrBlocks, k, byteJump, len)
  {
  }

  /** All data are in place, or one block got 4096 bytes, which its 12-bit size field cannot say. */
  ghost predicate Outcome(run: seq<Word>, disk: seq<Block>, head: seq<byte>, data: seq<byte>, nrBlocks: nat) {
    && InRange(run, disk) && !Overruns(nrBlocks, |run|, |head|, |data|)
    && if Fits(nrBlocks, |run|, |head|, |data|) then Contents(run, disk) == head + data
       else TotalSize(run) + BLOCK_SIZE == |head| + |data|
  }

  /** The copy loop at block r of the run, with left bytes to go. */
  ghost predicate Progress(run0: seq<Word>, disk0: seq<Block>, run: seq<Word>, disk: seq<Block>,
                           head: seq<byte>, data: seq<byte>, r: nat, left: nat, nrBlocks: nat) {
    && SameNumbers(run, run0) && |disk| == |disk0| && left <= |data|
    && (forall b :: 0 <= b < |disk| && Absent(b, run0) ==> disk[b] == disk0[b])
    && if left == 0 then Outcome(run, disk, head, data, nrBlocks)
       else && r < |run| && Filled(run, disk, head, data, r, |data| - left)
            && (r > 0 ==> |data| - left + |head| == r * MAX_BLOCK_SIZE && nrBlocks != 1)
  }

  /** Rewriting the block of entry r and its size touches nothing outside the run. */
  lemma FrameStep(run0: seq<Word>, disk0: seq<Block>, run: seq<Word>, disk: seq<Block>, r: nat, size: nat, block: Block)
    requires SameNumbers(run, run0) && |disk| == |disk0| && r < |run| && Number(run[r]) < |disk|
    requires forall b :: 0 <= b < |disk| && Absent(b, run0) ==> disk[b] == disk0[b]
    ensures SameNumbers(run[r := WithSize(run[r], size)], run0)
    ensures forall b :: 0 <= b < |disk| && Absent(b, run0) ==> disk[Number(run[r]) := block][b] == disk0[b]
  {
    assert Number(run0[r]) == Number(run[r]);
  }

  lemma MiddleStep(run0: seq<Word>, disk0: seq<Block>, run: seq<Word>, disk: seq<Block>,
                   head: seq<byte>, data: seq<byte>, r: nat, left: nat, nrBlocks: nat)
    requires Progress(run0, disk0, run, disk, head, data, r, left, nrBlocks) && left > 0
    requires r < |run| - 1 && nrBlocks != 1 && (|run| - 1) * MAX_BLOCK_SIZE < |head| + |data|
    ensures var jump := JumpAt(head, r); var w := |data| - left; var n := MAX_BLOCK_SIZE - jump;
            && n < left && jump == Size(run[r]) && Number(run[r]) < |disk|
            && Progress(run0, disk0, run[r := WithSize(run[r], MAX_BLOCK_SIZE)],
                        disk[Number(run[r]) := CopyIn(disk[Number(run[r])], jump, data[w..w + n])],
                        head, data, r + 1, left - n, nrBlocks)
  {
    hide Contents, TotalSize;
    var jump, w := JumpAt(head, r), |data| - left;
    var n := MAX_BLOCK_SIZE - jump;
    FilledStep(run, disk, head, data, r, w, n);
    FrameStep(run0, disk0, run, disk, r, MAX_BLOCK_SIZE, CopyIn(disk[Number(run[r])], jump, data[w..w + n]));
  }

  lemma LastFits(run: seq<Word>, disk: seq<Block>, head: seq<byte>, data: seq<byte>, r: nat, w: nat, n: nat)
    requires Filled(run, disk, head, data, r, w) && r == |run| - 1 && w + n == |data|
    requires JumpAt(head, r) + n <= MAX_BLOCK_SIZE
    ensures var jump := JumpAt(head, r);
            var run', disk' := run[r := WithSize(run[r], jump + n)],
                               disk[Number(run[r]) := CopyIn(disk[Number(run[r])], jump, data[w..w + n])];
            InRange(run', disk') && Contents(run', disk') == head + data
  {
    hide Contents, TotalSize;
    FilledStep(run, disk, head, data, r, w, n);
    var run' := run[r := WithSize(run[r], JumpAt(head, r) + n)];
    assert run'[..r + 1] == run' && data[..|data|] == data;
  }

  lemma LastSpills(run: seq<Word>, disk: seq<Block>, head: seq<byte>, data: seq<byte>, r: nat, w: nat, block: Block)
    requires Filled(run, disk, head, data, r, w) && r < |run| && JumpAt(head, r) + |data| - w == BLOCK_SIZE
    ensures var run', disk' := run[r := WithSize(run[r], BLOCK_SIZE)], disk[Number(run[r]) := block];
            InRange(run', disk') && TotalSize(run') + BLOCK_SIZE == |head| + |data|
  {
    FillStep(run, disk, r, BLOCK_SIZE, block);
    var run': seq<Word> := run[r := WithSize(run[r], BLOCK_SIZE)];
    var tail := run'[r + 1..];
    assert run' == run'[..r + 1] + tail;
    TotalSizeConcat(run'[..r + 1], tail);
    forall m | 0 <= m < |tail| ensures Size(tail[m]) == 0 { assert tail[m] == run'[r + 1 + m] == run[r + 1 + m]; }
    NoSizes(tail);
    assert r == 0 ==> run[..r] == [];
    assert TotalSize(run[..r]) == |Contents(run[..r], disk)|;
  }

  /** On the last block there is room for what is left exactly when the data fit. */
  lemma LastRoom(k: nat, head: nat, len: nat, r: nat, left: nat, nrBlocks: nat)
    requires 0 < left <= len && r < k && (r == k - 1 || nrBlocks == 1) && (k - 1) * MAX_BLOCK_SIZE < head + len
    requires if r == 0 then left == len else len - left + head == r * MAX_BLOCK_SIZE && nrBlocks != 1
    ensures Fits(nrBlocks, k, head, len) <==> (if r == 0 then head else 0) + left <= MAX_BLOCK_SIZE
    ensures Fits(nrBlocks, k, head, len) ==> r == k - 1
    ensures (if r == 0 then head else 0) + left == LastFill(nrBlocks, k, head, len)
  {
  }

  /** The last block takes everything that is left. */
  lemma LastStep(run0: seq<Word>, disk0: seq<Block>, run: seq<Word>, disk: seq<Block>,
                 head: seq<byte>, data: seq<byte>, r: nat, w: nat, left: nat, nrBlocks: nat)
    requires Progress(run0, disk0, run, disk, head, data, r, left, nrBlocks) && left > 0 && w + left == |data|
    requires r == |run| - 1 || nrBlocks == 1
    requires (|run| - 1) * MAX_BLOCK_SIZE < |head| + |data| && JumpAt(head, r) + left <= BLOCK_SIZE
    ensures Progress(run0, disk0, run[r := WithSize(run[r], JumpAt(head, r) + left)],
                     disk[Number(run[r]) := CopyIn(disk[Number(run[r])], JumpAt(head, r), data[w..w + left])],
                     head, data, r + 1, 0, nrBlocks)
  {
    hide Contents, TotalSize;
    var block := CopyIn(disk[Number(run[r])], JumpAt(head, r), data[w..w + left]);
    FrameStep(run0, disk0, run, disk, r, JumpAt(head, r) + left, block);
    LastRoom(|run|, |head|, |data|, r, left, nrBlocks);
    if Fits(nrBlocks, |run|, |head|, |data|) {
      LastFits(run, disk, head, data, r, w, left);
    } else {
      LastSpills(run, disk, head, data, r, w, block);
    }
  }

  /** How many bytes go into block r: all that are left into the last one, else up to 4095 in all. */
  function Chunk(nrBlocks: nat, k: nat, r: nat, jump: nat, left: nat): nat {
    if r == k - 1 || nrBlocks == 1 || jump > MAX_BLOCK_SIZE then left else MAX_BLOCK_SIZE - jump
  }

  lemma TurnStep(run0: seq<Word>, disk0: seq<Block>, run: seq<Word>, disk: seq<Block>,
                 head: seq<byte>, data: seq<byte>, r: nat, left: nat, nrBlocks: nat)
    requires Progress(run0, disk0, run, disk, head, data, r, left, nrBlocks) && left > 0
    requires (|run| - 1) * MAX_BLOCK_SIZE < |head| + |data|
    ensures var jump := JumpAt(head, r); var n := Chunk(nrBlocks, |run|, r, jump, left); var w := |data| - left;
            && Number(run[r]) < |disk| && Size(run[r]) == jump <= MAX_BLOCK_SIZE && n <= left
            && (jump + n > BLOCK_SIZE ==> Overruns(nrBlocks, |run|, |head|, |data|))
            && (jump + n <= BLOCK_SIZE ==>
                  Progress(run0, disk0, run[r := WithSize(run[r], jump + n)],
                           disk[Number(run[r]) := CopyIn(disk[Number(run[r])], jump, data[w..w + n])],
                           head, data, r + 1, left - n, nrBlocks))
  {
    hide Contents, TotalSize, Distinct, CopyIn, Fits, Outcome, SameNumbers;
    var jump := JumpAt(head, r);
    if r == |run| - 1 || nrBlocks == 1 {
      LastRoom(|run|, |head|, |data|, r, left, nrBlocks);
      if jump + left <= BLOCK_SIZE { LastStep(run0, disk0, run, disk, head, data, r, |data| - left, left, nrBlocks); }
    } else {
      MiddleStep(run0, disk0, run, disk, head, data, r, left, nrBlocks);
    }
  }

  /** The block keeps what it has from some byte on. */
  predicate TailKept(disk0: seq<Block>, disk: seq<Block>, b: nat, from: nat) {
    b < |disk| == |disk0| && from <= BLOCK_SIZE && disk[b][from..] == disk0[b][from..]
  }

  lemma UpdateInside(a: seq<Word>, i: nat, w: Word, lo: nat, hi: nat)
    requires lo <= i < hi <= |a|
    ensures var a' := a[i := w]; a'[lo..hi] == a[lo..hi][i - lo := w] && a'[..lo] == a[..lo] && a'[hi..] == a[hi..]
  {
  }

  /** One turn of the loop, on block i: n bytes go in. */
  method CopyBlock(index: array<Word>, vol: Volume, nrBlocks: nat, blockJump: nat, k: nat, i: nat, jump: nat, left: nat,
                   data: seq<byte>, ghost head: seq<byte>, ghost run0: seq<Word>, ghost disk0: seq<Block>)
    returns (n: nat, overrun: bool)
    requires blockJump <= i < blockJump + k <= index.Length && 0 < left <= |data| && jump == JumpAt(head, i - blockJump)
    requires Progress(run0, disk0, index[blockJump..blockJump + k], vol.disk, head, data, i - blockJump, left, nrBlocks)
    requires (k - 1) * MAX_BLOCK_SIZE < |head| + |data|
    modifies index, vol`disk
    ensures index[..blockJump] == old(index[..blockJump]) && index[blockJump + k..] == old(index[blockJump + k..])
    ensures n <= left && |vol.disk| == old(|vol.disk|)
    ensures overrun ==> Overruns(nrBlocks, k, |head|, |data|)
    ensures !overrun ==> Progress(run0, disk0, index[blockJump..blockJump + k], vol.disk, head, data,
                                  i - blockJump + 1, left - n, nrBlocks)
    ensures !overrun && k == 1 ==>
              n == left && TailKept(old(vol.disk), vol.disk, Number(old(index[i])), jump + n)
  {
    hide Progress, Fits, CopyIn;
    var w := |data| - left;
    TurnStep(run0, disk0, index[blockJump..blockJump + k], vol.disk, head, data, i - blockJump, left, nrBlocks);
    var size;
    if i == blockJump + k - 1 || nrBlocks == 1 {
      n, size := left, Size(index[i]) + left;
    } else {
      n, size := MAX_BLOCK_SIZE - jump, MAX_BLOCK_SIZE;
    }
    if jump + n > BLOCK_SIZE { return n, true; }
    UpdateInside(index[..], i, WithSize(index[i], size), blockJump, blockJump + k);
    FillEntry(index, vol, i, jump, data[w..w + n], size);
    return n, false;
  }

  /** The loop of lines 707 to 779 over the k blocks from blockJump on. */
  method CopyData(index: array<Word>, vol: Volume, nrBlocks: nat, blockJump: nat, k: nat, byteJump: nat,
                  data: seq<byte>, ghost head: seq<byte>) returns (overrun: bool)
    requires k >= 1 && blockJump + k <= index.Length && data != [] && |head| == byteJump
    requires Filled(index[blockJump..blockJump + k], vol.disk, head, data, 0, 0)
    requires (k - 1) * MAX_BLOCK_SIZE < byteJump + |data|
    modifies index, vol`disk
    ensures index[..blockJump] == old(index[..blockJump]) && index[blockJump + k..] == old(index[blockJump + k..])
    ensures |vol.disk| == old(|vol.disk|)
    ensures overrun <==> Overruns(nrBlocks, k, byteJump, |data|)
    ensures !overrun ==> Progress(old(index[blockJump..blockJump + k]), old(vol.disk),
                                  index[blockJump..blockJump + k], vol.disk, head, data, k, 0, nrBlocks)
    ensures !overrun && k == 1 ==>
              && Number(index[blockJump]) == Number(old(index[blockJump]))
              && TailKept(old(vol.disk), vol.disk, Number(index[blockJump]), byteJump + |data|)
  {
    hide Contents, TotalSize, InRange, Distinct;
    ghost var run0, disk0 := index[blockJump..blockJump + k], vol.disk;
    var i: nat, left: nat, jump: nat := blockJump, |data|, byteJump;
    overrun := false;
    while left > 0 && i < blockJump + k
      invariant blockJump <= i <= blockJump + k && |vol.disk| == |disk0|
      invariant index[..blockJump] == old(index[..blockJump]) && index[blockJump + k..] == old(index[blockJump + k..])
      invariant Progress(run0, disk0, index[blockJump..blockJump + k], vol.disk, head, data, i - blockJump, left,
          nrBlocks)
      invariant jump == JumpAt(head, i - blockJump)
      invariant k == 1 ==> if i == blockJump then left == |data| && vol.disk == disk0 && index[i] == old(index[i])
                           else left == 0 && TailKept(disk0, vol.disk, Number(old(index[blockJump])), byteJump + |data|)
    {
      var n, bad := CopyBlock(index, vol, nrBlocks, blockJump, k, i, jump, left, data, head, run0, disk0);
      if bad { return true; }
      left := left - n;
      if i == blockJump { jump := 0; }
      i := i + 1;
    }
  }
}
