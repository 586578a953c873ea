/** Runs of the allocator from a freshly formatted volume on. */
module AllocatorRuns {
  import opened Volumes
  import opened Mkfs

  /** A bitmap with its counter; handedOut are the numbers given out and not yet returned. */
  datatype Pool = Pool(bits: seq<bool>, size: nat, counter: int, handedOut: set<nat>)

  datatype Call = Get | Put(n: nat)

  /** The bit get_first_free_bit gives, 0 when there is none. */
  function FirstFree(bits: seq<bool>, from: nat, size: nat): (i: nat)
    requires from <= size <= |bits|
    ensures i != 0 ==> from <= i < size && bits[i]
    decreases size - from
  {
    if from == size then 0 else if bits[from] then from else FirstFree(bits, from + 1, size)
  }

  lemma {:induction false} FirstFreeIs(bits: seq<bool>, from: nat, size: nat, i: nat)
    requires from <= i && IsFirstFree(bits, size, i)
    ensures FirstFree(bits, from, size) == i
    decreases i - from
  {
    if from < i { FirstFreeIs(bits, from + 1, size, i); }
  }

  lemma {:induction false} FirstFreeNone(bits: seq<bool>, from: nat, size: nat)
    requires from <= size <= |bits| && forall j :: 0 <= j < size ==> !bits[j]
    ensures FirstFree(bits, from, size) == 0
    decreases size - from
  {
    if from < size { FirstFreeNone(bits, from + 1, size); }
  }

  lemma {:induction false} FirstFreeMisses(bits: seq<bool>, from: nat, size: nat)
    requires 0 < from <= size <= |bits|
    ensures FirstFree(bits, from, size) == 0 ==> forall j :: from <= j < size ==> !bits[j]
    decreases size - from
  {
    if from < size { FirstFreeMisses(bits, from + 1, size); }
  }

  predicate WellSized(p: Pool) { 0 < p.size <= |p.bits| }

  /** A caller returns only what it was given. */
  predicate Enabled(p: Pool, c: Call) { WellSized(p) && (c.Put? ==> c.n in p.handedOut && c.n < p.size) }

  function Given(p: Pool): nat
    requires WellSized(p)
  {
    FirstFree(p.bits, 0, p.size)
  }

  function Apply(p: Pool, c: Call): Pool
    requires Enabled(p, c)
  {
    match c
    case Get =>
      var n := Given(p);
      if n == 0 then p
      else p.(bits := p.bits[n := false], counter := p.counter - 1, handedOut := p.handedOut + {n})
    case Put(n) => p.(bits := p.bits[n := true], counter := p.counter + 1, handedOut := p.handedOut - {n})
  }

  ghost predicate IsRun(pools: seq<Pool>, calls: seq<Call>) {
    && |pools| == |calls| + 1
    && forall i :: 0 <= i < |calls| ==> Enabled(pools[i], calls[i]) && pools[i + 1] == Apply(pools[i], calls[i])
  }

  /** As formatted: the first `taken` numbers are never free; the counter is `slack` above the free bits. */
  ghost predicate Formatted(p: Pool, taken: nat, slack: int) {
    && WellSized(p) && 0 < taken && p.handedOut == {} && p.counter == CountFree(p.bits, p.size) + slack
    && forall b :: 0 <= b < p.size ==> (p.bits[b] <==> b >= taken)
  }

  /** Below size, a bit is free exactly when its number is past the metadata and not handed out. */
  ghost predicate Exact(p: Pool, taken: nat, slack: int) {
    && WellSized(p) && 0 < taken && p.counter == CountFree(p.bits, p.size) + slack
    && (forall n :: n in p.handedOut ==> taken <= n < p.size)
    && forall b :: 0 <= b < p.size ==> (p.bits[b] <==> b >= taken && b !in p.handedOut)
  }

  lemma CallKeepsExact(p: Pool, c: Call, taken: nat, slack: int)
    requires Exact(p, taken, slack) && Enabled(p, c)
    ensures Exact(Apply(p, c), taken, slack)
    ensures c.Get? && Given(p) != 0 ==> taken <= Given(p) < p.size && Given(p) !in p.handedOut
    ensures c.Get? ==> (Given(p) == 0 <==> p.counter == slack)
  {
    match c
    case Get =>
      assert !p.bits[0];
      FirstFreeMisses(p.bits, 1, p.size);
      CountFreeZero(p.bits, p.size);
      if Given(p) != 0 { CountFreeUpdate(p.bits, p.size, Given(p), false); }
    case Put(n) =>
      CountFreeUpdate(p.bits, p.size, n, true);
  }

  lemma {:induction false} ExactAlways(pools: seq<Pool>, calls: seq<Call>, taken: nat, slack: int, i: nat)
    requires IsRun(pools, calls) && Formatted(pools[0], taken, slack) && i < |pools|
    ensures Exact(pools[i], taken, slack) && pools[i].size == pools[0].size
  {
    if i > 0 {
      ExactAlways(pools, calls, taken, slack, i - 1);
      CallKeepsExact(pools[i - 1], calls[i - 1], taken, slack);
    }
  }

  /** In every run from a formatted pool: the counter is off by `slack` from the free bits, no call gives a
      number that is out already or lies in the metadata, and 0 is given exactly when the pool is empty. */
  lemma AllocationIsSafe(pools: seq<Pool>, calls: seq<Call>, taken: nat, slack: int, i: nat)
    requires IsRun(pools, calls) && Formatted(pools[0], taken, slack) && i < |calls|
    ensures pools[i].counter == CountFree(pools[i].bits, pools[i].size) + slack
    ensures calls[i].Get? && Given(pools[i]) != 0 ==>
              taken <= Given(pools[i]) < pools[0].size && Given(pools[i]) !in pools[i].handedOut
    ensures calls[i].Get? ==> (Given(pools[i]) == 0 <==> CountFree(pools[i].bits, pools[i].size) == 0)
  {
    ExactAlways(pools, calls, taken, slack, i);
    CallKeepsExact(pools[i], calls[i], taken, slack);
  }

  ghost function BlockPool(vol: Volume, handedOut: set<nat>): Pool
    reads vol, vol.bfree
  {
    Pool(vol.bfree[..], vol.nrBlocks, vol.nrFreeBlocks, handedOut)
  }

  ghost function InodePool(vol: Volume, handedOut: set<nat>): Pool
    reads vol, vol.ifree
  {
    Pool(vol.ifree[..], vol.nrInodes, vol.nrFreeInodes, handedOut)
  }

  /** mkfs leaves both pools as the runs want them: metadata taken, the inode counter one too high. */
  method FormatPools(nrBlocks: nat, disk: seq<Block>) returns (vol: Volume)
    requires 100 <= nrBlocks < WRAP && NrUsed(Layout(nrBlocks)) <= BITS_PER_BLOCK && |disk| == nrBlocks
    ensures fresh(vol) && fresh(vol.bfree) && fresh(vol.ifree) && vol.bfree != vol.ifree
    ensures vol.BlocksOk() && vol.InodesOk()
    ensures Formatted(BlockPool(vol, {}), NrUsed(Layout(nrBlocks)), 0)
    ensures Formatted(InodePool(vol, {}), 2, 1)
  {
    vol := Format(nrBlocks, disk);
    LayoutDoesNotUnderflow(nrBlocks);
  }

  /** One call on the mounted volume is one step of its block pool. */
  method CallBlocks(vol: Volume, c: Call, ghost handedOut: set<nat>) returns (n: nat)
    requires vol.BlocksOk() && Enabled(BlockPool(vol, handedOut), c)
    requires c.Put? ==> 0 < c.n && !vol.bfree[c.n]
    modifies vol`nrFreeBlocks, vol.bfree
    ensures c.Get? ==> n == old(Given(BlockPool(vol, handedOut)))
    ensures vol.BlocksOk()
    ensures var p := old(Apply(BlockPool(vol, handedOut), c)); BlockPool(vol, p.handedOut) == p
  {
    match c
    case Get =>
      CountFreeZero(vol.bfree[..], vol.nrBlocks);
      if vol.nrFreeBlocks == 0 { FirstFreeNone(vol.bfree[..], 0, vol.nrBlocks); }
      ghost var bits := vol.bfree[..];
      n := vol.GetFreeBlock();
      if n != 0 { FirstFreeIs(bits, 0, vol.nrBlocks, n); }
    case Put(b) =>
      n := b;
      var outside := vol.PutBlock(b);
  }

  /** One call on the mounted volume is one step of its inode pool. */
  method CallInodes(vol: Volume, c: Call, ghost handedOut: set<nat>) returns (n: nat)
    requires vol.InodesOk() && Enabled(InodePool(vol, handedOut), c)
    requires c.Put? ==> 0 < c.n && !vol.ifree[c.n]
    modifies vol`nrFreeInodes, vol.ifree
    ensures c.Get? ==> n == old(Given(InodePool(vol, handedOut)))
    ensures vol.InodesOk()
    ensures var p := old(Apply(InodePool(vol, handedOut), c)); InodePool(vol, p.handedOut) == p
  {
    match c
    case Get =>
      CountFreeZero(vol.ifree[..], vol.nrInodes);
      if vol.nrFreeInodes == 1 { FirstFreeNone(vol.ifree[..], 0, vol.nrInodes); }
      ghost var bits := vol.ifree[..];
      n := vol.GetFreeInode();
      if n != 0 { FirstFreeIs(bits, 0, vol.nrInodes, n); }
    case Put(ino) =>
      n := ino;
      var outside := vol.PutInode(ino);
  }
}
