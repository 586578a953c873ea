/** Runs of the cache: every sequence of its steps, in any order. */
module DcacheRuns {
  import opened Forests
  import opened Helpers
  import opened DcacheTree
  import opened TreeMoves
  import opened DcacheState
  import X = DcacheIndex
  import L = DcacheLru

  /** Steps that change names, parents or the hash table. */
  datatype NameStep =
    | AddRoot(d: Id, hash: nat)               // d_alloc_anon
    | AddChild(d: Id, p: Id, name: string)    // d_alloc
    | HashRoot(d: Id)                         // __d_instantiate_anon
    | Add(d: Id, inode: bool)                 // __d_add, d_rehash
    | DropName(d: Id)                         // d_drop
    | DeleteName(d: Id)                       // d_delete
    | MoveTo(d: Id, target: Id)               // d_move
    | SwapWith(d: Id, target: Id)             // d_exchange

  /** Steps that take or give references. */
  datatype RefStep =
    | Lookup(d: Id)       // __d_lookup, dget
    | PutOne(d: Id)       // dput, not the last reference
    | PutKeep(d: Id)      // dput, the last reference, retained
    | PutKill(d: Id)      // dput, the last reference, killed: the caller goes on with the parent
    | PutList(d: Id)      // dput_to_list, the last reference, not retained
    | Reclaim(d: Id)      // shrink_dentry_list, unused
    | Victim(d: Id)       // shrink_dcache_parent, unused and on somebody else's list
    | Prune(d: Id)        // d_prune_aliases, unused: the caller goes on with the parent

  /** Steps that change flags only. */
  datatype ListStep =
    | Instantiate(d: Id)    // d_instantiate
    | Collect(d: Id)        // select_collect
    | Isolate(d: Id)        // dentry_lru_isolate, in use
    | ToShrink(d: Id)       // dentry_lru_isolate, unused; dentry_lru_isolate_shrink, whether in use or not
    | Rotate(d: Id)         // dentry_lru_isolate, unused but looked at lately
    | GiveBack(d: Id)       // shrink_dentry_list, in use again, disrupted while a lock was taken, or dead

  datatype Step = Naming(n: NameStep) | Referring(r: RefStep) | Listing(s: ListStep)

  ghost predicate Movable(c: Cache, d: Id, target: Id) {
    In(c, d) && In(c, target) && d != target && Unrelated(c.t.parent, d, target) && c.t.parent[target] != target
  }

  /** d is not there, and no list still holds what was there before. */
  predicate Unborn(c: Cache, d: Id) { d !in c.t.parent && d !in c.l.lru }

  predicate HeldBy(c: Cache, d: Id) { In(c, d) && c.t.ext[d] > 0 }

  ghost predicate NameNext(c: Cache, f: (Id, string) -> nat, s: NameStep, c': Cache) {
    match s
    case AddRoot(d, hash) => Unborn(c, d) && c' == NewRoot(c, d, hash)
    case AddChild(d, p, name) => Unborn(c, d) && In(c, p) && c' == NewChild(c, d, p, name, f(p, name))
    case HashRoot(d) => IsRoot(c.t.parent, d) && d !in c.x.hashed && c' == Rooted(c, d)
    case Add(d, inode) => In(c, d) && c.t.parent[d] != d && d !in c.x.hashed && c' == Added(c, d, inode)
    case DropName(d) => In(c, d) && c' == Unhash(c, d)
    case DeleteName(d) => In(c, d) && d !in c.l.negative && c' == Delete(c, d)
    case MoveTo(d, target) => Movable(c, d, target) && c' == MoveOver(c, d, target)
    case SwapWith(d, target) => Movable(c, d, target) && c.t.parent[d] != d && c' == Swap(c, d, target)
  }

  predicate RefNext(c: Cache, s: RefStep, c': Cache) {
    match s
    case Lookup(d) => In(c, d) && c' == c.(t := Get(c.t, d))
    case PutOne(d) => HeldBy(c, d) && c.t.count[d] > 1 && c' == c.(t := Drop(c.t, d))
    case PutKeep(d) => HeldBy(c, d) && c.t.count[d] == 1 && Retains(c, d) && c' == Retain(c, d)
    case PutKill(d) => HeldBy(c, d) && c.t.count[d] == 1 && !Retains(c, d) && c' == KillLast(c, d)
    case PutList(d) => HeldBy(c, d) && c.t.count[d] == 1 && !Retains(c, d) && c' == PutToList(c, d)
    case Reclaim(d) => In(c, d) && d in c.l.shrink && c.t.count[d] == 0 && c' == ShrinkKill(c, d)
    case Victim(d) => In(c, d) && d in c.l.shrink && c.t.count[d] == 0 && c' == KillVictim(c, d)
    case Prune(d) => In(c, d) && d !in c.l.negative && c.t.count[d] == 0 && c' == KillLast(c, d)
  }

  predicate ListNext(c: Cache, s: ListStep, l: L.Lru) {
    match s
    case Instantiate(d) => In(c, d) && d in c.l.negative && l == L.Instantiate(c.l, d)
    case Collect(d) => In(c, d) && l == if d in c.l.shrink then c.l else L.Collected(c.l, d, c.t.count[d] == 0)
    case Isolate(d) => In(c, d) && d in c.l.lru && d !in c.l.shrink && c.t.count[d] != 0 && l == L.LruDel(c.l, d)
    case ToShrink(d) => In(c, d) && d in c.l.lru && d !in c.l.shrink && l == L.ShrinkMove(c.l, d)
    case Rotate(d) => In(c, d) && d in c.l.lru && d !in c.l.shrink && c.t.count[d] == 0 && l == c.l
    case GiveBack(d) => d in c.l.shrink && l == L.ShrinkDel(c.l, d)
  }

  /** A step is taken only where its callers may take it; nothing is asked for the sake of the counters. */
  ghost predicate Next(c: Cache, f: (Id, string) -> nat, s: Step, c': Cache) {
    match s
    case Naming(n) => NameNext(c, f, n, c')
    case Referring(r) => RefNext(c, r, c')
    case Listing(s) =>
      && c' == c.(l := c'.l, referenced := if s.Rotate? then c.referenced - {s.d} else c.referenced)
      && (s.Rotate? ==> s.d in c.referenced)
      && ListNext(c, s, c'.l)
  }

  function Rooted(c: Cache, d: Id): Cache { c.(x := X.HashRoot(c.x, d), l := L.SetType(c.l, d)) }

  function Added(c: Cache, d: Id, inode: bool): Cache
    requires d in c.x.hash
  {
    c.(x := X.Rehash(c.x, d), l := if inode then L.SetType(c.l, d) else c.l)
  }

  // ---- references and hash table ----

  lemma HashStepOk(c: Cache, f: (Id, string) -> nat, d: Id, l: L.Lru)
    requires Sound(c, f) && d in c.t.parent && d !in c.x.hashed
    ensures Whole(c)
    ensures c.t.parent[d] == d ==> Sound(c.(x := X.HashRoot(c.x, d), l := l), f)
    ensures c.t.parent[d] != d ==> Sound(c.(x := X.Rehash(c.x, d), l := l), f)
  {
    hide TreeOk, X.BucketOk, X.RootsOk, X.HashOk;
    AllIn(c, f, d);
    if c.t.parent[d] == d {
      X.HashRootOk(c.x, c.t.parent, d);
      SameHashes(c.x, c.t.parent, f, X.HashRoot(c.x, d));
    } else {
      X.RehashOk(c.x, c.t.parent, d);
      SameHashes(c.x, c.t.parent, f, X.Rehash(c.x, d));
    }
  }

  lemma NameStepKeepsSound(c: Cache, f: (Id, string) -> nat, s: NameStep, c': Cache)
    requires Sound(c, f) && NameNext(c, f, s, c')
    ensures Sound(c', f)
  {
    hide Sound, Unrelated, Placed, X.Keyed, NewRoot, NewChild, Unhash, Delete, MoveOver, Swap;
    match s
    case AddRoot(d, hash) => NewRootOk(c, f, d, hash);
    case AddChild(d, p, name) => InTree(c, p); NewChildOk(c, f, d, p, name);
    case HashRoot(d) => HashStepOk(c, f, d, c'.l);
    case Add(d, inode) => InTree(c, d); HashStepOk(c, f, d, c'.l);
    case DropName(d) => InTree(c, d); UnhashOk(c, f, d);
    case DeleteName(d) => InTree(c, d); DeleteOk(c, f, d);
    case MoveTo(d, target) => InTree(c, d); InTree(c, target); MoveOverOk(c, f, d, target);
    case SwapWith(d, target) => InTree(c, d); InTree(c, target); SwapOk(c, f, d, target);
  }

  lemma InTree(c: Cache, d: Id)
    requires In(c, d)
    ensures d in c.t.parent && d in c.t.ext && d in c.t.count
  {
  }

  lemma RefStepKeepsSound(c: Cache, f: (Id, string) -> nat, s: RefStep, c': Cache)
    requires Sound(c, f) && RefNext(c, s, c')
    ensures Sound(c', f)
  {
    hide Sound, Placed, X.Keyed, Retain, KillLast, PutToList, ShrinkKill, KillVictim, Retains;
    InTree(c, s.d);
    match s
    case Lookup(d) => CountSound(c, f, d);
    case PutOne(d) => CountSound(c, f, d);
    case PutKeep(d) => RetainOk(c, f, d);
    case PutKill(d) => KillLastOk(c, f, d);
    case PutList(d) => PutToListOk(c, f, d);
    case Reclaim(d) => ShrinkKillOk(c, f, d);
    case Victim(d) => KillVictimOk(c, f, d);
    case Prune(d) => KillLastOk(c, f, d);
  }

  lemma CountSound(c: Cache, f: (Id, string) -> nat, d: Id)
    requires Sound(c, f) && In(c, d)
    ensures Sound(c.(t := Get(c.t, d)), f)
    ensures c.t.ext[d] > 0 ==> Sound(c.(t := Drop(c.t, d)), f)
  {
    hide TreeOk, X.IndexOk, X.HashesOk;
    GetOk(c.t, d);
    if c.t.ext[d] > 0 { DropOk(c.t, d); }
  }

  /** Each step keeps forest, lists of children, counts and hash table. */
  lemma StepKeepsSound(c: Cache, f: (Id, string) -> nat, s: Step, c': Cache)
    requires Sound(c, f) && Next(c, f, s, c')
    ensures Sound(c', f)
  {
    hide TreeOk, X.IndexOk, X.HashesOk, NameNext, RefNext, ListNext;
    match s
    case Naming(n) => NameStepKeepsSound(c, f, n, c');
    case Referring(r) => RefStepKeepsSound(c, f, r, c');
    case Listing(_) =>
  }

  // ---- counters ----

  /** What a step adds to the error of nr_dentry_negative. */
  function Drift(c: Cache, s: Step): int {
    match s
    case Naming(HashRoot(d)) => One(d in L.Counted(c.l))
    case Naming(Add(d, inode)) => One(inode && d in L.Counted(c.l))
    case Naming(DeleteName(d)) => One(d in c.t.count && c.t.count[d] == 1 && d in c.l.shrink)
    case Referring(PutKill(d)) => One(d !in c.l.negative && d in c.l.shrink)
    case Referring(Victim(d)) => One(d !in c.l.negative)
    case Referring(Prune(d)) => One(d in c.l.shrink)
    case Listing(Instantiate(d)) => -One(d in c.l.shrink)
    case _ => 0
  }

  lemma NameStepDrifts(c: Cache, f: (Id, string) -> nat, s: NameStep, c': Cache)
    requires Sound(c, f) && L.FlagsOk(c.l) && NameNext(c, f, s, c')
    ensures L.Drifts(c.l, c'.l, Drift(c, Naming(s)))
  {
    hide Sound, Unrelated, Placed, X.Keyed, Alloc, AllocRoot, Move, Exchange, X.Moved, X.Exchanged, X.HashRoot,
      X.Rehash;
    match s
    case AddRoot(d, _) => L.NewNegativeOk(c.l, d);
    case AddChild(d, _, _) => L.NewNegativeOk(c.l, d);
    case HashRoot(d) => L.SetTypeOk(c.l, d);
    case Add(d, _) => L.SetTypeOk(c.l, d);
    case DeleteName(d) => InTree(c, d); DeleteOk(c, f, d);
    case _ =>
  }

  lemma RefStepDrifts(c: Cache, f: (Id, string) -> nat, s: RefStep, c': Cache)
    requires Sound(c, f) && L.FlagsOk(c.l) && RefNext(c, s, c')
    ensures L.Drifts(c.l, c'.l, Drift(c, Referring(s)))
  {
    hide Sound, Placed, X.Keyed, Retain, KillLast, PutToList, ShrinkKill, KillVictim, Retains, Get, Drop;
    InTree(c, s.d);
    match s
    case PutKeep(d) => RetainOk(c, f, d);
    case PutKill(d) => KillLastOk(c, f, d);
    case PutList(d) => PutToListOk(c, f, d);
    case Reclaim(d) => ShrinkKillOk(c, f, d);
    case Victim(d) => KillVictimOk(c, f, d);
    case Prune(d) => KillLastOk(c, f, d);
    case _ =>
  }

  lemma ListStepDrifts(c: Cache, s: ListStep, l: L.Lru)
    requires L.FlagsOk(c.l) && ListNext(c, s, l)
    ensures L.Drifts(c.l, l, Drift(c, Listing(s)))
  {
    hide L.FlagsOk, L.Excess, L.Collected, L.LruDel, L.ShrinkMove, L.ShrinkDel, L.Instantiate, In;
    match s
    case Instantiate(d) => L.InstantiateOk(c.l, d);
    case Collect(d) => InTree(c, d); if d !in c.l.shrink { L.CollectedOk(c.l, d, c.t.count[d] == 0); }
    case Isolate(d) => L.LruDelOk(c.l, d);
    case ToShrink(d) => L.ShrinkMoveOk(c.l, d);
    case Rotate(_) =>
    case GiveBack(d) => L.ShrinkDelOk(c.l, d);
  }

  /** Each step keeps the flags and the counter of the unused, and moves the counter of the negative by its drift. */
  lemma StepDrifts(c: Cache, f: (Id, string) -> nat, s: Step, c': Cache)
    requires Sound(c, f) && L.FlagsOk(c.l) && Next(c, f, s, c')
    ensures L.Drifts(c.l, c'.l, Drift(c, s))
  {
    hide Sound, L.FlagsOk, L.Excess, NameNext, RefNext, ListNext, Drift;
    match s
    case Naming(n) => NameStepDrifts(c, f, n, c');
    case Referring(r) => RefStepDrifts(c, f, r, c');
    case Listing(l) => ListStepDrifts(c, l, c'.l);
  }

  // ---- runs ----

  /** The caches c[0], c[1], ... follow from each other, and the first is empty. */
  ghost predicate IsRun(caches: seq<Cache>, f: (Id, string) -> nat, steps: seq<Step>) {
    && |caches| == |steps| + 1
    && IsEmpty(caches[0])
    && forall i {:trigger Next(caches[i], f, steps[i], caches[i + 1])} ::
         0 <= i < |steps| ==> Next(caches[i], f, steps[i], caches[i + 1])
  }

  predicate IsEmpty(c: Cache) {
    && c.t == Tree(map[], map[], map[], map[])
    && c.x.(shift := 0) == X.Index(map[], map[], {}, map[], [], 0)
    && c.l == L.Lru({}, {}, {}, 0, 0)
  }

  lemma EmptyOk(c: Cache, f: (Id, string) -> nat)
    requires IsEmpty(c)
    ensures Sound(c, f) && L.LruOk(c.l)
  {
    forall b ensures X.BucketOk(c.x, c.t.parent, b) { }
  }

  /** In every run: parents form a forest, counts are references plus children, and the chains are exact. */
  lemma {:induction false} SoundAlways(caches: seq<Cache>, f: (Id, string) -> nat, steps: seq<Step>, i: nat)
    requires IsRun(caches, f, steps) && i < |caches|
    ensures Sound(caches[i], f)
  {
    hide Sound, Next, IsEmpty;
    if i == 0 { EmptyOk(caches[0], f); } else {
      var j := i - 1;
      SoundAlways(caches, f, steps, j);
      assert Next(caches[j], f, steps[j], caches[j + 1]);
      StepKeepsSound(caches[j], f, steps[j], caches[j + 1]);
    }
  }

  /** The drifts of the first n steps, summed. */
  function TotalDrift(caches: seq<Cache>, steps: seq<Step>, n: nat): int
    requires n <= |steps| < |caches|
  {
    if n == 0 then 0 else TotalDrift(caches, steps, n - 1) + Drift(caches[n - 1], steps[n - 1])
  }

  /** In every run the flags and the counter of the unused are right, and that of the negative is off by the drifts. */
  lemma {:induction false} CountersAlways(caches: seq<Cache>, f: (Id, string) -> nat, steps: seq<Step>, i: nat)
    requires IsRun(caches, f, steps) && i < |caches|
    ensures L.FlagsOk(caches[i].l) && L.Excess(caches[i].l) == TotalDrift(caches, steps, i)
  {
    hide Sound, Next, IsEmpty, L.FlagsOk, L.Excess, Drift;
    if i == 0 { EmptyOk(caches[0], f); EmptyCounters(caches[0], f); } else {
      var j := i - 1;
      CountersAlways(caches, f, steps, j);
      SoundAlways(caches, f, steps, j);
      assert Next(caches[j], f, steps[j], caches[j + 1]);
      StepDrifts(caches[j], f, steps[j], caches[j + 1]);
    }
  }

  lemma EmptyCounters(c: Cache, f: (Id, string) -> nat)
    requires IsEmpty(c)
    ensures L.FlagsOk(c.l) && L.Excess(c.l) == 0
  {
    EmptyOk(c, f);
  }

  /** So they are all right just when the drifts cancel, and in particular when no step drifts. */
  lemma CacheOkIff(caches: seq<Cache>, f: (Id, string) -> nat, steps: seq<Step>, i: nat)
    requires IsRun(caches, f, steps) && i < |caches|
    ensures CacheOk(caches[i], f) <==> TotalDrift(caches, steps, i) == 0
    ensures (forall j :: 0 <= j < i ==> Drift(caches[j], steps[j]) == 0) ==> CacheOk(caches[i], f)
  {
    hide Sound, Next, IsEmpty, L.FlagsOk, L.Excess, Drift;
    SoundAlways(caches, f, steps, i);
    CountersAlways(caches, f, steps, i);
    if forall j :: 0 <= j < i ==> Drift(caches[j], steps[j]) == 0 { NoDrift(caches, steps, i); }
  }

  lemma {:induction false} NoDrift(caches: seq<Cache>, steps: seq<Step>, n: nat)
    requires n <= |steps| < |caches| && forall j :: 0 <= j < n ==> Drift(caches[j], steps[j]) == 0
    ensures TotalDrift(caches, steps, n) == 0
  {
    if n > 0 { NoDrift(caches, steps, n - 1); }
  }

  // ---- what is on lists ----

  /** What is on the real list is there; a shrink list may still have what was killed on it. */
  predicate ListedThere(c: Cache) { c.l.lru - c.l.shrink <= c.t.parent.Keys }

  lemma NameStepListed(c: Cache, f: (Id, string) -> nat, s: NameStep, c': Cache)
    requires Whole(c) && ListedThere(c) && NameNext(c, f, s, c')
    ensures ListedThere(c')
  {
    hide X.Moved, X.Exchanged, X.Rehash, X.DropHash, X.Keyed, Unrelated;
  }

  lemma RefStepListed(c: Cache, s: RefStep, c': Cache)
    requires Whole(c) && L.FlagsOk(c.l) && ListedThere(c) && RefNext(c, s, c')
    ensures ListedThere(c')
  {
    hide X.DropHash, X.Forget, X.Keyed, Retains, Remove;
  }

  lemma ListStepListed(c: Cache, s: ListStep, l: L.Lru)
    requires L.FlagsOk(c.l) && ListedThere(c) && ListNext(c, s, l)
    ensures l.lru - l.shrink <= c.t.parent.Keys
  {
    hide X.Keyed;
  }

  /** In every run the real list has only dentries that are there. */
  lemma {:induction false} ListedAlways(caches: seq<Cache>, f: (Id, string) -> nat, steps: seq<Step>, i: nat)
    requires IsRun(caches, f, steps) && i < |caches|
    ensures ListedThere(caches[i])
  {
    hide Sound, L.FlagsOk, L.Excess, NameNext, RefNext, ListNext;
    if i > 0 {
      var j := i - 1;
      var c, c', st := caches[j], caches[j + 1], steps[j];
      ListedAlways(caches, f, steps, j);
      SoundAlways(caches, f, steps, j);
      CountersAlways(caches, f, steps, j);
      SoundIsWhole(c, f);
      assert Next(caches[j], f, steps[j], caches[j + 1]);
      match st
      case Naming(n) => NameStepListed(c, f, n, c');
      case Referring(r) => RefStepListed(c, r, c');
      case Listing(l) => ListStepListed(c, l, c'.l);
    }
  }

  lemma SoundIsWhole(c: Cache, f: (Id, string) -> nat)
    requires Sound(c, f)
    ensures Whole(c)
  {
    hide X.BucketOk, X.RootsOk, X.HashOk, IsForest, ListsOk, RefsOk;
  }

  /** Unused and on no list. */
  predicate Stray(c: Cache, d: Id) { d in c.t.count && c.t.count[d] == 0 && d !in c.l.lru }

  /** A step after which an unused dentry may be on no list: it was found disrupted on a shrink list, or its last child
      was moved away from under it, which __d_move warns about (line 2995). */
  predicate MayStray(c: Cache, s: Step, d: Id) {
    match s
    case Listing(GiveBack(e)) => e == d
    case Naming(MoveTo(e, _)) => e in c.t.parent && c.t.parent[e] == d && d in c.t.count && c.t.count[d] == 1
    case _ => false
  }

  lemma CountsAreNat(c: Cache, f: (Id, string) -> nat, d: Id)
    requires Sound(c, f) && d in c.t.parent
    ensures d in c.t.count && c.t.count[d] >= 0
  {
    hide IsForest, ListOk, X.IndexOk, X.HashesOk;
    assert RefOk(c.t, d);
  }

  lemma NameStepStrays(c: Cache, f: (Id, string) -> nat, s: NameStep, c': Cache, d: Id)
    requires Sound(c, f) && NameNext(c, f, s, c') && Stray(c', d)
    ensures Stray(c, d) || MayStray(c, Naming(s), d)
  {
    hide X.Moved, X.Exchanged, X.Rehash, X.DropHash, X.Keyed, X.IndexOk, X.HashesOk, TreeOk, Unrelated, Relist;
    if d in c.t.parent { CountsAreNat(c, f, d); }
  }

  lemma RefStepStrays(c: Cache, f: (Id, string) -> nat, s: RefStep, c': Cache, d: Id)
    requires Sound(c, f) && L.FlagsOk(c.l) && RefNext(c, s, c') && Stray(c', d)
    ensures Stray(c, d)
  {
    hide X.DropHash, X.Forget, X.Keyed, X.IndexOk, X.HashesOk, TreeOk, Remove, Retains;
    if d in c.t.parent { CountsAreNat(c, f, d); }
  }

  /** No other step leaves an unused dentry off all lists. */
  lemma StepStrays(c: Cache, f: (Id, string) -> nat, s: Step, c': Cache, d: Id)
    requires Sound(c, f) && L.FlagsOk(c.l) && Next(c, f, s, c') && Stray(c', d)
    ensures Stray(c, d) || MayStray(c, s, d)
  {
    hide Sound, NameNext, RefNext, L.FlagsOk, X.Keyed;
    match s
    case Naming(n) => NameStepStrays(c, f, n, c', d);
    case Referring(r) => RefStepStrays(c, f, r, c', d);
    case Listing(_) =>
  }

  // ---- dput and its like have an answer for every state ----

  /** The holder of a reference can drop it, in exactly one way. */
  lemma PutHasStep(c: Cache, f: (Id, string) -> nat, d: Id)
    requires Sound(c, f) && In(c, d) && c.t.ext[d] > 0
    ensures RefNext(c, PutOne(d), c.(t := Drop(c.t, d))) <==> c.t.count[d] > 1
    ensures RefNext(c, PutKeep(d), Retain(c, d)) <==> c.t.count[d] == 1 && Retains(c, d)
    ensures RefNext(c, PutKill(d), KillLast(c, d)) <==> c.t.count[d] == 1 && !Retains(c, d)
    ensures RefNext(c, PutList(d), PutToList(c, d)) <==> c.t.count[d] == 1 && !Retains(c, d)
    ensures c.t.count[d] >= 1
  {
    hide X.IndexOk, X.HashesOk, TreeOk, X.Keyed, Retains, Retain, KillLast, PutToList;
    HeldCounts(c, f, d);
  }

  lemma HeldCounts(c: Cache, f: (Id, string) -> nat, d: Id)
    requires Sound(c, f) && HeldBy(c, d)
    ensures c.t.count[d] >= 1
  {
    hide IsForest, ListOk, X.IndexOk, X.HashesOk, X.Keyed;
    assert RefOk(c.t, d);
  }

  /** Whether a dentry can be reclaimed, killed as a victim or pruned is decided by its count, its lists and its sign;
      and every dentry that is there can be looked up. */
  lemma UnusedHasStep(c: Cache, f: (Id, string) -> nat, d: Id)
    requires Sound(c, f) && In(c, d)
    ensures RefNext(c, Lookup(d), c.(t := Get(c.t, d)))
    ensures RefNext(c, Reclaim(d), ShrinkKill(c, d)) <==> c.t.count[d] == 0 && d in c.l.shrink
    ensures RefNext(c, Victim(d), KillVictim(c, d)) <==> c.t.count[d] == 0 && d in c.l.shrink
    ensures RefNext(c, Prune(d), KillLast(c, d)) <==> c.t.count[d] == 0 && d !in c.l.negative
  {
    hide X.IndexOk, X.HashesOk, TreeOk, X.Keyed, ShrinkKill, KillVictim, KillLast;
  }

  /** What a step on lists asks of a dentry and what it comes to. */
  lemma ListHasStep(c: Cache, f: (Id, string) -> nat, d: Id)
    requires In(c, d)
    ensures (exists l :: ListNext(c, Isolate(d), l)) <==> c.t.count[d] != 0 && d in c.l.lru - c.l.shrink
    ensures (exists l :: ListNext(c, ToShrink(d), l)) <==> d in c.l.lru - c.l.shrink
    ensures Next(c, f, Listing(Rotate(d)), c.(referenced := c.referenced - {d})) <==>
            c.t.count[d] == 0 && d in c.l.lru - c.l.shrink && d in c.referenced
    ensures (exists l :: ListNext(c, GiveBack(d), l)) <==> d in c.l.shrink
    ensures d !in c.l.shrink ==> Next(c, f, Listing(Collect(d)), c.(l := L.Collected(c.l, d, c.t.count[d] == 0)))
    ensures (exists l :: ListNext(c, Instantiate(d), l)) <==> d in c.l.negative
  {
    assert d in c.l.lru ==> ListNext(c, Isolate(d), L.LruDel(c.l, d)) || d in c.l.shrink || c.t.count[d] == 0;
    assert d in c.l.lru - c.l.shrink ==> ListNext(c, ToShrink(d), L.ShrinkMove(c.l, d));
    assert d in c.l.shrink ==> ListNext(c, GiveBack(d), L.ShrinkDel(c.l, d));
    assert d in c.l.negative ==> ListNext(c, Instantiate(d), L.Instantiate(c.l, d));
  }

  predicate Kills(s: Step) { s.Referring? && (s.r.PutKill? || s.r.Reclaim? || s.r.Victim? || s.r.Prune?) }

  /** In every run no dentry is killed while it has children. */
  lemma KilledAreLeaves(caches: seq<Cache>, f: (Id, string) -> nat, steps: seq<Step>, i: nat)
    requires IsRun(caches, f, steps) && i < |steps| && Kills(steps[i])
    ensures var d, t := steps[i].r.d, caches[i].t;
            d in t.parent && Kids(t.parent, d) == {} && d !in caches[i + 1].t.parent
  {
    hide TreeOk, Kids, X.IndexOk, X.HashesOk, L.Killed, L.Collected, X.DropHash;
    SoundAlways(caches, f, steps, i);
    assert Next(caches[i], f, steps[i], caches[i + 1]);
    LastRefHasNoKids(caches[i].t, steps[i].r.d);
  }
}
