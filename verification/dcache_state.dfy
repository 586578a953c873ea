/** The whole cache as one value: tree, hash table and LRU, and the steps that change it. */
module DcacheState {
  import opened Forests
  import opened DcacheTree
  import opened TreeMoves
  import X = DcacheIndex
  import L = DcacheLru

  /** Flags that the steps only read; d_delete says yes for those in refuses. */
  datatype Flags = Flags(disconnected: set<Id>, dontCache: set<Id>, opDelete: set<Id>, refuses: set<Id>)

  datatype Cache = Cache(t: Tree, x: X.Index, l: L.Lru, referenced: set<Id>, flags: Flags)

  /** References, children and hash table agree. */
  ghost predicate Sound(c: Cache, f: (Id, string) -> nat) {
    TreeOk(c.t) && X.IndexOk(c.x, c.t.parent) && X.HashesOk(c.x, c.t.parent, f)
  }

  /** The counters of the LRU agree as well. */
  ghost predicate CacheOk(c: Cache, f: (Id, string) -> nat) { Sound(c, f) && L.LruOk(c.l) }

  /** Enough for shrinking: the flags agree, the counter of the negative may be off. */
  ghost predicate Steady(c: Cache, f: (Id, string) -> nat) { Sound(c, f) && L.FlagsOk(c.l) }

  predicate Whole(c: Cache) { Domains(c.t) && X.Keyed(c.x, c.t.parent) }

  predicate In(c: Cache, d: Id) { Whole(c) && Placed(c.t, d) }

  // ---- the steps ----

  /** d_alloc_anon */
  function NewRoot(c: Cache, d: Id, hash: nat): Cache {
    c.(t := AllocRoot(c.t, d), x := X.Rename(c.x, d, "/", hash), l := L.NewNegative(c.l, d),
       referenced := c.referenced - {d})
  }

  /** d_alloc */
  function NewChild(c: Cache, d: Id, p: Id, name: string, hash: nat): Cache
    requires Whole(c) && p in c.t.parent
  {
    c.(t := Alloc(c.t, d, p), x := X.Rename(c.x, d, name, hash), l := L.NewNegative(c.l, d),
       referenced := c.referenced - {d})
  }

  function Unhash(c: Cache, d: Id): Cache
    requires In(c, d)
  {
    c.(x := X.DropHash(c.x, d, c.t.parent[d] == d))
  }

  /** d_delete: the only user makes the dentry negative, otherwise it is unhashed. */
  function Delete(c: Cache, d: Id): Cache
    requires In(c, d)
  {
    if c.t.count[d] == 1 then c.(l := L.ClearType(c.l, d)) else Unhash(c, d)
  }

  predicate Retains(c: Cache, d: Id) {
    && d in c.x.hashed
    && d !in c.flags.disconnected
    && !(d in c.flags.opDelete && d in c.flags.refuses)
    && d !in c.flags.dontCache
  }

  /** retain_dentry when it says yes: the last reference goes, the dentry stays on the LRU. */
  function Retain(c: Cache, d: Id): Cache
    requires Whole(c) && d in c.t.parent && c.t.ext[d] > 0
  {
    c.(t := Drop(c.t, d),
       l := L.Retained(c.l, d),
       referenced := if d in c.l.lru && d !in c.referenced then c.referenced + {d} else c.referenced)
  }

  /** __dentry_kill: out of the LRU, the hash table and the tree. */
  function Gone(c: Cache, d: Id): Cache
    requires In(c, d)
  {
    c.(t := Unlist(c.t, d), x := X.Forget(X.DropHash(c.x, d, c.t.parent[d] == d), d), l := L.Killed(c.l, d))
  }

  /** dentry_kill: the reference d held on its parent is now the caller's to drop. */
  function KillLast(c: Cache, d: Id): Cache
    requires In(c, d)
  {
    Gone(c, d).(t := Kill(c.t, d))
  }

  /** __dput_to_list of the last reference: on the list, or left to the owner of the one it is on. */
  function PutToList(c: Cache, d: Id): Cache
    requires Whole(c) && d in c.t.parent && c.t.ext[d] > 0
  {
    c.(t := Drop(c.t, d), l := if d in c.l.shrink then c.l else L.Collected(c.l, d, c.t.count[d] == 1))
  }

  /** The lists once the parent of an unused d has lost a reference, and perhaps joined the list. */
  function ParentPut(c: Cache, l: L.Lru, d: Id): L.Lru
    requires In(c, d)
  {
    var p := c.t.parent[d];
    if p == d || p in l.shrink then l else L.Collected(l, p, c.t.count[p] == 1)
  }

  /** shrink_dentry_list on an unused dentry: off the list, its parent loses a reference, and it is killed. */
  function ShrinkKill(c: Cache, d: Id): Cache
    requires In(c, d)
  {
    Gone(c, d).(t := KillUnused(c.t, d), l := L.Killed(ParentPut(c, L.ShrinkDel(c.l, d), d), d))
  }

  /** shrink_dcache_parent on a victim of somebody else's list: it is killed where it is. */
  function KillVictim(c: Cache, d: Id): Cache
    requires In(c, d)
  {
    Gone(c, d).(t := KillUnused(c.t, d), l := L.Killed(ParentPut(c, c.l, d), d))
  }

  function MoveOver(c: Cache, d: Id, target: Id): Cache
    requires In(c, d) && In(c, target)
  {
    c.(t := Move(c.t, d, target), x := X.Moved(c.x, c.t.parent, d, target))
  }

  function Swap(c: Cache, d: Id, target: Id): Cache
    requires In(c, d) && In(c, target)
  {
    c.(t := Exchange(c.t, d, target), x := X.Exchanged(c.x, c.t.parent, d, target))
  }

  // ---- what they keep ----

  lemma AllIn(c: Cache, f: (Id, string) -> nat, d: Id)
    requires Sound(c, f)
    ensures Whole(c) && (d in c.t.parent ==> In(c, d))
  {
    hide IsForest, X.BucketOk, X.HashOk, ListOk, RefOk;
    if d in c.t.parent { PlacedIn(c.t, d); }
  }

  lemma NewIndexOk(x: X.Index, par: Parents, f: (Id, string) -> nat, d: Id, p: Id, name: string, hash: nat)
    requires X.IndexOk(x, par) && X.HashesOk(x, par, f) && d !in par && (p == d || hash == f(p, name))
    ensures X.IndexOk(X.Rename(x, d, name, hash), par[d := p]) && X.HashesOk(X.Rename(x, d, name, hash), par[d := p], f)
  {
    hide X.BucketOk, X.RootsOk;
    var x', par' := X.Rename(x, d, name, hash), par[d := p];
    X.UnhashedIsFree(x, par, x', par');
    forall e ensures X.HashOk(x', par', f, e) { assert X.HashOk(x, par, f, e); }
  }

  lemma NewRootOk(c: Cache, f: (Id, string) -> nat, d: Id, hash: nat)
    requires Sound(c, f) && d !in c.t.parent
    ensures Sound(NewRoot(c, d, hash), f)
  {
    hide TreeOk, X.IndexOk, X.HashesOk, X.Rename;
    AllocRootOk(c.t, d);
    NewIndexOk(c.x, c.t.parent, f, d, d, "/", hash);
  }

  lemma NewChildOk(c: Cache, f: (Id, string) -> nat, d: Id, p: Id, name: string)
    requires Sound(c, f) && d !in c.t.parent && p in c.t.parent
    ensures Whole(c) && Sound(NewChild(c, d, p, name, f(p, name)), f)
  {
    hide TreeOk, X.IndexOk, X.HashesOk, X.Rename;
    AllIn(c, f, p);
    AllocOk(c.t, d, p);
    NewIndexOk(c.x, c.t.parent, f, d, p, name, f(p, name));
  }

  lemma SameHashes(x: X.Index, par: Parents, f: (Id, string) -> nat, x': X.Index)
    requires X.HashesOk(x, par, f) && X.Keyed(x', par) && x'.name == x.name && x'.hash == x.hash
    ensures X.HashesOk(x', par, f)
  {
    forall e ensures X.HashOk(x', par, f, e) { assert X.HashOk(x, par, f, e); }
  }

  lemma UnhashOk(c: Cache, f: (Id, string) -> nat, d: Id)
    requires Sound(c, f) && d in c.t.parent
    ensures In(c, d) && Sound(Unhash(c, d), f)
  {
    hide TreeOk, X.IndexOk, X.HashesOk, X.DropHash;
    AllIn(c, f, d);
    X.DropHashOk(c.x, c.t.parent, d);
    SameHashesDropped(c.x, c.t.parent, f, d);
  }

  lemma SameHashesDropped(x: X.Index, par: Parents, f: (Id, string) -> nat, d: Id)
    requires X.HashesOk(x, par, f) && d in par
    ensures X.HashesOk(X.DropHash(x, d, par[d] == d), par, f)
  {
    hide X.HashOk;
    SameHashes(x, par, f, X.DropHash(x, d, par[d] == d));
  }

  /** d_delete on a positive dentry; the counter drifts only if the only user's dentry is on a shrink list. */
  lemma DeleteOk(c: Cache, f: (Id, string) -> nat, d: Id)
    requires Sound(c, f) && d in c.t.parent
    ensures In(c, d) && Sound(Delete(c, d), f)
    ensures L.FlagsOk(c.l) && d !in c.l.negative ==>
      L.Drifts(c.l, Delete(c, d).l, if c.t.count[d] == 1 && d in c.l.shrink then 1 else 0)
  {
    hide TreeOk, X.IndexOk, X.HashesOk, X.DropHash;
    AllIn(c, f, d);
    if c.t.count[d] != 1 { UnhashOk(c, f, d); }
    else if L.FlagsOk(c.l) && d !in c.l.negative { L.ClearTypeOk(c.l, d); }
  }

  lemma RetainOk(c: Cache, f: (Id, string) -> nat, d: Id)
    requires Sound(c, f) && d in c.t.parent && c.t.ext[d] > 0
    ensures Whole(c) && Sound(Retain(c, d), f)
    ensures L.FlagsOk(c.l) ==> L.Drifts(c.l, Retain(c, d).l, 0)
  {
    hide TreeOk, X.IndexOk, X.HashesOk, L.FlagsOk, L.Drifts, L.Retained;
    AllIn(c, f, d);
    DropOk(c.t, d);
    if L.FlagsOk(c.l) { L.RetainedOk(c.l, d); }
  }

  lemma PutToListOk(c: Cache, f: (Id, string) -> nat, d: Id)
    requires Sound(c, f) && d in c.t.parent && c.t.ext[d] > 0
    ensures Whole(c) && Sound(PutToList(c, d), f)
    ensures L.FlagsOk(c.l) ==> L.Drifts(c.l, PutToList(c, d).l, 0)
  {
    hide TreeOk, X.IndexOk, X.HashesOk, L.Collected;
    AllIn(c, f, d);
    DropOk(c.t, d);
    if L.FlagsOk(c.l) && d !in c.l.shrink { L.CollectedOk(c.l, d, c.t.count[d] == 1); }
  }

  lemma ForgetOk(x: X.Index, par: Parents, f: (Id, string) -> nat, d: Id)
    requires X.IndexOk(x, par) && X.HashesOk(x, par, f) && d in par
    ensures var x' := X.Forget(X.DropHash(x, d, par[d] == d), d);
            X.IndexOk(x', par - {d}) && X.HashesOk(x', par - {d}, f)
  {
    hide X.BucketOk, X.RootsOk, X.DropHash;
    X.DropHashOk(x, par, d);
    SameHashesDropped(x, par, f, d);
    var off := X.DropHash(x, d, par[d] == d);
    var x', par' := X.Forget(off, d), par - {d};
    X.UnhashedIsFree(off, par, x', par');
    forall e ensures X.HashOk(x', par', f, e) { assert X.HashOk(off, par, f, e); }
  }

  /** A dentry on its last reference, or unused, may be killed; only a positive one on a shrink list spoils the
      counter. */
  lemma KillLastOk(c: Cache, f: (Id, string) -> nat, d: Id)
    requires Sound(c, f) && d in c.t.parent && (c.t.count[d] == 0 || (c.t.count[d] == 1 && c.t.ext[d] > 0))
    ensures In(c, d) && Sound(KillLast(c, d), f)
    ensures L.FlagsOk(c.l) ==> L.Drifts(c.l, KillLast(c, d).l, if d !in c.l.negative && d in c.l.shrink then 1 else 0)
  {
    hide TreeOk, X.IndexOk, X.HashesOk, L.FlagsOk, L.Drifts, X.DropHash, X.Forget, L.Killed;
    AllIn(c, f, d);
    KillOk(c.t, d);
    ForgetOk(c.x, c.t.parent, f, d);
    if L.FlagsOk(c.l) { L.KilledOk(c.l, d); }
    assert Kill(c.t, d).parent == c.t.parent - {d};
  }

  lemma ParentPutOk(c: Cache, l: L.Lru, d: Id)
    requires In(c, d) && L.FlagsOk(l)
    ensures L.Drifts(l, ParentPut(c, l, d), 0)
    ensures d in ParentPut(c, l, d).shrink <==> d in l.shrink
    ensures d in ParentPut(c, l, d).negative <==> d in l.negative
  {
    hide L.FlagsOk, L.Excess;
    var p := c.t.parent[d];
    if p != d && p !in l.shrink { L.CollectedOk(l, p, c.t.count[p] == 1); }
  }

  lemma KillUnusedSound(c: Cache, f: (Id, string) -> nat, d: Id, l: L.Lru)
    requires Sound(c, f) && d in c.t.parent && c.t.count[d] == 0
    ensures In(c, d) && Sound(Gone(c, d).(t := KillUnused(c.t, d), l := l), f)
  {
    hide TreeOk, X.IndexOk, X.HashesOk, X.DropHash, X.Forget, L.Killed;
    AllIn(c, f, d);
    KillUnusedOk(c.t, d);
    ForgetOk(c.x, c.t.parent, f, d);
    assert KillUnused(c.t, d).parent == c.t.parent - {d};
  }

  /** Reclaiming an unused dentry never spoils the counter: it comes off the list first. */
  lemma ShrinkKillOk(c: Cache, f: (Id, string) -> nat, d: Id)
    requires Sound(c, f) && d in c.t.parent && c.t.count[d] == 0
    ensures In(c, d) && Sound(ShrinkKill(c, d), f)
    ensures L.FlagsOk(c.l) && d in c.l.shrink ==> L.Drifts(c.l, ShrinkKill(c, d).l, 0)
  {
    hide Sound, L.FlagsOk, L.Excess, L.Killed, ParentPut, Gone, KillUnused, Placed;
    AllIn(c, f, d);
    KillUnusedSound(c, f, d, ShrinkKill(c, d).l);
    if L.FlagsOk(c.l) && d in c.l.shrink {
      var off := L.ShrinkDel(c.l, d);
      L.ShrinkDelOk(c.l, d);
      ParentPutOk(c, off, d);
      L.KilledOk(ParentPut(c, off, d), d);
    }
  }

  /** A third party's kill of an unused victim leaves it on its list, and so spoils the counter if it is positive. */
  lemma KillVictimOk(c: Cache, f: (Id, string) -> nat, d: Id)
    requires Sound(c, f) && d in c.t.parent && c.t.count[d] == 0
    ensures In(c, d) && Sound(KillVictim(c, d), f)
    ensures L.FlagsOk(c.l) && d in c.l.shrink ==> L.Drifts(c.l, KillVictim(c, d).l, if d in c.l.negative then 0 else 1)
    ensures L.FlagsOk(c.l) && d in c.l.shrink ==> d in KillVictim(c, d).l.shrink
  {
    hide Sound, L.FlagsOk, L.Excess, Gone, KillUnused, Placed;
    AllIn(c, f, d);
    KillUnusedSound(c, f, d, KillVictim(c, d).l);
    if L.FlagsOk(c.l) && d in c.l.shrink {
      ParentPutOk(c, c.l, d);
      L.KilledOk(ParentPut(c, c.l, d), d);
    }
  }

  lemma MoveOverOk(c: Cache, f: (Id, string) -> nat, d: Id, target: Id)
    requires Sound(c, f) && d in c.t.parent && target in c.t.parent && d != target
    requires Unrelated(c.t.parent, d, target) && c.t.parent[target] != target
    ensures In(c, d) && In(c, target) && Sound(MoveOver(c, d, target), f)
  {
    hide TreeOk, X.IndexOk, X.HashesOk, X.Moved, Unrelated;
    AllIn(c, f, d);
    AllIn(c, f, target);
    NotOver(c.t.parent, d, target);
    MoveOk(c.t, d, target);
    X.MovedOk(c.x, c.t.parent, d, target);
    X.MovedHashes(c.x, c.t.parent, f, d, target);
    assert Move(c.t, d, target).parent == c.t.parent[d := c.t.parent[target]];
  }

  lemma NotOver(par: Parents, d: Id, target: Id)
    requires d in par && target in par && d != target && Unrelated(par, d, target)
    ensures par[target] != d && par[d] != target
  {
    hide Reaches;
    NotUnder(par, d, target);
    NotUnder(par, target, d);
  }

  lemma SwapOk(c: Cache, f: (Id, string) -> nat, d: Id, target: Id)
    requires Sound(c, f) && d in c.t.parent && target in c.t.parent && d != target
    requires Unrelated(c.t.parent, d, target) && c.t.parent[target] != target && c.t.parent[d] != d
    ensures In(c, d) && In(c, target) && Sound(Swap(c, d, target), f)
  {
    hide TreeOk, X.IndexOk, X.HashesOk, X.Exchanged, Unrelated;
    AllIn(c, f, d);
    AllIn(c, f, target);
    NotOver(c.t.parent, d, target);
    ExchangeOk(c.t, d, target);
    X.ExchangedOk(c.x, c.t.parent, d, target);
    X.ExchangedHashes(c.x, c.t.parent, f, d, target);
    assert Exchange(c.t, d, target).parent == c.t.parent[d := c.t.parent[target]][target := c.t.parent[d]];
  }

  /** Exchanging twice puts parents, names, hashes and counts back. */
  lemma SwapTwice(c: Cache, f: (Id, string) -> nat, d: Id, target: Id)
    requires Sound(c, f) && d in c.t.parent && target in c.t.parent && d != target
    requires Unrelated(c.t.parent, d, target) && c.t.parent[target] != target && c.t.parent[d] != d
    ensures In(c, d) && In(c, target) && In(Swap(c, d, target), d) && In(Swap(c, d, target), target)
    ensures var back := Swap(Swap(c, d, target), d, target);
      && back.t.parent == c.t.parent && back.t.count == c.t.count && back.t.ext == c.t.ext
      && back.x.name == c.x.name && back.x.hash == c.x.hash
  {
    hide TreeOk, X.IndexOk, X.HashesOk, Relist, X.Exchanged, Unrelated, Domains;
    AllIn(c, f, d);
    AllIn(c, f, target);
    SwapOk(c, f, d, target);
    var once := Swap(c, d, target);
    AllIn(once, f, d);
    AllIn(once, f, target);
    X.ExchangedNames(c.x, c.t.parent, d, target);
    X.ExchangedNames(once.x, once.t.parent, d, target);
    assert once.t.parent[d := c.t.parent[d]][target := c.t.parent[target]] == c.t.parent;
  }
}
