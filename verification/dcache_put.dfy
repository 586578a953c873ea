/** What dput does, as a recursion, and which dentries it kills. */
module DcachePut {
  import opened Forests
  import opened Helpers
  import opened DcacheTree
  import opened DcacheState
  import X = DcacheIndex
  import L = DcacheLru

  /** The caller holds a reference on d. */
  ghost predicate Held(c: Cache, d: Id) {
    TreeOk(c.t) && X.Keyed(c.x, c.t.parent) && d in c.t.parent && c.t.ext[d] > 0
  }

  lemma HeldIsIn(c: Cache, d: Id)
    requires Held(c, d)
    ensures In(c, d) && c.t.count[d] >= 1
  {
    hide IsForest, ListOk, Kids;
    PlacedIn(c.t, d);
    assert RefOk(c.t, d);
  }

  lemma KillTree(t: Tree, d: Id)
    requires TreeOk(t) && d in t.parent && t.ext[d] > 0 && t.count[d] == 1
    ensures Placed(t, d) && TreeOk(Kill(t, d)) && Kids(t.parent, d) == {} && Kill(t, d).parent == t.parent - {d}
    ensures var p := t.parent[d]; p != d ==> p in Kill(t, d).parent && Kill(t, d).ext[p] > 0
    ensures |Kill(t, d).parent| < |t.parent|
  {
    hide TreeOk, Kids;
    KillOk(t, d);
    LastRefHasNoKids(t, d);
    Fewer(t.parent, d);
  }

  lemma KillKeyed(c: Cache, d: Id)
    requires In(c, d)
    ensures X.Keyed(KillLast(c, d).x, c.t.parent - {d})
  {
    hide L.Killed;
    DropKeys(c.x, c.t.parent, d);
  }

  lemma KillStep(c: Cache, d: Id)
    requires Held(c, d) && c.t.count[d] == 1
    ensures In(c, d) && c.t.parent[d] in c.t.parent && Kids(c.t.parent, d) == {}
    ensures KillLast(c, d).t == Kill(c.t, d) && KillLast(c, d).t.parent == c.t.parent - {d}
    ensures TreeOk(KillLast(c, d).t) && X.Keyed(KillLast(c, d).x, KillLast(c, d).t.parent)
    ensures c.t.parent[d] != d ==> Held(KillLast(c, d), c.t.parent[d])
    ensures |KillLast(c, d).t.parent| < |c.t.parent|
  {
    hide TreeOk, X.DropHash, L.Killed, Kids, Kill, X.Keyed;
    HeldIsIn(c, d);
    KillTree(c.t, d);
    KillKeyed(c, d);
  }

  lemma DropKeys(x: X.Index, par: Parents, d: Id)
    requires X.Keyed(x, par) && d in par
    ensures X.Keyed(X.DropHash(x, d, par[d] == d), par)
    ensures X.DropHash(x, d, par[d] == d).hashed == x.hashed - {d}
    ensures X.DropHash(x, d, par[d] == d).name == x.name && X.DropHash(x, d, par[d] == d).hash == x.hash
  {
  }

  /** Drop one reference; if it was the last and the dentry is not to be kept, kill it and drop the one on its
      parent. */
  ghost function Put(c: Cache, d: Id): Cache
    requires Held(c, d)
    decreases |c.t.parent|
  {
    HeldIsIn(c, d);
    if c.t.count[d] > 1 then c.(t := Drop(c.t, d))
    else if Retains(c, d) then Retain(c, d)
    else
      KillStep(c, d);
      var p, killed := c.t.parent[d], KillLast(c, d);
      if p == d then killed else Put(killed, p)
  }

  lemma HeldIfSound(c: Cache, f: (Id, string) -> nat, d: Id)
    requires Sound(c, f) && d in c.t.parent && c.t.ext[d] > 0
    ensures Held(c, d)
  {
    hide TreeOk, X.RootsOk, X.BucketOk, X.HashesOk;
  }

  /** dput keeps references and hash table right all the way up. */
  lemma {:induction false} PutSound(c: Cache, f: (Id, string) -> nat, d: Id)
    requires Sound(c, f) && d in c.t.parent && c.t.ext[d] > 0
    ensures Held(c, d) && Sound(Put(c, d), f)
    decreases |c.t.parent|
  {
    hide TreeOk, X.IndexOk, X.HashesOk, Retains, Retain, Drop, KillLast, Held;
    HeldIfSound(c, f, d);
    HeldIsIn(c, d);
    if c.t.count[d] > 1 {
      DropOk(c.t, d);
      DropShape(c.t, d);
    } else if Retains(c, d) {
      RetainOk(c, f, d);
    } else {
      KillStep(c, d);
      KillLastOk(c, f, d);
      if c.t.parent[d] != d {
        HeldNow(KillLast(c, d), c.t.parent[d]);
        PutSound(KillLast(c, d), f, c.t.parent[d]);
      }
    }
  }

  lemma HeldNow(c: Cache, d: Id)
    requires Held(c, d)
    ensures d in c.t.parent && Domains(c.t) && c.t.ext[d] > 0
  {
  }

  lemma DropShape(t: Tree, d: Id)
    requires Placed(t, d) && t.ext[d] > 0
    ensures Drop(t, d).parent == t.parent
  {
  }

  // ---- who dies ----

  /** The next reference dropped kills d. */
  predicate Dies(c: Cache, d: Id)
    requires Domains(c.t) && d in c.t.parent
  {
    c.t.count[d] == 1 && !Retains(c, d)
  }

  /** How many ancestors in a row, from d on, would go with their last reference. */
  ghost function ChainLength(c: Cache, d: Id): nat
    requires TreeOk(c.t) && d in c.t.parent
    decreases (assert HasRoot(c.t.parent, d); Depth(c.t.parent, d))
  {
    assert HasRoot(c.t.parent, d);
    DepthStep(c.t.parent, d);
    HasRootIn(c.t.parent, c.t.parent[d]);
    if !Dies(c, d) then 0
    else if c.t.parent[d] == d then 1
    else 1 + ChainLength(c, c.t.parent[d])
  }

  /** d and the ancestors above it, n in all. */
  ghost function Chain(par: Parents, d: Id, n: nat): set<Id> { set j: nat | j < n :: Up(par, d, j) }

  /** A kill leaves the other dentries as they are, but that the parent's reference is now the caller's. */
  lemma OthersSame(c: Cache, d: Id, x: Id)
    requires In(c, d) && x in c.t.parent && x != d
    ensures var k := KillLast(c, d); x in k.t.parent && x in k.t.count && x in k.t.ext && k.t.count[x] == c.t.count[x]
    ensures KillLast(c, d).t.ext[x] == c.t.ext[x] + if x == c.t.parent[d] then 1 else 0
    ensures Retains(KillLast(c, d), x) <==> Retains(c, x)
  {
    hide L.Killed;
    DropKeys(c.x, c.t.parent, d);
  }

  lemma {:induction false} ChainSame(c: Cache, d: Id, x: Id)
    requires Held(c, d) && c.t.count[d] == 1 && x in c.t.parent && x != d
    ensures In(c, d) && TreeOk(KillLast(c, d).t) && x in KillLast(c, d).t.parent
    ensures ChainLength(KillLast(c, d), x) == ChainLength(c, x)
    decreases (assert HasRoot(c.t.parent, x); Depth(c.t.parent, x))
  {
    hide Depth, HasRoot, KillLast, Retains, Kids, ListsOk, RefsOk;
    var par := c.t.parent;
    assert HasRoot(par, x);
    DepthStep(par, x);
    ParentIn(par, x);
    KillStep(c, d);
    OthersSame(c, d, x);
    NotParentOf(par, d, x);
    if Dies(c, x) && par[x] != x { ChainSame(c, d, par[x]); }
  }

  lemma NotParentOf(par: Parents, d: Id, x: Id)
    requires Kids(par, d) == {} && x in par && x != d
    ensures par[x] != d
  {
    assert par[x] == d ==> x in Kids(par, d);
  }

  lemma ChainSplit(par: Parents, d: Id, n: nat)
    requires d in par && Kids(par, d) == {} && par[d] != d && n > 0
    ensures Chain(par, d, n) == {d} + Chain(par - {d}, par[d], n - 1)
    ensures Up(par, d, n) == Up(par - {d}, par[d], n - 1)
  {
    var less, p := par - {d}, par[d];
    forall j: nat ensures Up(less, p, j) == Up(par, d, j + 1) { UpOut(par, p, j, d); }
    forall x | x in Chain(par, d, n) ensures x in {d} + Chain(less, p, n - 1) {
      var j: nat :| j < n && x == Up(par, d, j);
      if j > 0 { assert x == Up(less, p, j - 1); }
    }
    forall x | x in {d} + Chain(less, p, n - 1) ensures x in Chain(par, d, n) {
      if x == d { assert x == Up(par, d, 0); } else {
        var j: nat :| j < n - 1 && x == Up(less, p, j);
        assert x == Up(par, d, j + 1);
      }
    }
  }

  lemma ChainOfOne(par: Parents, d: Id)
    ensures Chain(par, d, 0) == {} && Chain(par, d, 1) == {d}
  {
    assert Up(par, d, 0) == d;
  }

  /** One reference fewer on a, and d's caller has one fewer; the rest is as it was. */
  ghost predicate OneLess(t: Tree, t': Tree, gone: set<Id>, a: Id, d: Id)
    requires Domains(t)
  {
    && t'.parent == t.parent - gone
    && t'.count.Keys == t.parent.Keys - gone
    && t'.ext.Keys == t.parent.Keys - gone
    && forall x {:trigger LessAt(t, t', a, d, x)} :: x in t.parent && x !in gone ==> LessAt(t, t', a, d, x)
  }

  predicate LessAt(t: Tree, t': Tree, a: Id, d: Id, x: Id)
    requires x in t.count && x in t.ext
  {
    && x in t'.count && t'.count[x] + One(x == a) == t.count[x]
    && x in t'.ext && t'.ext[x] + One(x == d) == t.ext[x]
  }

  /** dput kills the dentries in a row from d up that are on their last reference and not to be kept, and no other. */
  lemma {:induction false} PutKillsChain(c: Cache, d: Id)
    requires Held(c, d)
    ensures ChainKilled(c, d, Put(c, d))
    decreases |c.t.parent|
  {
    hide Depth, HasRoot, Retains, Kids, TreeOk, KillLast, Retain, ChainKilled, Drop, Domains, X.Keyed;
    HeldIsIn(c, d);
    if !Dies(c, d) {
      KeptOne(c, d);
    } else {
      KillStep(c, d);
      var p := c.t.parent[d];
      if p == d {
        RootGone(c, d);
      } else {
        PutKillsChain(KillLast(c, d), p);
        Onward(c, d, Put(KillLast(c, d), p));
      }
    }
  }

  /** c' is c without the row of dying ancestors from d up, and with one count less above it. */
  ghost predicate ChainKilled(c: Cache, d: Id, c': Cache)
    requires TreeOk(c.t) && d in c.t.parent
  {
    var n := ChainLength(c, d);
    OneLess(c.t, c'.t, Chain(c.t.parent, d, n), Up(c.t.parent, d, n), d)
  }

  lemma KeptOne(c: Cache, d: Id)
    requires Held(c, d) && !Dies(c, d)
    ensures ChainKilled(c, d, Put(c, d))
  {
    hide ListsOk, RefsOk, IsForest, L.Retained, Retains, Drop, OneLess, Chain;
    HeldIsIn(c, d);
    DropOne(c.t, d);
    ChainOfOne(c.t.parent, d);
  }

  lemma DropOne(t: Tree, d: Id)
    requires Placed(t, d) && t.ext[d] > 0
    ensures OneLess(t, Drop(t, d), {}, d, d)
  {
    assert t.parent - {} == t.parent && t.parent.Keys - {} == t.parent.Keys;
  }

  lemma RootGone(c: Cache, d: Id)
    requires Held(c, d) && Dies(c, d) && c.t.parent[d] == d
    ensures In(c, d) && ChainKilled(c, d, KillLast(c, d))
  {
    hide ListsOk, RefsOk, IsForest, Retains, Chain, OneLess, KillLast;
    HeldIsIn(c, d);
    ChainOfOne(c.t.parent, d);
    RootLess(c, d);
  }

  lemma RootLess(c: Cache, d: Id)
    requires In(c, d) && c.t.parent[d] == d && c.t.ext[d] > 0
    ensures OneLess(c.t, KillLast(c, d).t, {d}, d, d)
  {
  }

  lemma Onward(c: Cache, d: Id, c': Cache)
    requires Held(c, d) && Dies(c, d) && c.t.parent[d] != d
    requires In(c, d) && TreeOk(KillLast(c, d).t) && c.t.parent[d] in KillLast(c, d).t.parent
    requires ChainKilled(KillLast(c, d), c.t.parent[d], c')
    ensures ChainKilled(c, d, c')
  {
    hide ListsOk, RefsOk, IsForest, Retains, Chain, OneLess, KillLast, Kids, Kill, Up, X.Keyed, Depth;
    KillStep(c, d);
    ChainSame(c, d, c.t.parent[d]);
    var m := ChainLength(c, c.t.parent[d]);
    ChainSplit(c.t.parent, d, m + 1);
    Joined(c.t, d, c'.t, Chain(c.t.parent - {d}, c.t.parent[d], m), Up(c.t.parent, d, m + 1));
  }

  lemma Joined(t: Tree, d: Id, t': Tree, gone: set<Id>, a: Id)
    requires Placed(t, d) && t.parent[d] != d && Domains(Kill(t, d)) && OneLess(Kill(t, d), t', gone, a, t.parent[d])
    ensures OneLess(t, t', {d} + gone, a, d)
  {
    hide Remove;
    var k := Kill(t, d);
    assert k.parent == t.parent - {d};
    assert t.parent - {d} - gone == t.parent - ({d} + gone);
    forall x | x in t.parent && x !in {d} + gone
      ensures LessAt(t, t', a, d, x)
    {
      assert LessAt(k, t', a, t.parent[d], x);
    }
  }

  // ---- what the others keep ----

  /** Of a dentry x that stays: names, flags and children, but that a may have lost a child and gone on the LRU. */
  predicate SpareAt(c: Cache, c': Cache, a: Id, last: Option<Id>, x: Id)
    requires x in c.t.subdirs && x in c.t.count && x in c.x.name && x in c.x.hash
  {
    && x in c'.t.subdirs && x in c'.x.name && x in c'.x.hash
    && c'.t.subdirs[x] == (if x == a && last.Some? then Remove(c.t.subdirs[x], last.value) else c.t.subdirs[x])
    && c'.x.name[x] == c.x.name[x] && c'.x.hash[x] == c.x.hash[x]
    && (x in c'.l.lru <==> x in c.l.lru || (x == a && c.t.count[x] == 1))
    && (x in c'.l.shrink <==> x in c.l.shrink) && (x in c'.l.negative <==> x in c.l.negative)
    && (x != a ==> (x in c'.referenced <==> x in c.referenced))
  }

  /** What does not go is as it was, but that a lost its child last, if there is one, and stays on the LRU if that was
      its last reference. */
  ghost predicate Spared(c: Cache, c': Cache, gone: set<Id>, a: Id, last: Option<Id>)
    requires Whole(c)
  {
    && c'.flags == c.flags && c'.x.hashed == c.x.hashed - gone
    && forall x {:trigger SpareAt(c, c', a, last, x)} :: x in c.t.parent && x !in gone ==> SpareAt(c, c', a, last, x)
  }

  /** The uppermost of n dentries from d up. */
  function Topmost(par: Parents, d: Id, n: nat): Option<Id> { if n == 0 then None else Some(Up(par, d, n - 1)) }

  /** dput leaves all that it does not kill hashed and named as it was, and on the lists it was on. */
  lemma {:induction false} PutSparesRest(c: Cache, d: Id)
    requires Held(c, d)
    ensures Whole(c)
    ensures var par, n := c.t.parent, ChainLength(c, d);
            Spared(c, Put(c, d), Chain(par, d, n), Up(par, d, n), Topmost(par, d, n))
    decreases |c.t.parent|
  {
    hide Depth, HasRoot, Retains, Kids, TreeOk, KillLast, Retain, Spared, Drop, X.Keyed, Chain, Up;
    HeldIsIn(c, d);
    HeldNow(c, d);
    var par, p := c.t.parent, c.t.parent[d];
    ChainOfOne(par, d);
    FirstUp(par, d);
    if !Dies(c, d) {
      KeptSpares(c, d);
    } else {
      KillStep(c, d);
      if p == d {
        RootSpares(c, d);
      } else {
        var m := ChainLength(c, p);
        PutSparesRest(KillLast(c, d), p);
        ChainSame(c, d, p);
        ChainSplit(par, d, m + 1);
        if m > 0 { ChainSplit(par, d, m); TopIn(par - {d}, p, m); }
        KillSpares(c, d, Put(KillLast(c, d), p), Chain(par - {d}, p, m), Up(par, d, m + 1), Topmost(par - {d}, p, m));
      }
    }
  }

  lemma FirstUp(par: Parents, d: Id)
    requires d in par
    ensures Up(par, d, 0) == d && Up(par, d, 1) == par[d]
  {
    assert Up(par, d, 0) == d;
  }

  lemma TopIn(par: Parents, d: Id, n: nat)
    requires n > 0
    ensures d in Chain(par, d, n)
  {
    assert Up(par, d, 0) == d;
  }

  lemma KeptSpares(c: Cache, d: Id)
    requires Held(c, d) && In(c, d) && !Dies(c, d)
    ensures Spared(c, Put(c, d), {}, d, None)
  {
    hide TreeOk, Retains;
    HeldIsIn(c, d);
  }

  /** What killing d does to another dentry: only its parent's children change. */
  lemma KillAt(c: Cache, d: Id, x: Id)
    requires In(c, d) && x in c.t.parent && x != d
    ensures var k := KillLast(c, d);
      && x in k.t.parent && x in k.t.count && k.t.count[x] == c.t.count[x] && x in k.t.subdirs
      && k.t.subdirs[x] == (if x == c.t.parent[d] then Remove(c.t.subdirs[x], d) else c.t.subdirs[x])
      && x in k.x.name && x in k.x.hash && k.x.name[x] == c.x.name[x] && k.x.hash[x] == c.x.hash[x]
      && (x in k.l.lru <==> x in c.l.lru) && (x in k.l.shrink <==> x in c.l.shrink)
      && (x in k.l.negative <==> x in c.l.negative)
  {
    hide Remove, Kill, X.DropHash, L.Killed;
    KillTreeAt(c.t, d, x);
    DropKeys(c.x, c.t.parent, d);
    KilledOnly(c.l, d, x);
  }

  lemma KillTreeAt(t: Tree, d: Id, x: Id)
    requires Placed(t, d) && Domains(t) && x in t.parent && x != d
    ensures var k := Kill(t, d);
      && x in k.parent && x in k.count && k.count[x] == t.count[x] && x in k.subdirs
      && k.subdirs[x] == if x == t.parent[d] then Remove(t.subdirs[x], d) else t.subdirs[x]
  {
    hide Remove;
  }

  lemma KilledOnly(l: L.Lru, d: Id, x: Id)
    requires x != d
    ensures var l' := L.Killed(l, d);
      (x in l'.lru <==> x in l.lru) && (x in l'.shrink <==> x in l.shrink) && (x in l'.negative <==> x in l.negative)
  {
  }

  lemma KillShape(c: Cache, d: Id)
    requires In(c, d)
    ensures var k := KillLast(c, d);
      && k.t.parent == c.t.parent - {d} && k.x.hashed == c.x.hashed - {d} && k.flags == c.flags
      && k.referenced == c.referenced
  {
    hide L.Killed, X.DropHash;
    DropKeys(c.x, c.t.parent, d);
  }

  lemma RootSpares(c: Cache, d: Id)
    requires In(c, d) && c.t.parent[d] == d
    ensures Spared(c, KillLast(c, d), {d}, d, Some(d))
  {
    hide KillLast;
    KillShape(c, d);
    forall x | x in c.t.parent && x !in {d} ensures SpareAt(c, KillLast(c, d), d, Some(d), x) { KillAt(c, d, x); }
  }

  lemma KillSpares(c: Cache, d: Id, c': Cache, gone: set<Id>, a: Id, last: Option<Id>)
    requires In(c, d) && c.t.parent[d] != d && Whole(KillLast(c, d)) && Spared(KillLast(c, d), c', gone, a, last)
    requires if last.None? then a == c.t.parent[d] else c.t.parent[d] in gone
    ensures Spared(c, c', {d} + gone, a, if last.None? then Some(d) else last)
  {
    hide KillLast;
    KillShape(c, d);
    var k, last' := KillLast(c, d), if last.None? then Some(d) else last;
    forall x | x in c.t.parent && x !in {d} + gone ensures SpareAt(c, c', a, last', x) {
      KillAt(c, d, x);
      assert SpareAt(k, c', a, last, x);
    }
  }

  // ---- what dput decides ----

  /** What is dead already stays on the lists it is on, and is hashed nowhere. */
  lemma {:induction false} PutSparesDead(c: Cache, d: Id, x: Id)
    requires Held(c, d) && x !in c.t.parent
    ensures x !in Put(c, d).t.parent && x !in Put(c, d).x.hashed
    ensures x in Put(c, d).l.lru <==> x in c.l.lru
    decreases |c.t.parent|
  {
    hide TreeOk, KillLast, Retains, Kids, Drop;
    HeldIsIn(c, d);
    if c.t.count[d] > 1 { DropShape(c.t, d); }
    else if Retains(c, d) { DropShape(c.t, d); }
    else {
      KillStep(c, d);
      KillShape(c, d);
      KilledOnly(c.l, d, x);
      KillLists(c, d);
      if c.t.parent[d] != d { PutSparesDead(KillLast(c, d), c.t.parent[d], x); }
    }
  }

  lemma KillLists(c: Cache, d: Id)
    requires In(c, d)
    ensures KillLast(c, d).l == L.Killed(c.l, d)
    ensures d in L.Killed(c.l, d).lru <==> d in c.l.lru && d in c.l.shrink
  {
    hide X.DropHash, X.Forget, Kill;
  }

  /** Who stays and who goes, and where they are then, in fields. */
  lemma PutDecides(c: Cache, d: Id)
    requires Held(c, d)
    ensures var c' := Put(c, d);
      && (c.t.count[d] > 1 ==>
            && c'.t.parent == c.t.parent && c'.l == c.l && c'.x == c.x
            && c'.t.count == c.t.count[d := c.t.count[d] - 1] && c'.t.ext == c.t.ext[d := c.t.ext[d] - 1])
      && (c.t.count[d] == 1 ==>
            (d in c'.t.parent <==>
              && d in c.x.hashed && d !in c.flags.disconnected && d !in c.flags.dontCache
              && (d in c.flags.opDelete ==> d !in c.flags.refuses)))
      && (c.t.count[d] == 1 && d in c'.t.parent ==>
            c'.t.parent == c.t.parent && d in c'.l.lru && d in c'.t.count && c'.t.count[d] == 0)
      && (d !in c'.t.parent ==>
            d !in c'.x.hashed && (d in c'.l.lru <==> d in c.l.lru && d in c.l.shrink))
  {
    hide TreeOk, KillLast, Kids;
    HeldIsIn(c, d);
    if Dies(c, d) {
      KillStep(c, d);
      KillShape(c, d);
      KillLists(c, d);
      if c.t.parent[d] != d { PutSparesDead(KillLast(c, d), c.t.parent[d], d); }
    }
  }

  // ---- the counter of negative dentries ----

  /** Killed where it is, d leaves nr_dentry_negative one too high. */
  predicate Spoils(c: Cache, d: Id) { d !in c.l.negative && d in c.l.shrink }

  /** How many of those that die do so. */
  ghost function ChainDrift(c: Cache, d: Id): nat
    requires TreeOk(c.t) && d in c.t.parent
    decreases (assert HasRoot(c.t.parent, d); Depth(c.t.parent, d))
  {
    assert HasRoot(c.t.parent, d);
    DepthStep(c.t.parent, d);
    HasRootIn(c.t.parent, c.t.parent[d]);
    if !Dies(c, d) then 0
    else (if Spoils(c, d) then 1 else 0) + if c.t.parent[d] == d then 0 else ChainDrift(c, c.t.parent[d])
  }

  lemma OthersSpoilSame(c: Cache, d: Id, x: Id)
    requires In(c, d) && x != d
    ensures Spoils(KillLast(c, d), x) <==> Spoils(c, x)
  {
  }

  lemma {:induction false} ChainDriftSame(c: Cache, d: Id, x: Id)
    requires Held(c, d) && c.t.count[d] == 1 && x in c.t.parent && x != d
    ensures In(c, d) && TreeOk(KillLast(c, d).t) && x in KillLast(c, d).t.parent
    ensures ChainDrift(KillLast(c, d), x) == ChainDrift(c, x)
    decreases (assert HasRoot(c.t.parent, x); Depth(c.t.parent, x))
  {
    hide Depth, HasRoot, KillLast, Retains, Kids, ListsOk, RefsOk, Spoils;
    var par := c.t.parent;
    assert HasRoot(par, x);
    DepthStep(par, x);
    ParentIn(par, x);
    KillStep(c, d);
    OthersSame(c, d, x);
    OthersSpoilSame(c, d, x);
    NotParentOf(par, d, x);
    if Dies(c, x) && par[x] != x { ChainDriftSame(c, d, par[x]); }
  }

  /** dput moves the counter by the positive dentries on shrink lists that it kills. */
  lemma {:induction false} PutDrifts(c: Cache, f: (Id, string) -> nat, d: Id)
    requires Sound(c, f) && d in c.t.parent && c.t.ext[d] > 0 && L.FlagsOk(c.l)
    ensures Held(c, d) && L.Drifts(c.l, Put(c, d).l, ChainDrift(c, d))
    decreases |c.t.parent|
  {
    hide Depth, HasRoot, ListsOk, RefsOk, IsForest, X.IndexOk, X.HashesOk, Retains, Retain, Drop, KillLast, Held,
      L.FlagsOk, L.Excess;
    HeldIfSound(c, f, d);
    HeldIsIn(c, d);
    if c.t.count[d] == 1 && Retains(c, d) { RetainOk(c, f, d); }
    if Dies(c, d) {
      KillStep(c, d);
      KillLastOk(c, f, d);
      var p := c.t.parent[d];
      if p != d {
        HeldNow(KillLast(c, d), p);
        PutDrifts(KillLast(c, d), f, p);
        ChainDriftSame(c, d, p);
      }
    }
  }

  lemma {:induction false} DriftOfChain(c: Cache, d: Id)
    requires TreeOk(c.t) && d in c.t.parent
    ensures ChainDrift(c, d) == 0 <==> forall x :: x in Chain(c.t.parent, d, ChainLength(c, d)) ==> !Spoils(c, x)
    decreases (assert HasRoot(c.t.parent, d); Depth(c.t.parent, d))
  {
    hide Depth, HasRoot, Retains, ListsOk, RefsOk, Spoils, Chain;
    var par := c.t.parent;
    assert HasRoot(par, d);
    DepthStep(par, d);
    ParentIn(par, d);
    ChainOfOne(par, d);
    if Dies(c, d) && par[d] != d {
      DriftOfChain(c, par[d]);
      ChainFromParent(par, d, ChainLength(c, par[d]));
    }
  }

  lemma ChainFromParent(par: Parents, d: Id, n: nat)
    requires d in par
    ensures Chain(par, d, n + 1) == {d} + Chain(par, par[d], n)
  {
    forall j: nat ensures Up(par, d, j + 1) == Up(par, par[d], j) { }
    forall x | x in Chain(par, d, n + 1) ensures x in {d} + Chain(par, par[d], n) {
      var j: nat :| j < n + 1 && x == Up(par, d, j);
      if j > 0 { assert x == Up(par, par[d], j - 1); }
    }
    forall x | x in {d} + Chain(par, par[d], n) ensures x in Chain(par, d, n + 1) {
      if x == d { assert x == Up(par, d, 0); } else {
        var j: nat :| j < n && x == Up(par, par[d], j);
        assert x == Up(par, d, j + 1);
      }
    }
  }

  /** dput keeps the whole cache right just when nobody it kills is a positive dentry on a shrink list. */
  lemma PutOk(c: Cache, f: (Id, string) -> nat, d: Id)
    requires CacheOk(c, f) && d in c.t.parent && c.t.ext[d] > 0
    ensures Held(c, d)
    ensures CacheOk(Put(c, d), f) <==>
      forall x :: x in Chain(c.t.parent, d, ChainLength(c, d)) ==> x in c.l.negative || x !in c.l.shrink
  {
    hide TreeOk, X.IndexOk, X.HashesOk, L.FlagsOk, L.Excess, Put, Chain, ChainLength, ChainDrift;
    PutSound(c, f, d);
    PutDrifts(c, f, d);
    DriftOfChain(c, d);
  }
}
