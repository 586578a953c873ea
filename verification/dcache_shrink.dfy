/** shrink_dcache_parent: what a round of it selects, and which dentries survive. */
module DcacheShrink {
  import opened Forests
  import opened DcacheTree
  import opened DcacheWalk
  import opened DcacheVisits
  import L = DcacheLru

  // ---- select_collect ----

  /** struct select_data with the lists it works on; clock counts the calls of need_resched. */
  datatype Select = Select(l: L.Lru, dispose: seq<Id>, found: nat, clock: nat)

  predicate Unused(count: map<Id, int>, d: Id) { d in count && count[d] == 0 }

  function SelectCollect(start: Id, count: map<Id, int>, needResched: nat -> bool, data: Select, d: Id): (Select, Ret) {
    if d == start then (data, Continue)
    else
      var data' :=
        if d in data.l.shrink then data.(found := data.found + 1)
        else if Unused(count, d) then
          data.(l := L.Collected(data.l, d, true), dispose := [d] + data.dispose, found := data.found + 1)
        else data.(l := L.Collected(data.l, d, false));
      if data'.dispose == [] then (data', Continue)
      else (data'.(clock := data'.clock + 1), if needResched(data'.clock) then Quit else NoRetry)
  }

  function Collector(start: Id, count: map<Id, int>, needResched: nat -> bool): Enter<Select> {
    (data: Select, d: Id) => SelectCollect(start, count, needResched, data, d)
  }

  /** One call, field by field: what is on a list already is counted, what is unused goes on the dispose list and is
      counted, what is in use comes off the real list; and the walk goes on for good only while nothing was found. */
  lemma SelectFields(start: Id, count: map<Id, int>, needResched: nat -> bool, data: Select, d: Id)
    requires d in count && L.FlagsOk(data.l)
    ensures var (out, ret) := SelectCollect(start, count, needResched, data, d);
      var mine := d != start && d !in data.l.shrink && count[d] == 0;
      && out.found == data.found + (if d != start && (d in data.l.shrink || count[d] == 0) then 1 else 0)
      && out.dispose == (if mine then [d] + data.dispose else data.dispose)
      && out.l.shrink == (if mine then data.l.shrink + {d} else data.l.shrink)
      && out.l.lru == (if mine then data.l.lru + {d} else if d == start || d in data.l.shrink then data.l.lru
                       else data.l.lru - {d})
      && (ret.Continue? <==> d == start || out.dispose == [])
      && (ret.Quit? <==> d != start && out.dispose != [] && needResched(data.clock))
      && (ret.NoRetry? <==> d != start && out.dispose != [] && !needResched(data.clock))
      && out.clock == data.clock + (if ret.Continue? then 0 else 1)
  {
  }

  /** The shrink flags are those of the dispose list, which holds unused dentries other than the start and is as long as
      found says. */
  ghost predicate SelectOk(start: Id, count: map<Id, int>, data: Select) {
    && L.FlagsOk(data.l) && NoDup(data.dispose)
    && (forall d :: d in data.l.shrink <==> d in data.dispose)
    && (forall d :: d in data.dispose ==> Unused(count, d) && d != start)
    && data.found == |data.dispose|
  }

  lemma SelectKeeps(start: Id, count: map<Id, int>, needResched: nat -> bool, data: Select, d: Id)
    requires SelectOk(start, count, data) && d !in data.dispose
    ensures var data' := SelectCollect(start, count, needResched, data, d).0;
      && SelectOk(start, count, data') && L.Excess(data'.l) == L.Excess(data.l)
      && (data'.dispose == data.dispose || (data'.dispose == [d] + data.dispose))
      && (data'.dispose == [] ==> d == start || !Unused(count, d))
      && (d in data'.l.lru ==> d == start || d in data'.dispose)
      && (forall x :: x != d ==> (x in data'.l.lru <==> x in data.l.lru))
  {
    hide L.FlagsOk, L.Excess;
    if d != start && d !in data.l.shrink {
      L.CollectedOk(data.l, d, Unused(count, d));
      assert d !in data.dispose;
      assert NoDup([d] + data.dispose);
    }
  }

  predicate AllNew(trace: seq<Id>, dispose: seq<Id>) { NoDup(trace) && forall d :: d in trace ==> d !in dispose }

  /** Along any list of new dentries: what is disposed of was entered, and if nothing is, none of them was unused. */
  lemma {:induction false} FoldSelects(start: Id, count: map<Id, int>, needResched: nat -> bool, data: Select,
                                       trace: seq<Id>)
    requires SelectOk(start, count, data) && AllNew(trace, data.dispose)
    ensures var out := Fold(Collector(start, count, needResched), data, trace);
      && SelectOk(start, count, out) && L.Excess(out.l) == L.Excess(data.l)
      && (forall d :: d in out.dispose ==> d in data.dispose || d in trace)
      && (out.dispose == [] ==> data.dispose == [] && forall d :: d in trace ==> d == start || !Unused(count, d))
      && (forall d :: d in data.dispose ==> d in out.dispose)
      && (forall d :: d in trace && d in out.l.lru ==> d == start || d in out.dispose)
      && (forall d :: d !in trace ==> (d in out.l.lru <==> d in data.l.lru))
    decreases |trace|
  {
    hide L.FlagsOk, L.Excess, SelectOk, SelectCollect;
    if trace != [] {
      var enter := Collector(start, count, needResched);
      SelectKeeps(start, count, needResched, data, trace[0]);
      assert AllNew(trace[1..], enter(data, trace[0]).0.dispose);
      FoldSelects(start, count, needResched, enter(data, trace[0]).0, trace[1..]);
      assert forall d :: d in trace <==> d == trace[0] || d in trace[1..];
    }
  }

  /** One walk of select_collect: what it disposes of lies below the start, and it comes back with nothing only if all
      is in use. */
  lemma OneRound(h: Hierarchy, start: Id, count: map<Id, int>, needResched: nat -> bool, data: Select, x: Id)
    requires Walkable(h) && start in h.par && CursorsAreLeaves(h)
    requires SelectOk(start, count, data) && data.dispose == []
    ensures var out := Visit(h, Collector(start, count, needResched), data, start).s;
      && SelectOk(start, count, out) && L.Excess(out.l) == L.Excess(data.l)
      && (x in out.dispose ==> x in Below(h.par, start))
      && (out.dispose == [] && x in Below(h.par, start) && x !in h.cursors && x != start ==>
            !Unused(count, x) && x !in out.l.lru)
      && (x !in Below(h.par, start) ==> (x in out.l.lru <==> x in data.l.lru))
  {
    hide IsForest, ListOk, Below, SelectOk, CursorsAreLeaves, Unused, Fold;
    var enter := Collector(start, count, needResched);
    var o := Visit(h, enter, data, start);
    VisitFolds(h, enter, data, start);
    VisitOnce(h, enter, data, start);
    FoldSelects(start, count, needResched, data, o.trace);
    VisitStaysBelow(h, enter, data, start, x);
    QuitMeans(h, enter, data, start, (out: Select) => out.dispose != []);
    if o.s.dispose == [] && x in Below(h.par, start) && x !in h.cursors {
      VisitCovers(h, enter, data, start, x);
    }
  }

  /** All below start but start itself and the cursors are off the LRU. */
  ghost predicate OffLru(par: Parents, lru: set<Id>, start: Id, cursors: set<Id>) {
    forall x :: x in Below(par, start) && x != start && x !in cursors ==> x !in lru
  }

  /** What is not below start is on the LRU as before. */
  ghost predicate SameOutside(par: Parents, start: Id, lru: set<Id>, lru': set<Id>) {
    forall x :: x !in Below(par, start) ==> (x in lru' <==> x in lru)
  }

  lemma SameOutsideThen(par: Parents, start: Id, a: set<Id>, b: set<Id>, c: set<Id>)
    ensures SameOutside(par, start, a, a)
    ensures SameOutside(par, start, a, b) && SameOutside(par, start, b, c) ==> SameOutside(par, start, a, c)
  {
    hide Below;
  }

  // ---- which dentries are to stay ----

  /** Somebody outside holds a reference on x or on a dentry below it. */
  ghost predicate Busy(t: Tree, x: Id)
    requires Domains(t)
  {
    exists y :: y in Below(t.parent, x) && t.ext[y] > 0
  }

  /** t is t0 less some dentries below start that were not busy. */
  ghost predicate Pruned(t0: Tree, t: Tree, start: Id)
    requires Domains(t0) && Domains(t)
  {
    && (forall x {:trigger x in t.parent} :: x in t.parent ==> Same(t0, t, x))
    && (forall x {:trigger x in t0.parent} :: x in t0.parent && x !in t.parent ==>
        x in Below(t0.parent, start) && !Busy(t0, x))
  }

  predicate Same(t0: Tree, t: Tree, x: Id)
    requires Domains(t0) && Domains(t) && x in t.parent
  {
    x in t0.parent && t.parent[x] == t0.parent[x] && t.ext[x] == t0.ext[x]
  }

  lemma PrunedSelf(t: Tree, start: Id)
    requires Domains(t)
    ensures Pruned(t, t, start)
  {
  }

  /** Who reached the start still does. */
  lemma {:induction false} UpSame(t0: Tree, t: Tree, start: Id, x: Id, k: nat)
    requires Domains(t0) && Domains(t) && Pruned(t0, t, start) && IsForest(t.parent) && x in t.parent
    ensures Up(t.parent, x, k) == Up(t0.parent, x, k)
    decreases k
  {
    hide HasRoot, Busy, Below;
    if k > 0 {
      assert Same(t0, t, x);
      ParentIn(t.parent, x);
      UpSame(t0, t, start, t.parent[x], k - 1);
    }
  }

  lemma BelowSame(t0: Tree, t: Tree, start: Id, x: Id)
    requires Domains(t0) && Domains(t) && Pruned(t0, t, start) && IsForest(t.parent) && x in t.parent
    ensures x in Below(t.parent, start) <==> x in Below(t0.parent, start)
  {
    assert Same(t0, t, x);
    if Reaches(t0.parent, x, start) {
      var k: nat :| Up(t0.parent, x, k) == start;
      UpSame(t0, t, start, x, k);
      UpReaches(t.parent, x, k);
    }
    if Reaches(t.parent, x, start) {
      var k: nat :| Up(t.parent, x, k) == start;
      UpSame(t0, t, start, x, k);
      UpReaches(t0.parent, x, k);
    }
  }

  lemma BusyUp(t: Tree, x: Id, c: Id)
    requires Domains(t) && IsForest(t.parent) && x in t.parent && c in Kids(t.parent, x) && Busy(t, c)
    ensures Busy(t, x)
  {
    hide IsForest, Reaches;
    BelowKid(t.parent, x, c);
    var y :| y in Below(t.parent, c) && t.ext[y] > 0;
    assert y in Below(t.parent, x);
  }

  lemma BusySelf(t: Tree, x: Id)
    requires Domains(t) && x in t.parent && t.ext[x] > 0
    ensures Busy(t, x)
  {
    ReachesSelf(t.parent, x);
    assert x in Below(t.parent, x);
  }

  /** Of a busy dentry without an outside reference some child is busy. */
  lemma BusyDown(t: Tree, x: Id)
    requires Domains(t) && x in t.parent && Busy(t, x) && t.ext[x] == 0
    ensures exists c :: c in Kids(t.parent, x) && Busy(t, c)
  {
    hide Reaches;
    var y :| y in Below(t.parent, x) && t.ext[y] > 0;
    BelowSplit(t.parent, x, y);
    var c :| c in Kids(t.parent, x) && y in Below(t.parent, c);
    assert Busy(t, c);
  }

  /** An unused dentry of the pruned tree was not busy at the beginning: it may go too. */
  lemma UnusedNotBusy(t0: Tree, t: Tree, start: Id, d: Id)
    requires TreeOk(t0) && TreeOk(t) && Pruned(t0, t, start) && d in t.parent && t.count[d] == 0
    ensures !Busy(t0, d)
  {
    hide IsForest, ListOk, Busy, Below;
    LastRefHasNoKids(t, d);
    assert Same(t0, t, d);
    if Busy(t0, d) {
      BusyDown(t0, d);
      var c :| c in Kids(t0.parent, d) && Busy(t0, c);
      StillChild(t0, t, start, d, c);
    }
  }

  lemma StillChild(t0: Tree, t: Tree, start: Id, d: Id, c: Id)
    requires Domains(t0) && Domains(t) && Pruned(t0, t, start) && c in Kids(t0.parent, d)
    ensures c in t.parent ==> c in Kids(t.parent, d)
  {
    hide Busy, Below;
    if c in t.parent { assert Same(t0, t, c); }
  }

  lemma KillUnusedShape(t: Tree, d: Id)
    requires Placed(t, d)
    ensures var t' := KillUnused(t, d); t'.parent == t.parent - {d} && Domains(t') && t'.ext == t.ext - {d}
  {
  }

  lemma PruneOne(t0: Tree, t: Tree, start: Id, d: Id)
    requires TreeOk(t0) && TreeOk(t) && Pruned(t0, t, start)
    requires d in t.parent && t.count[d] == 0 && d in Below(t0.parent, start)
    ensures Placed(t, d) && TreeOk(KillUnused(t, d)) && Pruned(t0, KillUnused(t, d), start)
  {
    hide IsForest, ListsOk, RefsOk, Busy, Below, KillUnused;
    KillUnusedOk(t, d);
    UnusedNotBusy(t0, t, start, d);
    KillUnusedShape(t, d);
    var t' := KillUnused(t, d);
    forall x | x in t'.parent ensures Same(t0, t', x) { assert Same(t0, t, x); }
  }

  /** When nothing below the start is unused, what is left there is busy. */
  lemma {:induction false} LeftAreBusy(t0: Tree, t: Tree, start: Id, x: Id)
    requires TreeOk(t0) && TreeOk(t) && Pruned(t0, t, start) && start in t.parent
    requires forall y :: y in Below(t.parent, start) ==> t.count[y] != 0
    requires x in Below(t.parent, start)
    ensures x in t0.parent && Busy(t0, x)
    decreases Below(t0.parent, x)
  {
    hide IsForest, ListOk, Busy, Reaches;
    assert Same(t0, t, x);
    assert RefOk(t, x);
    if t.ext[x] > 0 {
      BusySelf(t0, x);
    } else {
      assert Kids(t.parent, x) != {};
      var c :| c in Kids(t.parent, x);
      assert Same(t0, t, c);
      ReachesStep(t.parent, c, start);
      BelowKid(t0.parent, x, c);
      LeftAreBusy(t0, t, start, c);
      BusyUp(t0, x, c);
    }
  }
}
