/** shrink_dentry_list: what its list and the tree keep from one entry to the next. */
module DcacheReap {
  import opened Forests
  import opened DcacheTree
  import opened TreeMoves
  import opened DcacheState
  import opened DcacheShrink
  import X = DcacheIndex
  import L = DcacheLru

  /** The list holds, once each, the dentries with the shrink flag. */
  ghost predicate Flagged(shrink: set<Id>, list: seq<Id>) { NoDup(list) && forall d :: d in shrink <==> d in list }

  ghost predicate AllUnder(t0: Tree, t: Tree, start: Id, s: set<Id>) {
    forall d :: d in s ==> d in t.parent && d in Below(t0.parent, start)
  }

  /** The list holds just those with the shrink flag, all of them below start; start itself is held from outside. */
  ghost predicate Reapable(c: Cache, t0: Tree, start: Id, list: seq<Id>)
    requires Domains(t0) && Domains(c.t)
  {
    && Pruned(t0, c.t, start) && start in c.t.parent && c.t.ext[start] > 0
    && Flagged(c.l.shrink, list) && AllUnder(t0, c.t, start, c.l.shrink)
  }

  /** With an empty list nothing carries the flag. */
  lemma NothingListed(c: Cache, t0: Tree, start: Id)
    requires Domains(t0) && Domains(c.t)
    ensures Reapable(c, t0, start, []) <==>
      Pruned(t0, c.t, start) && start in c.t.parent && c.t.ext[start] > 0 && c.l.shrink == {}
  {
    hide Pruned, Below;
  }

  lemma PopTail(shrink: set<Id>, list: seq<Id>)
    requires Flagged(shrink, list) && list != []
    ensures list[|list| - 1] in shrink && Flagged(shrink - {list[|list| - 1]}, list[..|list| - 1])
  {
    var d, rest := list[|list| - 1], list[..|list| - 1];
    assert list == rest + [d];
    assert d in list;
    assert forall x :: x in list <==> x == d || x in rest;
  }

  lemma PushHead(shrink: set<Id>, list: seq<Id>, p: Id)
    requires Flagged(shrink, list) && p !in shrink
    ensures Flagged(shrink + {p}, [p] + list)
  {
    assert p !in list;
  }

  /** The list after its last entry d has been killed: the parent may have come in at the head. */
  function AfterReap(c: Cache, d: Id, rest: seq<Id>): seq<Id>
    requires In(c, d)
  {
    var p := c.t.parent[d];
    if p != d && p !in c.l.shrink && c.t.count[p] == 1 then [p] + rest else rest
  }

  /** An unused dentry below start is not start, nor a root, and its parent is in use and below start too. */
  lemma ParentOfUnused(t0: Tree, t: Tree, start: Id, d: Id)
    requires TreeOk(t0) && TreeOk(t) && Pruned(t0, t, start) && start in t.parent && t.ext[start] > 0
    requires d in t.parent && t.count[d] == 0 && d in Below(t0.parent, start)
    ensures Placed(t, d) && t.parent[d] != d && t.count[t.parent[d]] > 0
    ensures t.parent[d] in Below(t0.parent, start) && d != start
  {
    hide IsForest, ListOk, Busy, Reaches, Above;
    PlacedIn(t, d);
    assert RefOk(t, start);
    assert Same(t0, t, d);
    ReachesStep(t0.parent, d, start);
    if t.parent[d] == d { RootAlone(t0.parent, d, start); }
    var p := t.parent[d];
    assert RefOk(t, p);
    assert d in Kids(t.parent, p);
    assert Same(t0, t, p);
  }

  lemma ShrinkFlags(c: Cache, d: Id)
    requires In(c, d) && c.t.parent[d] != d && d in c.l.shrink
    ensures var p := c.t.parent[d];
            ShrinkKill(c, d).l.shrink == c.l.shrink - {d} + (if p !in c.l.shrink && c.t.count[p] == 1 then {p} else {})
  {
  }

  lemma ShrinkLists(c: Cache, d: Id, x: Id)
    requires In(c, d) && x != d && x != c.t.parent[d]
    ensures x in ShrinkKill(c, d).l.lru <==> x in c.l.lru
  {
    hide X.DropHash, X.Forget, Remove;
  }

  lemma ReapOne(c: Cache, f: (Id, string) -> nat, t0: Tree, start: Id, list: seq<Id>)
    requires Steady(c, f) && TreeOk(t0) && Domains(c.t) && Reapable(c, t0, start, list) && list != []
    requires list[|list| - 1] in c.t.parent && c.t.count[list[|list| - 1]] == 0
    ensures var d := list[|list| - 1];
            In(c, d) && Steady(ShrinkKill(c, d), f) && Domains(ShrinkKill(c, d).t)
            && Reapable(ShrinkKill(c, d), t0, start, AfterReap(c, d, list[..|list| - 1]))
            && |ShrinkKill(c, d).t.parent| < |c.t.parent| && L.Excess(ShrinkKill(c, d).l) == L.Excess(c.l)
            && SameOutside(t0.parent, start, c.l.lru, ShrinkKill(c, d).l.lru)
  {
    hide IsForest, ListsOk, RefsOk, X.IndexOk, X.HashesOk, L.FlagsOk, L.Excess, Pruned, Below, ShrinkKill, Flagged,
      Placed;
    var d, rest := list[|list| - 1], list[..|list| - 1];
    AllIn(c, f, d);
    PopTail(c.l.shrink, list);
    ParentOfUnused(t0, c.t, start, d);
    PruneOne(t0, c.t, start, d);
    ShrinkKillOk(c, f, d);
    ShrinkFlags(c, d);
    forall x | x !in Below(t0.parent, start) ensures x in ShrinkKill(c, d).l.lru <==> x in c.l.lru {
      ShrinkLists(c, d, x);
    }
    ShrunkTree(c, d);
    Fewer(c.t.parent, d);
    var p := c.t.parent[d];
    if p !in c.l.shrink && c.t.count[p] == 1 {
      PushHead(c.l.shrink - {d}, rest, p);
    } else {
      assert c.l.shrink - {d} + {} == c.l.shrink - {d};
    }
  }

  lemma ShrunkTree(c: Cache, d: Id)
    requires In(c, d)
    ensures var t' := ShrinkKill(c, d).t;
            t' == KillUnused(c.t, d) && t'.parent == c.t.parent - {d} && Domains(t') && t'.ext == c.t.ext - {d}
  {
    hide KillUnused, X.DropHash, L.Killed, L.Collected;
    KillUnusedShape(c.t, d);
  }

  /** An entry that is in use again is just taken off. */
  lemma GiveOneBack(c: Cache, f: (Id, string) -> nat, t0: Tree, start: Id, list: seq<Id>)
    requires Steady(c, f) && Domains(t0) && Domains(c.t) && Reapable(c, t0, start, list) && list != []
    ensures var c' := c.(l := L.ShrinkDel(c.l, list[|list| - 1]));
            Steady(c', f) && Reapable(c', t0, start, list[..|list| - 1]) && L.Excess(c'.l) == L.Excess(c.l)
            && SameOutside(t0.parent, start, c.l.lru, c'.l.lru)
  {
    hide TreeOk, X.IndexOk, X.HashesOk, L.FlagsOk, L.Excess, Pruned, Below, Flagged;
    PopTail(c.l.shrink, list);
    L.ShrinkDelOk(c.l, list[|list| - 1]);
  }
}
