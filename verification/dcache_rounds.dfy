/** The rounds of shrink_dcache_parent, and what is left after the last. */
module DcacheRounds {
  import opened Forests
  import opened DcacheTree
  import opened DcacheState
  import opened DcacheWalk
  import opened DcacheVisits
  import opened DcacheShrink
  import opened DcacheReap
  import X = DcacheIndex
  import L = DcacheLru

  /** Each cursor belongs to an open directory, which holds it, and has no children. */
  ghost predicate CursorsHeld(t: Tree, cursors: set<Id>)
    requires Domains(t)
  {
    forall c :: c in cursors ==> c in t.parent && t.ext[c] > 0 && Kids(t.parent, c) == {}
  }

  lemma CursorsStay(t0: Tree, t: Tree, start: Id, cursors: set<Id>)
    requires Domains(t0) && Domains(t) && Pruned(t0, t, start) && CursorsHeld(t0, cursors)
    ensures CursorsHeld(t, cursors)
  {
    hide Busy, Below;
    forall c | c in cursors ensures c in t.parent && t.ext[c] > 0 && Kids(t.parent, c) == {} {
      BusySelf(t0, c);
      assert c in t.parent && Same(t0, t, c);
      forall k | k in t.parent ensures k !in Kids(t.parent, c) {
        assert Same(t0, t, k);
        assert k !in Kids(t0.parent, c);
      }
    }
  }

  ghost predicate AllInUse(t: Tree, start: Id)
    requires Domains(t)
  {
    forall y :: y in Below(t.parent, start) ==> t.count[y] != 0
  }

  function Dentries(t: Tree, cursors: set<Id>): Hierarchy { Hierarchy(t.parent, t.subdirs, cursors) }

  lemma TreeIsWalkable(t: Tree, cursors: set<Id>)
    requires TreeOk(t)
    ensures Walkable(Dentries(t, cursors))
  {
    hide IsForest, ListOk;
  }

  lemma InUse(t: Tree, start: Id, cursors: set<Id>, x: Id)
    requires TreeOk(t) && start in t.parent && t.ext[start] > 0 && CursorsHeld(t, cursors)
    requires x in Below(t.parent, start) && (x !in cursors && x != start ==> !Unused(t.count, x))
    ensures t.count[x] != 0
  {
    hide IsForest, ListOk, Reaches;
    assert RefOk(t, x);
  }

  /** A walk of select_collect leaves a list to be reaped, or has found everything in use. */
  lemma AfterWalk(c: Cache, f: (Id, string) -> nat, t0: Tree, start: Id, cursors: set<Id>, needResched: nat -> bool,
                  clock: nat)
    requires Steady(c, f) && TreeOk(t0) && Reapable(c, t0, start, []) && CursorsHeld(c.t, cursors)
    ensures Walkable(Dentries(c.t, cursors))
    ensures var out := Visit(Dentries(c.t, cursors), Collector(start, c.t.count, needResched),
        Select(c.l, [], 0, clock), start).s;
      && Steady(c.(l := out.l), f) && Reapable(c.(l := out.l), t0, start, out.dispose)
      && L.Excess(out.l) == L.Excess(c.l)
      && (out.dispose != [] ==> Unused(c.t.count, out.dispose[|out.dispose| - 1]))
      && out.found == |out.dispose|
      && (out.dispose == [] ==> AllInUse(c.t, start) && OffLru(c.t.parent, out.l.lru, start, cursors))
      && SameOutside(t0.parent, start, c.l.lru, out.l.lru)
  {
    hide IsForest, ListsOk, RefsOk, X.IndexOk, X.HashesOk, L.FlagsOk, L.Excess, Pruned, Reaches, Walkable, CursorsHeld,
      Visit, Collector;
    TreeIsWalkable(c.t, cursors);
    var h, data := Dentries(c.t, cursors), Select(c.l, [], 0, clock);
    var out := Visit(h, Collector(start, c.t.count, needResched), data, start).s;
    CursorLeaves(c.t, cursors);
    assert SelectOk(start, c.t.count, data);
    OneRound(h, start, c.t.count, needResched, data, start);
    forall x | x in out.dispose ensures x in c.t.parent && x in Below(t0.parent, start) {
      OneRound(h, start, c.t.count, needResched, data, x);
      DomainOfBelow(c.t.parent, start, x);
      BelowSame(t0, c.t, start, x);
    }
    forall x | x !in Below(t0.parent, start) ensures x in out.l.lru <==> x in c.l.lru {
      OneRound(h, start, c.t.count, needResched, data, x);
      if x in Below(c.t.parent, start) {
        DomainOfBelow(c.t.parent, start, x);
        BelowSame(t0, c.t, start, x);
      }
    }
    if out.dispose == [] {
      forall x | x in Below(c.t.parent, start)
        ensures c.t.count[x] != 0 && (x != start && x !in cursors ==> x !in out.l.lru)
      {
        OneRound(h, start, c.t.count, needResched, data, x);
        DomainOfBelow(c.t.parent, start, x);
        InUse(c.t, start, cursors, x);
      }
    } else {
      assert out.dispose[|out.dispose| - 1] in out.dispose;
    }
  }

  lemma CursorLeaves(t: Tree, cursors: set<Id>)
    requires Domains(t) && CursorsHeld(t, cursors)
    ensures CursorsAreLeaves(Dentries(t, cursors))
  {
    hide Kids;
  }

  lemma DomainOfBelow(par: Parents, d: Id, x: Id)
    requires x in Below(par, d)
    ensures x in par
  {
  }

  /** Once all below start is in use, the busy dentries are left there, and all that were elsewhere. */
  lemma Survivors(t0: Tree, t: Tree, start: Id, x: Id)
    requires TreeOk(t0) && TreeOk(t) && Pruned(t0, t, start) && start in t.parent && AllInUse(t, start)
    ensures x in t.parent <==> x in t0.parent && (x in Below(t0.parent, start) ==> Busy(t0, x))
  {
    hide IsForest, ListsOk, RefsOk, Busy, Below;
    if x in t.parent {
      assert Same(t0, t, x);
      if x in Below(t0.parent, start) {
        BelowSame(t0, t, start, x);
        LeftAreBusy(t0, t, start, x);
      }
    }
  }

  lemma AllSurvivors(t0: Tree, t: Tree, start: Id)
    requires TreeOk(t0) && TreeOk(t) && Pruned(t0, t, start) && start in t.parent && AllInUse(t, start)
    ensures forall x :: x in t.parent <==> x in t0.parent && (x in Below(t0.parent, start) ==> Busy(t0, x))
    ensures forall x {:trigger x in t.parent} :: x in t.parent ==> Same(t0, t, x)
  {
    hide TreeOk, AllInUse, Busy, Below;
    TreeHasDomains(t0);
    TreeHasDomains(t);
    forall x ensures x in t.parent <==> x in t0.parent && (x in Below(t0.parent, start) ==> Busy(t0, x)) {
      Survivors(t0, t, start, x);
    }
  }
}
