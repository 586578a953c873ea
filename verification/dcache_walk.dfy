/** d_walk: the walk with its jumps makes the calls of a recursive preorder walk. */
module DcacheWalk {
  import opened Forests
  import opened DcacheTree
  import opened TreeMoves

  datatype Ret = Continue | Quit | NoRetry | Skip

  type Enter<!S> = (S, Id) -> (S, Ret)

  /** Parents, child lists and the cursors among the children, which the walk passes over. */
  datatype Hierarchy = Hierarchy(par: Parents, subdirs: map<Id, seq<Id>>, cursors: set<Id>)

  ghost predicate Walkable(h: Hierarchy) { IsForest(h.par) && AllListed(h.par, h.subdirs) }

  /** The callback's state, the dentries it was called on in order, and whether it stopped the walk or forbade a
      retry. */
  datatype Outcome<S> = Outcome(s: S, trace: seq<Id>, quit: bool, retry: bool)

  function Join<S>(a: Outcome<S>, b: Outcome<S>): Outcome<S> {
    Outcome(b.s, a.trace + b.trace, b.quit, a.retry && b.retry)
  }

  function Entered<S>(e: (S, Ret), d: Id): Outcome<S> { Outcome(e.0, [d], e.1.Quit?, !e.1.NoRetry?) }

  lemma Child(h: Hierarchy, d: Id, i: nat)
    requires Walkable(h) && d in h.par && i < |h.subdirs[d]|
    ensures var c := h.subdirs[d][i];
            c in Kids(h.par, d) && c in h.par && h.par[c] == d && c != d && Below(h.par, c) < Below(h.par, d)
  {
    hide IsForest, Below;
    assert ListOk(h.par, h.subdirs[d], d);
    BelowKid(h.par, d, h.subdirs[d][i]);
  }

  // ---- the recursive walk ----

  /** Call the callback on d and, if it does not say otherwise, visit the children. */
  ghost function Visit<S>(h: Hierarchy, enter: Enter<S>, s: S, d: Id): Outcome<S>
    requires Walkable(h) && d in h.par
    decreases Below(h.par, d), 1, 0
  {
    var e := enter(s, d);
    if e.1.Quit? || e.1.Skip? then Entered(e, d) else Join(Entered(e, d), VisitAll(h, enter, e.0, d, 0))
  }

  /** The children of d from the i-th on. */
  ghost function VisitAll<S>(h: Hierarchy, enter: Enter<S>, s: S, d: Id, i: nat): Outcome<S>
    requires Walkable(h) && d in h.par && i <= |h.subdirs[d]|
    decreases Below(h.par, d), 0, |h.subdirs[d]| - i
  {
    if i == |h.subdirs[d]| then Outcome(s, [], false, true)
    else
      Child(h, d, i);
      var c := h.subdirs[d][i];
      if c in h.cursors then VisitAll(h, enter, s, d, i + 1)
      else
        var o := Visit(h, enter, s, c);
        if o.quit then o else Join(o, VisitAll(h, enter, o.s, d, i + 1))
  }

  // ---- where the iterative walk stands ----

  function IndexOf(s: seq<Id>, c: Id): nat
    requires c in s
    ensures IndexOf(s, c) < |s| && s[IndexOf(s, c)] == c
  {
    if s[0] == c then 0 else 1 + IndexOf(s[1..], c)
  }

  /** this_parent is at or below the start of the walk. */
  ghost predicate Within(h: Hierarchy, start: Id, d: Id) { d in h.par && Reaches(h.par, d, start) }

  lemma Ascent(h: Hierarchy, start: Id, d: Id)
    requires Walkable(h) && start in h.par && Within(h, start, d) && d != start
    ensures var p := h.par[d]; p in h.par && Within(h, start, p) && d in h.subdirs[p] && p != d
    ensures HasRoot(h.par, d) && HasRoot(h.par, h.par[d]) && Depth(h.par, h.par[d]) < Depth(h.par, d)
  {
    hide Depth, HasRoot, Reaches;
    ParentIn(h.par, d);
    assert HasRoot(h.par, d);
    DepthStep(h.par, d);
    ReachesStep(h.par, d, start);
    if h.par[d] == d { RootAlone(h.par, d, start); }
    assert ListOk(h.par, h.subdirs[h.par[d]], h.par[d]);
  }

  ghost function Level(h: Hierarchy, d: Id): nat
    requires Walkable(h) && d in h.par
  {
    assert HasRoot(h.par, d);
    Depth(h.par, d)
  }

  /** What is still to come: the rest of d's children, then those after d in its parent's list, and so on up to the
      start. */
  ghost function Rest<S>(h: Hierarchy, enter: Enter<S>, s: S, start: Id, d: Id, i: nat): Outcome<S>
    requires Walkable(h) && start in h.par && Within(h, start, d) && i <= |h.subdirs[d]|
    decreases Level(h, d)
  {
    var o := VisitAll(h, enter, s, d, i);
    if o.quit || d == start then o
    else
      Ascent(h, start, d);
      Join(o, Rest(h, enter, o.s, start, h.par[d], IndexOf(h.subdirs[h.par[d]], d) + 1))
  }

  ghost function Weight(h: Hierarchy, d: Id): nat
    requires Walkable(h) && d in h.par
    decreases Below(h.par, d), 1, 0
  {
    1 + WeightAll(h, d, 0)
  }

  ghost function WeightAll(h: Hierarchy, d: Id, i: nat): nat
    requires Walkable(h) && d in h.par && i <= |h.subdirs[d]|
    decreases Below(h.par, d), 0, |h.subdirs[d]| - i
  {
    if i == |h.subdirs[d]| then 0
    else
      Child(h, d, i);
      Weight(h, h.subdirs[d][i]) + WeightAll(h, d, i + 1)
  }

  /** The work that is left: what is below the children still to come, here and on the way up. */
  ghost function Left(h: Hierarchy, start: Id, d: Id, i: nat): nat
    requires Walkable(h) && start in h.par && Within(h, start, d) && i <= |h.subdirs[d]|
    decreases Level(h, d)
  {
    WeightAll(h, d, i) +
    if d == start then 0
    else
      Ascent(h, start, d);
      Left(h, start, h.par[d], IndexOf(h.subdirs[h.par[d]], d) + 1)
  }

  lemma {:induction false} IndexOfAt(s: seq<Id>, i: nat)
    requires NoDup(s) && i < |s|
    ensures IndexOf(s, s[i]) == i
  {
    assert s[i] in s;
    if s[0] != s[i] { IndexOfAt(s[1..], i - 1); }
  }

  lemma Descent(h: Hierarchy, start: Id, d: Id, i: nat)
    requires Walkable(h) && start in h.par && Within(h, start, d) && i < |h.subdirs[d]|
    ensures var c := h.subdirs[d][i];
            c in h.par && h.par[c] == d && c in h.subdirs[d] && IndexOf(h.subdirs[d], c) == i && Within(h, start, c)
                && c != start
  {
    hide HasRoot, Reaches, IndexOf;
    var c := h.subdirs[d][i];
    Child(h, d, i);
    assert ListOk(h.par, h.subdirs[d], d);
    IndexOfAt(h.subdirs[d], i);
    ReachesStep(h.par, c, start);
    assert HasRoot(h.par, start);
    ReachesSelf(h.par, d);
    ReachesStep(h.par, c, d);
    if c == start { Antisymmetric(h.par, start, d); }
  }

  // ---- the walk with its jumps ----

  lemma JoinTwice<S>(a: Outcome<S>, b: Outcome<S>, c: Outcome<S>)
    ensures Join(Join(a, b), c) == Join(a, Join(b, c))
  {
    assert (a.trace + b.trace) + c.trace == a.trace + (b.trace + c.trace);
  }

  /** At a cursor the rest is what comes after it. */
  lemma PassCursor<S>(h: Hierarchy, enter: Enter<S>, s: S, start: Id, d: Id, i: nat)
    requires Walkable(h) && start in h.par && Within(h, start, d) && i < |h.subdirs[d]| && h.subdirs[d][i] in h.cursors
    ensures Rest(h, enter, s, start, d, i) == Rest(h, enter, s, start, d, i + 1)
  {
    hide IsForest, ListOk, Reaches;
  }

  /** A callback that says quit ends the walk. */
  lemma StopAt<S>(h: Hierarchy, enter: Enter<S>, s: S, start: Id, d: Id, i: nat)
    requires Walkable(h) && start in h.par && Within(h, start, d) && i < |h.subdirs[d]| && h.subdirs[d][i] !in h.cursors
    requires enter(s, h.subdirs[d][i]).1.Quit?
    ensures Rest(h, enter, s, start, d, i) == Entered(enter(s, h.subdirs[d][i]), h.subdirs[d][i])
  {
    hide IsForest, ListOk, Reaches;
    Child(h, d, i);
    assert VisitAll(h, enter, s, d, i) == Visit(h, enter, s, h.subdirs[d][i]);
  }

  /** After a child that is skipped, or has no children, comes the next one. */
  lemma GoOn<S>(h: Hierarchy, enter: Enter<S>, s: S, start: Id, d: Id, i: nat)
    requires Walkable(h) && start in h.par && Within(h, start, d) && i < |h.subdirs[d]| && h.subdirs[d][i] !in h.cursors
    requires var e, c := enter(s, h.subdirs[d][i]), h.subdirs[d][i];
             !e.1.Quit? && (e.1.Skip? || (c in h.subdirs && h.subdirs[c] == []))
    ensures var e := enter(s, h.subdirs[d][i]);
            Rest(h, enter, s, start, d, i) == Join(Entered(e, h.subdirs[d][i]), Rest(h, enter, e.0, start, d, i + 1))
  {
    hide IsForest, ListOk, Reaches;
    Child(h, d, i);
    var c := h.subdirs[d][i];
    var e := enter(s, c);
    assert Visit(h, enter, s, c) == Entered(e, c) by { assert [c] + [] == [c]; }
    After(h, enter, s, start, d, i, Entered(e, c));
  }

  /** The rest from a child on is what the child gives, and then the rest after it. */
  lemma After<S>(h: Hierarchy, enter: Enter<S>, s: S, start: Id, d: Id, i: nat, o: Outcome<S>)
    requires Walkable(h) && start in h.par && Within(h, start, d) && i < |h.subdirs[d]| && h.subdirs[d][i] !in h.cursors
    requires h.subdirs[d][i] in h.par && o == Visit(h, enter, s, h.subdirs[d][i])
    ensures Rest(h, enter, s, start, d, i) == if o.quit then o else Join(o, Rest(h, enter, o.s, start, d, i + 1))
  {
    hide IsForest, ListOk, Reaches;
    if !o.quit {
      var b := VisitAll(h, enter, o.s, d, i + 1);
      assert VisitAll(h, enter, s, d, i) == Join(o, b);
      if !b.quit && d != start {
        Ascent(h, start, d);
        JoinTwice(o, b, Rest(h, enter, b.s, start, h.par[d], IndexOf(h.subdirs[h.par[d]], d) + 1));
      }
    }
  }

  /** Going into a child: its children come first. */
  lemma GoDown<S>(h: Hierarchy, enter: Enter<S>, s: S, start: Id, d: Id, i: nat)
    requires Walkable(h) && start in h.par && Within(h, start, d) && i < |h.subdirs[d]| && h.subdirs[d][i] !in h.cursors
    requires var e := enter(s, h.subdirs[d][i]); !e.1.Quit? && !e.1.Skip?
    ensures Within(h, start, h.subdirs[d][i])
    ensures var e, c := enter(s, h.subdirs[d][i]), h.subdirs[d][i];
            Rest(h, enter, s, start, d, i) == Join(Entered(e, c), Rest(h, enter, e.0, start, c, 0))
  {
    hide IsForest, ListOk, Reaches, IndexOf;
    Child(h, d, i);
    Descent(h, start, d, i);
    var c := h.subdirs[d][i];
    var e := enter(s, c);
    var kids := VisitAll(h, enter, e.0, c, 0);
    var o := Visit(h, enter, s, c);
    After(h, enter, s, start, d, i, o);
    if !kids.quit { JoinTwice(Entered(e, c), kids, Rest(h, enter, kids.s, start, d, i + 1)); }
  }

  /** At the end of a list the rest is what comes after the dentry in its parent's list. */
  lemma GoUp<S>(h: Hierarchy, enter: Enter<S>, s: S, start: Id, d: Id)
    requires Walkable(h) && start in h.par && Within(h, start, d) && d != start
    ensures var p := h.par[d];
            p in h.par && d in h.subdirs[p] && Within(h, start, p) &&
            Rest(h, enter, s, start, d, |h.subdirs[d]|) == Rest(h, enter, s, start, p, IndexOf(h.subdirs[p], d) + 1)
  {
    hide IsForest, ListOk, Reaches;
    Ascent(h, start, d);
    var r := Rest(h, enter, s, start, h.par[d], IndexOf(h.subdirs[h.par[d]], d) + 1);
    assert [] + r.trace == r.trace;
  }

  lemma LeftFalls(h: Hierarchy, start: Id, d: Id, i: nat)
    requires Walkable(h) && start in h.par && Within(h, start, d) && i < |h.subdirs[d]|
    ensures Left(h, start, d, i + 1) < Left(h, start, d, i)
    ensures Within(h, start, h.subdirs[d][i]) && Left(h, start, h.subdirs[d][i], 0) < Left(h, start, d, i)
  {
    hide IsForest, ListOk, Reaches, IndexOf;
    Child(h, d, i);
    Descent(h, start, d, i);
    assert Weight(h, h.subdirs[d][i]) == 1 + WeightAll(h, h.subdirs[d][i], 0);
  }

  lemma LeftSame(h: Hierarchy, start: Id, d: Id)
    requires Walkable(h) && start in h.par && Within(h, start, d) && d != start
    ensures var p := h.par[d];
            p in h.par && d in h.subdirs[p] && Within(h, start, p) && Level(h, p) < Level(h, d) &&
            Left(h, start, p, IndexOf(h.subdirs[p], d) + 1) == Left(h, start, d, |h.subdirs[d]|)
  {
    hide IsForest, ListOk, Reaches;
    Ascent(h, start, d);
  }

  /** d_walk, with nobody renaming meanwhile. */
  method DWalk<S>(h: Hierarchy, enter: Enter<S>, s0: S, start: Id)
    returns (s: S, trace: seq<Id>, quit: bool, retry: bool)
    requires Walkable(h) && start in h.par
    ensures Outcome(s, trace, quit, retry) == Visit(h, enter, s0, start)
  {
    hide IsForest, ListOk, Reaches, IndexOf, Rest, Left, VisitAll;
    ghost var all := Visit(h, enter, s0, start);
    var e := enter(s0, start);
    s, trace, quit, retry := e.0, [start], e.1.Quit?, !e.1.NoRetry?;
    if e.1.Quit? || e.1.Skip? { return; }
    ReachesSelf(h.par, start);
    RestOfAll(h, enter, e.0, start);
    var thisParent, next: nat := start, 0;
    while true
      invariant !quit && Within(h, start, thisParent) && next <= |h.subdirs[thisParent]|
      invariant Join(Outcome(s, trace, quit, retry), Rest(h, enter, s, start, thisParent, next)) == all
      decreases Left(h, start, thisParent, next), Level(h, thisParent)
    {
      if next < |h.subdirs[thisParent]| {
        var d := h.subdirs[thisParent][next];
        LeftFalls(h, start, thisParent, next);
        if d in h.cursors {
          PassCursor(h, enter, s, start, thisParent, next);
          next := next + 1;
        } else {
          ghost var before, rest := Outcome(s, trace, quit, retry), Rest(h, enter, s, start, thisParent, next);
          Child(h, thisParent, next);
          e := enter(s, d);
          if e.1.Quit? { StopAt(h, enter, s, start, thisParent, next); }
          else if e.1.Skip? || h.subdirs[d] == [] { GoOn(h, enter, s, start, thisParent, next); }
          else { GoDown(h, enter, s, start, thisParent, next); }
          s, trace, retry := e.0, trace + [d], retry && !e.1.NoRetry?;
          if e.1.Quit? {
            quit := true;
            return;
          }
          if e.1.Skip? || h.subdirs[d] == [] {
            next := next + 1;
          } else {
            thisParent, next := d, 0;
          }
          JoinTwice(before, Entered(e, d), Rest(h, enter, s, start, thisParent, next));
        }
      } else if thisParent != start {
        GoUp(h, enter, s, start, thisParent);
        LeftSame(h, start, thisParent);
        var child := thisParent;
        thisParent := h.par[child];
        next := IndexOf(h.subdirs[thisParent], child) + 1;
      } else {
        NothingLeft(h, enter, s, start);
        assert trace + [] == trace;
        return;
      }
    }
  }

  lemma RestOfAll<S>(h: Hierarchy, enter: Enter<S>, s: S, start: Id)
    requires Walkable(h) && start in h.par && Within(h, start, start)
    ensures Rest(h, enter, s, start, start, 0) == VisitAll(h, enter, s, start, 0)
  {
    hide IsForest, ListOk, Reaches;
  }

  lemma NothingLeft<S>(h: Hierarchy, enter: Enter<S>, s: S, start: Id)
    requires Walkable(h) && start in h.par && Within(h, start, start)
    ensures Rest(h, enter, s, start, start, |h.subdirs[start]|) == Outcome(s, [], false, true)
  {
    hide IsForest, ListOk, Reaches;
  }
}
