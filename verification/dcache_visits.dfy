/** Which dentries a walk calls its callback on. */
module DcacheVisits {
  import opened Forests
  import opened DcacheTree
  import opened DcacheWalk

  /** The callback applied along a list of dentries. */
  function Fold<S>(enter: Enter<S>, s: S, trace: seq<Id>): S
    decreases |trace|
  {
    if trace == [] then s else Fold(enter, enter(s, trace[0]).0, trace[1..])
  }

  lemma {:induction false} FoldConcat<S>(enter: Enter<S>, s: S, a: seq<Id>, b: seq<Id>)
    ensures Fold(enter, s, a + b) == Fold(enter, Fold(enter, s, a), b)
    decreases |a|
  {
    if a == [] { assert a + b == b; } else {
      assert (a + b)[1..] == a[1..] + b;
      FoldConcat(enter, enter(s, a[0]).0, a[1..], b);
    }
  }

  lemma FoldOne<S>(enter: Enter<S>, s: S, d: Id)
    ensures Fold(enter, s, [d]) == enter(s, d).0
  {
    assert [d][1..] == [];
  }

  /** A walk's final state is the callback applied to what it entered. */
  lemma {:induction false} VisitFolds<S>(h: Hierarchy, enter: Enter<S>, s: S, d: Id)
    requires Walkable(h) && d in h.par
    ensures Visit(h, enter, s, d).s == Fold(enter, s, Visit(h, enter, s, d).trace)
    decreases Below(h.par, d), 1, 0
  {
    hide IsForest, ListOk, Below;
    var e := enter(s, d);
    FoldOne(enter, s, d);
    if !e.1.Quit? && !e.1.Skip? {
      VisitAllFolds(h, enter, e.0, d, 0);
      FoldConcat(enter, s, [d], VisitAll(h, enter, e.0, d, 0).trace);
    }
  }

  lemma {:induction false} VisitAllFolds<S>(h: Hierarchy, enter: Enter<S>, s: S, d: Id, i: nat)
    requires Walkable(h) && d in h.par && i <= |h.subdirs[d]|
    ensures VisitAll(h, enter, s, d, i).s == Fold(enter, s, VisitAll(h, enter, s, d, i).trace)
    decreases Below(h.par, d), 0, |h.subdirs[d]| - i
  {
    hide IsForest, ListOk, Below;
    if i < |h.subdirs[d]| {
      Child(h, d, i);
      var c := h.subdirs[d][i];
      if c in h.cursors { VisitAllFolds(h, enter, s, d, i + 1); } else {
        VisitFolds(h, enter, s, c);
        var o := Visit(h, enter, s, c);
        if !o.quit {
          VisitAllFolds(h, enter, o.s, d, i + 1);
          FoldConcat(enter, s, o.trace, VisitAll(h, enter, o.s, d, i + 1).trace);
        }
      }
    }
  }

  /** What is below the children of d from the i-th on. */
  ghost predicate Under(h: Hierarchy, d: Id, i: nat, x: Id)
    requires d in h.subdirs
  {
    exists k :: i <= k < |h.subdirs[d]| && x in Below(h.par, h.subdirs[d][k])
  }

  /** Only dentries below the start are entered, the start first. */
  lemma {:induction false} VisitStaysBelow<S>(h: Hierarchy, enter: Enter<S>, s: S, d: Id, x: Id)
    requires Walkable(h) && d in h.par
    ensures Visit(h, enter, s, d).trace != [] && Visit(h, enter, s, d).trace[0] == d
    ensures x in Visit(h, enter, s, d).trace ==> x in Below(h.par, d)
    decreases Below(h.par, d), 1, 0
  {
    hide IsForest, ListOk, Reaches;
    var e := enter(s, d);
    ReachesSelf(h.par, d);
    if !e.1.Quit? && !e.1.Skip? {
      VisitAllStaysBelow(h, enter, e.0, d, 0, x);
      var o := VisitAll(h, enter, e.0, d, 0);
      if x in o.trace {
        var k :| 0 <= k < |h.subdirs[d]| && x in Below(h.par, h.subdirs[d][k]);
        Child(h, d, k);
      }
    }
  }

  lemma {:induction false} VisitAllStaysBelow<S>(h: Hierarchy, enter: Enter<S>, s: S, d: Id, i: nat, x: Id)
    requires Walkable(h) && d in h.par && i <= |h.subdirs[d]|
    ensures x in VisitAll(h, enter, s, d, i).trace ==> Under(h, d, i, x)
    decreases Below(h.par, d), 0, |h.subdirs[d]| - i
  {
    hide IsForest, ListOk, Below;
    if i < |h.subdirs[d]| {
      Child(h, d, i);
      var c := h.subdirs[d][i];
      if c in h.cursors { VisitAllStaysBelow(h, enter, s, d, i + 1, x); } else {
        VisitStaysBelow(h, enter, s, c, x);
        var o := Visit(h, enter, s, c);
        if !o.quit { VisitAllStaysBelow(h, enter, o.s, d, i + 1, x); }
      }
    }
  }

  /** No dentry is entered twice. */
  lemma {:induction false} VisitOnce<S>(h: Hierarchy, enter: Enter<S>, s: S, d: Id)
    requires Walkable(h) && d in h.par
    ensures NoDup(Visit(h, enter, s, d).trace)
    decreases Below(h.par, d), 1, 0
  {
    hide IsForest, ListOk, Below;
    var e := enter(s, d);
    if !e.1.Quit? && !e.1.Skip? {
      VisitAllOnce(h, enter, e.0, d, 0);
      var o := VisitAll(h, enter, e.0, d, 0);
      if d in o.trace {
        VisitAllStaysBelow(h, enter, e.0, d, 0, d);
        var k :| 0 <= k < |h.subdirs[d]| && d in Below(h.par, h.subdirs[d][k]);
        NotBelowChild(h, d, k);
      }
      NoDupConcat([d], o.trace);
    }
  }

  lemma NotBelowChild(h: Hierarchy, d: Id, k: nat)
    requires Walkable(h) && d in h.par && k < |h.subdirs[d]|
    ensures d !in Below(h.par, h.subdirs[d][k])
  {
    hide IsForest, ListOk, Reaches, HasRoot;
    Child(h, d, k);
    var c := h.subdirs[d][k];
    ReachesSelf(h.par, d);
    ReachesStep(h.par, c, d);
    assert HasRoot(h.par, c) by { ForestRoot(h.par, c); }
    if Reaches(h.par, d, c) { Antisymmetric(h.par, c, d); }
  }

  lemma ForestRoot(par: Parents, d: Id)
    requires IsForest(par) && d in par
    ensures HasRoot(par, d)
  {
  }

  lemma NoDupConcat(a: seq<Id>, b: seq<Id>)
    requires NoDup(a) && NoDup(b) && forall x :: x in a ==> x !in b
    ensures NoDup(a + b)
  {
    forall i, j | 0 <= i < j < |a + b| ensures (a + b)[i] != (a + b)[j] {
      if i < |a| && j >= |a| { assert a[i] in a && b[j - |a|] in b; }
    }
  }

  lemma {:induction false} VisitAllOnce<S>(h: Hierarchy, enter: Enter<S>, s: S, d: Id, i: nat)
    requires Walkable(h) && d in h.par && i <= |h.subdirs[d]|
    ensures NoDup(VisitAll(h, enter, s, d, i).trace)
    decreases Below(h.par, d), 0, |h.subdirs[d]| - i
  {
    hide IsForest, ListOk, Below;
    if i < |h.subdirs[d]| {
      Child(h, d, i);
      var c := h.subdirs[d][i];
      if c in h.cursors { VisitAllOnce(h, enter, s, d, i + 1); } else {
        VisitOnce(h, enter, s, c);
        var o := Visit(h, enter, s, c);
        if !o.quit {
          VisitAllOnce(h, enter, o.s, d, i + 1);
          var r := VisitAll(h, enter, o.s, d, i + 1);
          forall x | x in o.trace ensures x !in r.trace {
            if x in r.trace {
              VisitStaysBelow(h, enter, s, c, x);
              VisitAllStaysBelow(h, enter, o.s, d, i + 1, x);
              var k :| i + 1 <= k < |h.subdirs[d]| && x in Below(h.par, h.subdirs[d][k]);
              DifferentChildren(h, d, i, k, x);
            }
          }
          NoDupConcat(o.trace, r.trace);
        }
      }
    }
  }

  lemma DifferentChildren(h: Hierarchy, d: Id, i: nat, k: nat, x: Id)
    requires Walkable(h) && d in h.par && i < k < |h.subdirs[d]|
    ensures x in Below(h.par, h.subdirs[d][i]) ==> x !in Below(h.par, h.subdirs[d][k])
  {
    hide IsForest, Below, Kids;
    assert ListOk(h.par, h.subdirs[d], d);
    Child(h, d, i);
    Child(h, d, k);
    if x in Below(h.par, h.subdirs[d][i]) && x in Below(h.par, h.subdirs[d][k]) {
      BelowApart(h.par, d, h.subdirs[d][i], h.subdirs[d][k], x);
    }
  }

  // ---- a walk that is not cut short ----

  ghost predicate NeverSkips<S(!new)>(enter: Enter<S>) { forall s, d {:trigger enter(s, d)} :: !enter(s, d).1.Skip? }

  /** Cursors have no children. */
  predicate CursorsAreLeaves(h: Hierarchy) { forall c :: c in h.cursors ==> Kids(h.par, c) == {} }

  /** A walk that does not quit enters all that is below its start, but the cursors. */
  lemma {:induction false} VisitCovers<S(!new)>(h: Hierarchy, enter: Enter<S>, s: S, d: Id, x: Id)
    requires Walkable(h) && d in h.par && NeverSkips(enter) && CursorsAreLeaves(h)
    requires !Visit(h, enter, s, d).quit && x in Below(h.par, d) && x !in h.cursors
    ensures x in Visit(h, enter, s, d).trace
    decreases Below(h.par, d), 1, 0
  {
    hide IsForest, ListOk, Below, CursorsAreLeaves, Kids;
    var e := enter(s, d);
    if x != d {
      BelowSplit(h.par, d, x);
      var c :| c in Kids(h.par, d) && x in Below(h.par, c);
      ListedAt(h, d, c);
      var k :| 0 <= k < |h.subdirs[d]| && h.subdirs[d][k] == c;
      VisitAllCovers(h, enter, e.0, d, 0, k, x);
    }
  }

  lemma ListedAt(h: Hierarchy, d: Id, c: Id)
    requires Walkable(h) && d in h.par && c in Kids(h.par, d)
    ensures exists k :: 0 <= k < |h.subdirs[d]| && h.subdirs[d][k] == c
  {
    hide IsForest, Kids;
    assert ListOk(h.par, h.subdirs[d], d);
  }

  lemma CursorAlone(h: Hierarchy, c: Id, x: Id)
    requires CursorsAreLeaves(h) && c in h.cursors && x in Below(h.par, c)
    ensures x == c
  {
    hide Below;
    BelowSplit(h.par, c, x);
  }

  lemma {:induction false} VisitAllCovers<S(!new)>(h: Hierarchy, enter: Enter<S>, s: S, d: Id, i: nat, k: nat, x: Id)
    requires Walkable(h) && d in h.par && i <= k < |h.subdirs[d]| && NeverSkips(enter) && CursorsAreLeaves(h)
    requires !VisitAll(h, enter, s, d, i).quit && x in Below(h.par, h.subdirs[d][k]) && x !in h.cursors
    ensures x in VisitAll(h, enter, s, d, i).trace
    decreases Below(h.par, d), 0, |h.subdirs[d]| - i
  {
    hide IsForest, ListOk, Below, CursorsAreLeaves, Kids;
    Child(h, d, i);
    var c := h.subdirs[d][i];
    if c in h.cursors {
      if i == k { CursorAlone(h, c, x); }
      VisitAllCovers(h, enter, s, d, i + 1, k, x);
    } else {
      var o := Visit(h, enter, s, c);
      if i == k { VisitCovers(h, enter, s, c, x); } else { VisitAllCovers(h, enter, o.s, d, i + 1, k, x); }
    }
  }

  /** Whatever a callback makes sure of when it says quit holds after a walk that was cut short. */
  lemma {:induction false} QuitMeans<S(!new)>(h: Hierarchy, enter: Enter<S>, s: S, d: Id, post: S -> bool)
    requires Walkable(h) && d in h.par
    requires forall s', d' {:trigger enter(s', d')} :: enter(s', d').1.Quit? ==> post(enter(s', d').0)
    ensures Visit(h, enter, s, d).quit ==> post(Visit(h, enter, s, d).s)
    decreases Below(h.par, d), 1, 0
  {
    hide IsForest, ListOk, Below;
    var e := enter(s, d);
    if !e.1.Quit? && !e.1.Skip? { AllQuitMeans(h, enter, e.0, d, 0, post); }
  }

  lemma {:induction false} AllQuitMeans<S(!new)>(h: Hierarchy, enter: Enter<S>, s: S, d: Id, i: nat, post: S -> bool)
    requires Walkable(h) && d in h.par && i <= |h.subdirs[d]|
    requires forall s', d' {:trigger enter(s', d')} :: enter(s', d').1.Quit? ==> post(enter(s', d').0)
    ensures VisitAll(h, enter, s, d, i).quit ==> post(VisitAll(h, enter, s, d, i).s)
    decreases Below(h.par, d), 0, |h.subdirs[d]| - i
  {
    hide IsForest, ListOk, Below;
    if i < |h.subdirs[d]| {
      Child(h, d, i);
      var c := h.subdirs[d][i];
      if c in h.cursors { AllQuitMeans(h, enter, s, d, i + 1, post); } else {
        QuitMeans(h, enter, s, c, post);
        var o := Visit(h, enter, s, c);
        if !o.quit { AllQuitMeans(h, enter, o.s, d, i + 1, post); }
      }
    }
  }

  // ---- what the callback's answers do ----

  /** What the callback answered at the k-th call. */
  function RetAt<S>(enter: Enter<S>, s: S, trace: seq<Id>, k: nat): Ret
    requires k < |trace|
  {
    enter(Fold(enter, s, trace[..k]), trace[k]).1
  }

  /** Only the last call answered that the walk is to stop, if any did; a retry is allowed if no call forbade it. */
  ghost predicate FlagsRight<S>(enter: Enter<S>, s: S, trace: seq<Id>, quit: bool, retry: bool) {
    && (forall k {:trigger RetAt(enter, s, trace, k)} :: 0 <= k < |trace| ==>
          (RetAt(enter, s, trace, k).Quit? <==> quit && k == |trace| - 1))
    && (quit ==> trace != [])
    && (retry <==> forall k {:trigger RetAt(enter, s, trace, k)} :: 0 <= k < |trace| ==>
                     !RetAt(enter, s, trace, k).NoRetry?)
  }

  lemma RetOf<S>(enter: Enter<S>, s: S, a: seq<Id>, b: seq<Id>, k: nat)
    requires k < |a + b|
    ensures RetAt(enter, s, a + b, k) ==
            if k < |a| then RetAt(enter, s, a, k) else RetAt(enter, Fold(enter, s, a), b, k - |a|)
  {
    if k < |a| {
      assert (a + b)[..k] == a[..k];
    } else {
      assert (a + b)[..k] == a + b[..k - |a|];
      FoldConcat(enter, s, a, b[..k - |a|]);
    }
  }

  lemma FlagsJoin<S>(enter: Enter<S>, s: S, a: seq<Id>, retryA: bool, b: seq<Id>, quit: bool, retryB: bool)
    requires FlagsRight(enter, s, a, false, retryA) && FlagsRight(enter, Fold(enter, s, a), b, quit, retryB)
    ensures FlagsRight(enter, s, a + b, quit, retryA && retryB)
  {
    var t := a + b;
    hide RetAt, Fold;
    forall k | 0 <= k < |t| ensures RetAt(enter, s, t, k).Quit? <==> quit && k == |t| - 1 { RetOf(enter, s, a, b, k); }
    if retryA && retryB {
      forall k | 0 <= k < |t| ensures !RetAt(enter, s, t, k).NoRetry? { RetOf(enter, s, a, b, k); }
    } else if !retryA {
      var k :| 0 <= k < |a| && RetAt(enter, s, a, k).NoRetry?;
      RetOf(enter, s, a, b, k);
    } else {
      var k :| 0 <= k < |b| && RetAt(enter, Fold(enter, s, a), b, k).NoRetry?;
      RetOf(enter, s, a, b, |a| + k);
    }
  }

  lemma FlagsOfOne<S>(enter: Enter<S>, s: S, d: Id)
    ensures FlagsRight(enter, s, [d], enter(s, d).1.Quit?, !enter(s, d).1.NoRetry?)
    ensures RetAt(enter, s, [d], 0) == enter(s, d).1
  {
    assert [d][..0] == [];
    assert Fold(enter, s, []) == s;
    assert RetAt(enter, s, [d], 0) == enter(s, d).1;
  }

  /** A walk stops at the first call that says so, and may be taken again if none said not to. */
  lemma {:induction false} VisitFlags<S>(h: Hierarchy, enter: Enter<S>, s: S, d: Id)
    requires Walkable(h) && d in h.par
    ensures var o := Visit(h, enter, s, d); FlagsRight(enter, s, o.trace, o.quit, o.retry)
    decreases Below(h.par, d), 1, 0
  {
    hide IsForest, ListOk, Below, FlagsRight, RetAt;
    var e := enter(s, d);
    FlagsOfOne(enter, s, d);
    FoldOne(enter, s, d);
    if !e.1.Quit? && !e.1.Skip? {
      VisitAllFlags(h, enter, e.0, d, 0);
      var o := VisitAll(h, enter, e.0, d, 0);
      FlagsJoin(enter, s, [d], !e.1.NoRetry?, o.trace, o.quit, o.retry);
    }
  }

  lemma {:induction false} VisitAllFlags<S>(h: Hierarchy, enter: Enter<S>, s: S, d: Id, i: nat)
    requires Walkable(h) && d in h.par && i <= |h.subdirs[d]|
    ensures var o := VisitAll(h, enter, s, d, i); FlagsRight(enter, s, o.trace, o.quit, o.retry)
    decreases Below(h.par, d), 0, |h.subdirs[d]| - i
  {
    hide IsForest, ListOk, Below, FlagsRight, RetAt;
    if i == |h.subdirs[d]| {
      NoFlags(enter, s);
    } else {
      Child(h, d, i);
      var c := h.subdirs[d][i];
      if c in h.cursors { VisitAllFlags(h, enter, s, d, i + 1); } else {
        VisitFlags(h, enter, s, c);
        VisitFolds(h, enter, s, c);
        var o := Visit(h, enter, s, c);
        if !o.quit {
          VisitAllFlags(h, enter, o.s, d, i + 1);
          var r := VisitAll(h, enter, o.s, d, i + 1);
          FlagsJoin(enter, s, o.trace, o.retry, r.trace, r.quit, r.retry);
        }
      }
    }
  }

  lemma NoFlags<S>(enter: Enter<S>, s: S)
    ensures FlagsRight(enter, s, [], false, true)
  {
  }

  /** Nothing below a dentry at which the callback said to skip is entered. */
  lemma {:induction false} VisitSkips<S>(h: Hierarchy, enter: Enter<S>, s: S, d: Id, k: nat, x: Id)
    requires Walkable(h) && d in h.par
    requires var t := Visit(h, enter, s, d).trace;
      k < |t| && RetAt(enter, s, t, k).Skip? && x in t && x in Below(h.par, t[k])
    ensures x == Visit(h, enter, s, d).trace[k]
    decreases Below(h.par, d), 1, 0
  {
    hide IsForest, ListOk, Reaches, RetAt;
    var e := enter(s, d);
    FlagsOfOne(enter, s, d);
    FoldOne(enter, s, d);
    if !e.1.Quit? && !e.1.Skip? {
      var o := VisitAll(h, enter, e.0, d, 0);
      RetOf(enter, s, [d], o.trace, k);
      VisitAllStaysBelow(h, enter, e.0, d, 0, o.trace[k - 1]);
      var j :| 0 <= j < |h.subdirs[d]| && o.trace[k - 1] in Below(h.par, h.subdirs[d][j]);
      if x == d {
        BelowBelow(h.par, d, o.trace[k - 1], h.subdirs[d][j]);
        NotBelowChild(h, d, j);
      }
      VisitAllSkips(h, enter, e.0, d, 0, k - 1, x);
    }
  }

  lemma BelowBelow(par: Parents, x: Id, y: Id, z: Id)
    requires x in Below(par, y) && y in Below(par, z)
    ensures x in Below(par, z)
  {
    ReachesTrans(par, x, y, z);
  }

  lemma {:induction false} VisitAllSkips<S>(h: Hierarchy, enter: Enter<S>, s: S, d: Id, i: nat, k: nat, x: Id)
    requires Walkable(h) && d in h.par && i <= |h.subdirs[d]|
    requires var t := VisitAll(h, enter, s, d, i).trace;
      k < |t| && RetAt(enter, s, t, k).Skip? && x in t && x in Below(h.par, t[k])
    ensures x == VisitAll(h, enter, s, d, i).trace[k]
    decreases Below(h.par, d), 0, |h.subdirs[d]| - i
  {
    hide IsForest, ListOk, Reaches, RetAt;
    Child(h, d, i);
    var c := h.subdirs[d][i];
    if c in h.cursors { VisitAllSkips(h, enter, s, d, i + 1, k, x); } else {
      var o := Visit(h, enter, s, c);
      if o.quit { VisitSkips(h, enter, s, c, k, x); } else {
        VisitFolds(h, enter, s, c);
        var r := VisitAll(h, enter, o.s, d, i + 1);
        RetOf(enter, s, o.trace, r.trace, k);
        var y := (o.trace + r.trace)[k];
        if k < |o.trace| {
          VisitStaysBelow(h, enter, s, c, y);
          BelowBelow(h.par, x, y, c);
          if x in r.trace {
            VisitAllStaysBelow(h, enter, o.s, d, i + 1, x);
            var j :| i + 1 <= j < |h.subdirs[d]| && x in Below(h.par, h.subdirs[d][j]);
            DifferentChildren(h, d, i, j, x);
          }
          VisitSkips(h, enter, s, c, k, x);
        } else {
          VisitAllStaysBelow(h, enter, o.s, d, i + 1, y);
          var j :| i + 1 <= j < |h.subdirs[d]| && y in Below(h.par, h.subdirs[d][j]);
          BelowBelow(h.par, x, y, h.subdirs[d][j]);
          if x in o.trace {
            VisitStaysBelow(h, enter, s, c, x);
            DifferentChildren(h, d, i, j, x);
          }
          VisitAllSkips(h, enter, o.s, d, i + 1, k - |o.trace|, x);
        }
      }
    }
  }

  // ---- the order of the calls ----

  /** A dentry is entered after its parent. */
  lemma {:induction false} VisitParentFirst<S>(h: Hierarchy, enter: Enter<S>, s: S, d: Id, k: nat)
    requires Walkable(h) && d in h.par && 0 < k < |Visit(h, enter, s, d).trace|
    ensures var t := Visit(h, enter, s, d).trace; t[k] in h.par && h.par[t[k]] in t[..k]
    decreases Below(h.par, d), 1, 0
  {
    hide IsForest, ListOk, Below;
    var e := enter(s, d);
    var o := VisitAll(h, enter, e.0, d, 0);
    var t := [d] + o.trace;
    VisitAllParentFirst(h, enter, e.0, d, 0, k - 1);
    assert t[..k] == [d] + o.trace[..k - 1];
  }

  lemma {:induction false} VisitAllParentFirst<S>(h: Hierarchy, enter: Enter<S>, s: S, d: Id, i: nat, k: nat)
    requires Walkable(h) && d in h.par && i <= |h.subdirs[d]| && k < |VisitAll(h, enter, s, d, i).trace|
    ensures var t := VisitAll(h, enter, s, d, i).trace;
      t[k] in h.par && (h.par[t[k]] == d || h.par[t[k]] in t[..k])
    decreases Below(h.par, d), 0, |h.subdirs[d]| - i
  {
    hide IsForest, ListOk, Below;
    Child(h, d, i);
    var c := h.subdirs[d][i];
    if c in h.cursors { VisitAllParentFirst(h, enter, s, d, i + 1, k); } else {
      var o := Visit(h, enter, s, c);
      VisitStaysBelow(h, enter, s, c, c);
      if o.quit {
        if k > 0 { VisitParentFirst(h, enter, s, c, k); }
      } else {
        var r := VisitAll(h, enter, o.s, d, i + 1);
        var t := o.trace + r.trace;
        if k < |o.trace| {
          assert t[..k] == o.trace[..k];
          if k > 0 { VisitParentFirst(h, enter, s, c, k); }
        } else {
          assert t[..k] == o.trace + r.trace[..k - |o.trace|];
          VisitAllParentFirst(h, enter, o.s, d, i + 1, k - |o.trace|);
        }
      }
    }
  }

  /** Children are entered, each with what is below it, in the order of the list. */
  lemma {:induction false} ListOrder<S>(h: Hierarchy, enter: Enter<S>, s: S, d: Id, i: nat, a: nat, b: nat, j: nat,
                                        k: nat)
    requires Walkable(h) && d in h.par && i <= a < b < |h.subdirs[d]|
    requires var t := VisitAll(h, enter, s, d, i).trace;
      j < |t| && k < |t| && t[j] in Below(h.par, h.subdirs[d][a]) && t[k] in Below(h.par, h.subdirs[d][b])
    ensures j < k
    decreases |h.subdirs[d]| - i
  {
    hide IsForest, ListOk, Below;
    Child(h, d, i);
    var c := h.subdirs[d][i];
    if c in h.cursors {
      if a == i { NotEntered(h, enter, s, d, i, a, VisitAll(h, enter, s, d, i + 1).trace[j]); }
      ListOrder(h, enter, s, d, i + 1, a, b, j, k);
    } else {
      var o := Visit(h, enter, s, c);
      var t := VisitAll(h, enter, s, d, i).trace;
      if k < |o.trace| {
        assert t[k] == o.trace[k];
        VisitStaysBelow(h, enter, s, c, t[k]);
        DifferentChildren(h, d, i, b, t[k]);
      }
      if j >= |o.trace| && !o.quit {
        var r := VisitAll(h, enter, o.s, d, i + 1);
        assert t[j] == r.trace[j - |o.trace|] && t[k] == r.trace[k - |o.trace|];
        if a == i { NotEntered(h, enter, o.s, d, i, a, t[j]); }
        ListOrder(h, enter, o.s, d, i + 1, a, b, j - |o.trace|, k - |o.trace|);
      }
    }
  }

  lemma NotEntered<S>(h: Hierarchy, enter: Enter<S>, s: S, d: Id, i: nat, a: nat, x: Id)
    requires Walkable(h) && d in h.par && a == i < |h.subdirs[d]| && x in Below(h.par, h.subdirs[d][a])
    ensures x !in VisitAll(h, enter, s, d, i + 1).trace
  {
    hide IsForest, ListOk, Below;
    if x in VisitAll(h, enter, s, d, i + 1).trace {
      VisitAllStaysBelow(h, enter, s, d, i + 1, x);
      var m :| i + 1 <= m < |h.subdirs[d]| && x in Below(h.par, h.subdirs[d][m]);
      DifferentChildren(h, d, i, m, x);
    }
  }
}
