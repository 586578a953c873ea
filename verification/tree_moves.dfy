/** __d_move and d_ancestor: the guards, the tree, the counts and the locks. */
module TreeMoves {
  import opened Forests
  import opened Helpers
  import opened DcacheTree

  /** The ancestor of p2 (or p2 itself) that is a child of p1. */
  method DAncestor(par: Parents, p1: Id, p2: Id) returns (r: Option<Id>)
    requires IsForest(par) && p2 in par
    ensures r.Some? <==> Above(par, p1, p2)
    ensures r.Some? ==> r.value in Kids(par, p1) && Reaches(par, p2, r.value)
  {
    hide Depth, HasRoot, Reaches;
    var p := p2;
    assert HasRoot(par, p);
    ReachesSelf(par, p2);
    while par[p] != p
      invariant p in par && HasRoot(par, p) && Reaches(par, p2, p)
      invariant Above(par, p1, p2) <==> Above(par, p1, p)
      decreases Depth(par, p)
    {
      DepthStep(par, p);
      ReachesStep(par, p, p1);
      ReachesSelf(par, p1);
      if par[p] == p1 {
        return Some(p);
      }
      if Above(par, p1, par[p]) { ReachesDepth(par, par[p], p1); }
      StepUp(par, p2, p);
      HasRootIn(par, par[p]);
      p := par[p];
    }
    RootAlone(par, p, p1);
    return None;
  }

  lemma StepUp(par: Parents, x: Id, p: Id)
    requires p in par && Reaches(par, x, p)
    ensures Reaches(par, x, par[p])
  {
    hide Reaches;
    ReachesSelf(par, par[p]);
    ReachesStep(par, p, par[p]);
    ReachesTrans(par, x, p, par[p]);
  }

  /** Nothing is above a root. */
  lemma RootAlone(par: Parents, r: Id, a: Id)
    requires Parent(par, r) == r
    ensures Reaches(par, r, a) <==> a == r
  {
    if Reaches(par, r, a) {
      var k: nat :| Up(par, r, k) == a;
      UpStuck(par, r, k);
    }
    ReachesSelf(par, r);
  }

  /** The child of p1 on the way up from p2, if p1 is above p2. */
  ghost predicate IsAncestor(par: Parents, p1: Id, p2: Id, r: Option<Id>) {
    && (r.Some? <==> Above(par, p1, p2))
    && (r.Some? ==> r.value in Kids(par, p1) && Reaches(par, p2, r.value))
  }

  /** None of the BUG_ON tests of __d_move fires; p is what d_ancestor(old_parent, target) gives. */
  ghost predicate GuardsPass(par: Parents, d: Id, target: Id, p: Option<Id>)
    requires d in par
  {
    && !Above(par, target, d)
    && if par[d] == d then p.None? else p != Some(d)
  }

  ghost predicate Unrelated(par: Parents, d: Id, target: Id) { !Above(par, target, d) && !Above(par, d, target) }

  /** There is one child of p1 on the way up. */
  lemma AncestorIsOne(par: Parents, p1: Id, p2: Id, a: Id, b: Id)
    requires IsForest(par) && p2 in par && a in Kids(par, p1) && b in Kids(par, p1)
    requires Reaches(par, p2, a) && Reaches(par, p2, b)
    ensures a == b
  {
    hide Reaches, HasRoot;
    BelowApart(par, p1, a, b, p2);
  }

  /** The guards say just that neither dentry is an ancestor of the other. */
  lemma GuardsDecide(par: Parents, d: Id, target: Id, p: Option<Id>)
    requires IsForest(par) && d in par && target in par && d != target
    requires IsAncestor(par, par[d], target, p)
    ensures GuardsPass(par, d, target, p) <==> Unrelated(par, d, target)
  {
    hide Reaches, HasRoot;
    assert HasRoot(par, target);
    if par[d] != d {
      assert d in Kids(par, par[d]);
      ReachesSelf(par, d);
      if Above(par, d, target) {
        StepUp(par, target, d);
        assert par[d] != target by { if par[d] == target { NoLoop(par, d, target); } }
        AncestorIsOne(par, par[d], target, d, p.value);
      }
      if p == Some(d) { assert Reaches(par, target, d); }
    }
  }

  lemma NoLoop(par: Parents, d: Id, target: Id)
    requires IsForest(par) && target in par && d in par && par[d] == target && Reaches(par, target, d)
    ensures d == target
  {
    hide Reaches, HasRoot;
    assert HasRoot(par, target) && HasRoot(par, d);
    ReachesSelf(par, target);
    ReachesStep(par, d, target);
    Antisymmetric(par, d, target);
  }

  // ---- the tree after a move ----

  lemma NotUnder(par: Parents, d: Id, target: Id)
    requires target in par && d != target && !Above(par, d, target)
    ensures !Reaches(par, target, d) && !Reaches(par, par[target], d) && par[target] != d
  {
    hide Reaches;
    ReachesStep(par, target, d);
    ReachesSelf(par, d);
  }

  lemma MoveKeepsForest(par: Parents, d: Id, target: Id)
    requires IsForest(par) && d in par && target in par && d != target && Unrelated(par, d, target)
    ensures IsForest(par[d := par[target]])
  {
    hide Reaches, HasRoot, IsForest;
    ParentIn(par, target);
    NotUnder(par, d, target);
    ReparentKeepsForest(par, d, par[target]);
  }

  /** Trading parents keeps the forest unless both are roots. */
  lemma ExchangeKeepsForest(par: Parents, d: Id, target: Id)
    requires IsForest(par) && d in par && target in par && d != target && Unrelated(par, d, target)
    ensures IsForest(par[d := par[target]][target := par[d]]) <==> !(IsRoot(par, d) && IsRoot(par, target))
  {
    hide Reaches, HasRoot, IsForest;
    var p, q := par[d], par[target];
    var half := par[target := p];
    assert half[d := q] == par[d := q][target := p];
    ParentIn(par, target);
    ParentIn(par, d);
    NotUnder(par, d, target);
    NotUnder(par, target, d);
    if p == d && q == target {
      TwoCycle(half[d := q], d, target);
    } else {
      ReparentKeepsForest(par, target, p);
      HalfwayNotUnder(par, d, target);
      ReparentKeepsForest(half, d, q);
    }
  }

  lemma HalfwayNotUnder(par: Parents, d: Id, target: Id)
    requires IsForest(par) && d in par && target in par && d != target && Unrelated(par, d, target)
    requires !(IsRoot(par, d) && IsRoot(par, target))
    ensures !Reaches(par[target := par[d]], par[target], d)
  {
    hide Reaches, HasRoot, Depth;
    var p, q := par[d], par[target];
    assert HasRoot(par, target) && HasRoot(par, d);
    NotUnder(par, d, target);
    NotUnder(par, target, d);
    if q == target {
      ReachesAvoids(par, p, d, target, p);
      ReachesSelf(par, p);
      ReachesStep(par, d, p);
      if Reaches(par, p, d) { Antisymmetric(par, d, p); }
      ReachesStep(par[target := p], target, d);
    } else {
      ReachesSelf(par, q);
      ReachesStep(par, target, q);
      if Reaches(par, q, target) { Antisymmetric(par, target, q); }
      ReachesAvoids(par, q, d, target, p);
    }
  }

  /** Two dentries that are each other's parent have no root. */
  lemma TwoCycle(par: Parents, a: Id, b: Id)
    requires a in par && b in par && a != b && par[a] == b && par[b] == a
    ensures !IsForest(par)
  {
    if HasRoot(par, a) {
      var k: nat :| IsRoot(par, Up(par, a, k));
      Around(par, a, b, k);
    }
  }

  lemma {:induction false} Around(par: Parents, a: Id, b: Id, k: nat)
    requires a in par && b in par && a != b && par[a] == b && par[b] == a
    ensures Up(par, a, k) == a || Up(par, a, k) == b
    decreases k
  {
    if k > 0 { Around(par, b, a, k - 1); }
  }

  // ---- lists and counts ----

  ghost predicate AllListed(par: Parents, subdirs: map<Id, seq<Id>>) {
    subdirs.Keys == par.Keys && forall x :: x in par ==> ListOk(par, subdirs[x], x)
  }

  lemma RelistOk(par: Parents, subdirs: map<Id, seq<Id>>, d: Id, q: Id)
    requires AllListed(par, subdirs) && d in par && par[d] in par && q in par && q != d
    ensures AllListed(par[d := q], Relist(subdirs, d, par[d], q))
  {
    hide ListOk, Kids, Remove;
    var after := Relist(subdirs, d, par[d], q);
    forall x | x in par[d := q] ensures ListOk(par[d := q], after[x], x) {
      ListMove(par, subdirs[x], d, q, x);
    }
  }

  function Moved(s: seq<Id>, d: Id, p: Id, q: Id, x: Id): seq<Id> {
    var out := if x == p && p != d then Remove(s, d) else s;
    if x == q then [d] + out else out
  }

  lemma ListMove(par: Parents, s: seq<Id>, d: Id, q: Id, x: Id)
    requires d in par && x in par && q != d && ListOk(par, s, x)
    ensures ListOk(par[d := q], Moved(s, d, par[d], q, x), x)
  {
    KidsMove(par, d, q, x);
    RemoveIs(s, d);
    var out := if x == par[d] && par[d] != d then Remove(s, d) else s;
    assert NoDup(out) && d !in out;
    assert forall c :: c in out <==> c in Kids(par, x) && c != d;
  }

  lemma RefMove(par: Parents, d: Id, q: Id, x: Id)
    requires d in par && q != d
    ensures |Kids(par[d := q], x)| ==
              |Kids(par, x)| + (if x == q then 1 else 0) - if x == par[d] && x != d then 1 else 0
  {
    KidsMove(par, d, q, x);
    if x == q && x == par[d] { assert Kids(par, x) + {d} == Kids(par, x); }
  }

  lemma MoveOk(t: Tree, d: Id, target: Id)
    requires TreeOk(t) && d in t.parent && target in t.parent && d != target && Unrelated(t.parent, d, target)
    ensures Placed(t, d) && Placed(t, target) && TreeOk(Move(t, d, target))
  {
    hide IsForest, ListOk, Kids, Above, Remove;
    PlacedIn(t, d);
    PlacedIn(t, target);
    var q := t.parent[target];
    NotUnder(t.parent, d, target);
    MoveKeepsForest(t.parent, d, target);
    RelistOk(t.parent, t.subdirs, d, q);
    var t' := Move(t, d, target);
    forall x | x in t'.parent ensures RefOk(t', x) {
      assert RefOk(t, x);
      RefMove(t.parent, d, q, x);
    }
  }

  lemma ExchangeLists(t: Tree, d: Id, target: Id)
    requires ShapeOk(t) && Placed(t, d) && Placed(t, target) && d != target && Unrelated(t.parent, d, target)
    ensures Domains(Exchange(t, d, target)) && ListsOk(Exchange(t, d, target))
  {
    hide IsForest, ListOk, Above, Relist;
    var p, q := t.parent[d], t.parent[target];
    NotUnder(t.parent, d, target);
    NotUnder(t.parent, target, d);
    var half := t.parent[target := p];
    assert half[d := q] == t.parent[d := q][target := p];
    RelistOk(t.parent, t.subdirs, target, p);
    RelistOk(half, Relist(t.subdirs, target, q, p), d, q);
  }

  lemma ExchangeRef(par: Parents, d: Id, target: Id, x: Id)
    requires d in par && target in par && d != target && Unrelated(par, d, target)
    ensures |Kids(par[d := par[target]][target := par[d]], x)| ==
      |Kids(par, x)| + (if x == d && IsRoot(par, d) then 1 else 0) + if x == target && IsRoot(par, target) then 1 else 0
  {
    hide Kids, Reaches;
    var p, q := par[d], par[target];
    var half := par[target := p];
    assert half[d := q] == par[d := q][target := p];
    NotUnder(par, d, target);
    NotUnder(par, target, d);
    RefMove(par, target, p, x);
    RefMove(half, d, q, x);
  }

  /** No count changes in an exchange, so the counts stay right just when neither dentry is a root. */
  lemma ExchangeOk(t: Tree, d: Id, target: Id)
    requires TreeOk(t) && d in t.parent && target in t.parent && d != target && Unrelated(t.parent, d, target)
    ensures Placed(t, d) && Placed(t, target)
    ensures TreeOk(Exchange(t, d, target)) <==> !IsRoot(t.parent, d) && !IsRoot(t.parent, target)
  {
    hide IsForest, ListOk, Kids, Above, Relist;
    PlacedIn(t, d);
    PlacedIn(t, target);
    ExchangeLists(t, d, target);
    ExchangeKeepsForest(t.parent, d, target);
    var t' := Exchange(t, d, target);
    forall x | x in t'.parent
      ensures RefOk(t', x) <==> !(x == d && IsRoot(t.parent, d)) && !(x == target && IsRoot(t.parent, target))
    {
      assert RefOk(t, x);
      ExchangeRef(t.parent, d, target, x);
    }
    assert d in t'.parent && target in t'.parent;
  }

  // ---- the locks ----

  datatype LockEvent = Lock(d: Id) | Unlock(d: Id)

  /** What __d_move locks: the parents, outermost first, then the two dentries. */
  function Acquired(par: Parents, d: Id, target: Id, p: Option<Id>): seq<LockEvent>
    requires d in par && target in par
  {
    var parents :=
      if par[d] == d then [Lock(par[target])]
      else if p.None? then [Lock(par[target]), Lock(par[d])]
      else if p != Some(target) then [Lock(par[d]), Lock(par[target])]
      else [Lock(par[d])];
    parents + [Lock(d), Lock(target)]
  }

  /** What it unlocks, when the parent of d is already the new one. */
  function Released(oldParent: Id, newParent: Id, d: Id, target: Id): seq<LockEvent> {
    (if newParent != oldParent then [Unlock(newParent)] else [])
    + (if d != oldParent then [Unlock(oldParent)] else [])
    + [Unlock(target), Unlock(d)]
  }

  /** No lock is taken twice or on an ancestor of one that is held; each is given back once, and none is left. */
  ghost predicate Disciplined(par: Parents, held: set<Id>, trace: seq<LockEvent>)
    decreases |trace|
  {
    if trace == [] then held == {}
    else match trace[0]
      case Lock(d) => Allowed(par, held, d) && Disciplined(par, held + {d}, trace[1..])
      case Unlock(d) => d in held && Disciplined(par, held - {d}, trace[1..])
  }

  ghost predicate Allowed(par: Parents, held: set<Id>, d: Id) {
    d !in held && forall h :: h in held ==> !Above(par, d, h)
  }

  function LockTrace(par: Parents, d: Id, target: Id, p: Option<Id>): seq<LockEvent>
    requires d in par && target in par
  {
    Acquired(par, d, target, p) + Released(par[d], par[target], d, target)
  }

  lemma NothingHeldTwice(par: Parents, d: Id, target: Id, p: Option<Id>)
    requires IsForest(par) && d in par && target in par && d != target && Unrelated(par, d, target)
    requires IsAncestor(par, par[d], target, p)
    ensures par[target] != d && par[d] != target
    ensures p.None? && par[target] != target ==> par[d] != par[target]
    ensures p.Some? && par[target] != target ==> (par[d] == par[target] <==> p == Some(target))
  {
    hide HasRoot, Reaches;
    NotUnder(par, d, target);
    NotUnder(par, target, d);
    ReachesSelf(par, target);
    StepUp(par, target, target);
    if p.Some? && par[d] == par[target] && par[target] != target {
      AncestorIsOne(par, par[d], target, p.value, target);
    }
  }

  /** The order of the locks __d_move takes. */
  lemma OrderIsFromAbove(par: Parents, d: Id, target: Id, p: Option<Id>)
    requires IsForest(par) && d in par && target in par && d != target && Unrelated(par, d, target)
    requires IsAncestor(par, par[d], target, p)
    ensures !Above(par, d, par[d]) && !Above(par, d, par[target])
    ensures !Above(par, target, par[d]) && !Above(par, target, par[target])
    ensures p.None? && par[d] != d ==> !Above(par, par[d], par[target])
    ensures p.Some? ==> !Above(par, par[target], par[d])
  {
    hide HasRoot, Reaches;
    NotUnder(par, d, target);
    NotUnder(par, target, d);
    ReachesStep(par, target, par[d]);
    assert HasRoot(par, d) && HasRoot(par, target);
    NotAboveParent(par, d);
    NotAboveParent(par, target);
    BetweenIsNone(par, d, target);
  }

  lemma NotAboveParent(par: Parents, d: Id)
    requires HasRoot(par, d)
    ensures !Above(par, d, Parent(par, d))
  {
    hide HasRoot, Reaches;
    ReachesSelf(par, Parent(par, d));
    ReachesStep(par, d, Parent(par, d));
    if Reaches(par, Parent(par, d), d) { Antisymmetric(par, d, Parent(par, d)); }
  }

  /** If the parent of d is above x it is not below the parent of x. */
  lemma BetweenIsNone(par: Parents, d: Id, x: Id)
    requires IsForest(par) && x in par && d in par
    ensures Above(par, par[d], x) ==> !Above(par, par[x], par[d])
  {
    hide HasRoot, Reaches;
    ParentIn(par, d);
    assert HasRoot(par, par[d]);
    ReachesStep(par, x, par[d]);
    if Above(par, par[d], x) && Above(par, par[x], par[d]) { Antisymmetric(par, par[d], par[x]); }
  }

  lemma Take(par: Parents, held: set<Id>, d: Id, rest: seq<LockEvent>)
    ensures Disciplined(par, held, [Lock(d)] + rest) <==> Allowed(par, held, d) && Disciplined(par, held + {d}, rest)
  {
    hide Above, Allowed;
    assert ([Lock(d)] + rest)[1..] == rest;
  }

  lemma Give(par: Parents, held: set<Id>, d: Id, rest: seq<LockEvent>)
    ensures Disciplined(par, held, [Unlock(d)] + rest) <==> d in held && Disciplined(par, held - {d}, rest)
  {
    hide Above, Allowed;
    assert ([Unlock(d)] + rest)[1..] == rest;
  }

  lemma GiveThree(par: Parents, held: set<Id>, a: Id, b: Id, c: Id)
    requires a != b && b != c && a != c && held == {a, b, c}
    ensures Disciplined(par, held, [Unlock(a)] + ([Unlock(b)] + ([Unlock(c)] + [])))
  {
    hide Above, Allowed;
    Give(par, held, a, [Unlock(b)] + ([Unlock(c)] + []));
    Give(par, held - {a}, b, [Unlock(c)] + []);
    Give(par, held - {a} - {b}, c, []);
    assert held - {a} - {b} - {c} == {};
  }

  lemma GiveFour(par: Parents, held: set<Id>, a: Id, b: Id, c: Id, d: Id)
    requires a != b && a != c && a != d && b != c && b != d && c != d && held == {a, b, c, d}
    ensures Disciplined(par, held, [Unlock(a)] + ([Unlock(b)] + ([Unlock(c)] + ([Unlock(d)] + []))))
  {
    hide Above, Allowed;
    Give(par, held, a, [Unlock(b)] + ([Unlock(c)] + ([Unlock(d)] + [])));
    assert held - {a} == {b, c, d};
    GiveThree(par, held - {a}, b, c, d);
  }

  lemma OneParent(par: Parents, x: Id, d: Id, target: Id)
    requires x != d && d != target && !Above(par, d, x) && !Above(par, target, x) && !Above(par, target, d)
    ensures Disciplined(par, {}, [Lock(x), Lock(d), Lock(target), Unlock(x), Unlock(target), Unlock(d)]) <==>
        x != target
  {
    hide Above;
    var gives := [Unlock(x)] + ([Unlock(target)] + ([Unlock(d)] + []));
    Take(par, {}, x, [Lock(d)] + ([Lock(target)] + gives));
    assert {} + {x} == {x};
    Take(par, {x}, d, [Lock(target)] + gives);
    assert {x} + {d} == {x, d};
    Take(par, {x, d}, target, gives);
    if x != target { GiveThree(par, {x, d} + {target}, x, target, d); }
    assert [Lock(x)] + ([Lock(d)] + ([Lock(target)] + gives)) ==
        [Lock(x), Lock(d), Lock(target), Unlock(x), Unlock(target), Unlock(d)];
  }

  /** Four locks taken in order: what is still to be decided is whether the last was held already. */
  lemma TakeFour(par: Parents, x: Id, y: Id, d: Id, target: Id, gives: seq<LockEvent>)
    requires x != y && x != d && y != d && y != target && d != target
    requires !Above(par, y, x) && !Above(par, d, x) && !Above(par, d, y)
    requires !Above(par, target, x) && !Above(par, target, y) && !Above(par, target, d)
    ensures Disciplined(par, {}, [Lock(x)] + ([Lock(y)] + ([Lock(d)] + ([Lock(target)] + gives)))) <==>
        x != target && Disciplined(par, {x, y, d} + {target}, gives)
  {
    hide Above;
    var three := [Lock(d)] + ([Lock(target)] + gives);
    TakeTwo(par, x, y, three);
    Take(par, {x, y}, d, [Lock(target)] + gives);
    assert {x, y} + {d} == {x, y, d};
    Take(par, {x, y, d}, target, gives);
  }

  lemma TakeTwo(par: Parents, x: Id, y: Id, rest: seq<LockEvent>)
    requires x != y && !Above(par, y, x)
    ensures Disciplined(par, {}, [Lock(x)] + ([Lock(y)] + rest)) <==> Disciplined(par, {x, y}, rest)
  {
    hide Above;
    Take(par, {}, x, [Lock(y)] + rest);
    assert {} + {x} == {x};
    Take(par, {x}, y, rest);
    assert {x} + {y} == {x, y};
  }

  lemma TwoParents(par: Parents, x: Id, y: Id, d: Id, target: Id, a: Id, b: Id)
    requires x != y && x != d && y != d && y != target && d != target && ((a == x && b == y) || (a == y && b == x))
    requires !Above(par, y, x) && !Above(par, d, x) && !Above(par, d, y)
    requires !Above(par, target, x) && !Above(par, target, y) && !Above(par, target, d)
    ensures x != target <==>
      Disciplined(par, {}, [Lock(x), Lock(y), Lock(d), Lock(target), Unlock(a), Unlock(b), Unlock(target), Unlock(d)])
  {
    hide Above;
    var last := [Unlock(b)] + ([Unlock(target)] + ([Unlock(d)] + []));
    var gives := [Unlock(a)] + last;
    TakeFour(par, x, y, d, target, gives);
    if x != target { GiveFour(par, {x, y, d} + {target}, a, b, target, d); }
    assert [Lock(x)] + ([Lock(y)] + ([Lock(d)] + ([Lock(target)] + gives)))
        == [Lock(x), Lock(y), Lock(d), Lock(target), Unlock(a), Unlock(b), Unlock(target), Unlock(d)];
  }

  /** The locks of __d_move are well behaved just when the target is not a root, whose lock is taken twice. */
  lemma LocksAreDisciplined(par: Parents, d: Id, target: Id, p: Option<Id>)
    requires IsForest(par) && d in par && target in par && d != target && Unrelated(par, d, target)
    requires IsAncestor(par, par[d], target, p)
    ensures Disciplined(par, {}, LockTrace(par, d, target, p)) <==> !IsRoot(par, target)
  {
    hide IsForest, Reaches, Disciplined;
    NothingHeldTwice(par, d, target, p);
    OrderIsFromAbove(par, d, target, p);
    var op, tp := par[d], par[target];
    if op == d {
      OneParent(par, tp, d, target);
      assert LockTrace(par, d, target, p) == [Lock(tp), Lock(d), Lock(target), Unlock(tp), Unlock(target), Unlock(d)];
    } else if p.None? {
      TwoParents(par, tp, op, d, target, tp, op);
      assert LockTrace(par, d, target, p) ==
          [Lock(tp), Lock(op), Lock(d), Lock(target), Unlock(tp), Unlock(op), Unlock(target), Unlock(d)];
    } else {
      if tp == target { RootAlone(par, target, op); }
      if p == Some(target) {
        OneParent(par, op, d, target);
        assert LockTrace(par, d, target, p) == [Lock(op), Lock(d), Lock(target), Unlock(op), Unlock(target), Unlock(d)];
      } else {
        TwoParents(par, op, tp, d, target, tp, op);
        assert LockTrace(par, d, target, p)
            == [Lock(op), Lock(tp), Lock(d), Lock(target), Unlock(tp), Unlock(op), Unlock(target), Unlock(d)];
      }
    }
  }

  /** A trace locks just the dentries of s, gives each back, and holds them all at one point. */
  ghost predicate HoldsAll(trace: seq<LockEvent>, s: set<Id>) {
    && (forall x :: Lock(x) in trace <==> x in s) && (forall x :: Unlock(x) in trace <==> x in s)
    && forall i, j :: 0 <= i < j < |trace| && trace[i].Unlock? ==> trace[j].Unlock?
  }

  lemma HoldsBoth(gets: seq<LockEvent>, gives: seq<LockEvent>, s: set<Id>)
    requires forall k :: 0 <= k < |gets| ==> gets[k].Lock? && gets[k].d in s
    requires forall k :: 0 <= k < |gives| ==> gives[k].Unlock? && gives[k].d in s
    requires forall x :: x in s ==> Lock(x) in gets && Unlock(x) in gives
    ensures HoldsAll(gets + gives, s)
  {
    var trace := gets + gives;
    forall x ensures Lock(x) in trace <==> x in s {
      if Lock(x) in trace { assert Lock(x) in gets || Lock(x) in gives; }
    }
    forall x ensures Unlock(x) in trace <==> x in s {
      if Unlock(x) in trace { assert Unlock(x) in gets || Unlock(x) in gives; }
    }
    assert forall k :: 0 <= k < |gets| ==> trace[k] == gets[k];
    assert forall k :: |gets| <= k < |trace| ==> trace[k] == gives[k - |gets|];
  }

  /** __d_move holds the locks of both dentries and both parents at once, and no other. */
  lemma LocksCover(par: Parents, d: Id, target: Id, p: Option<Id>)
    requires IsForest(par) && d in par && target in par && d != target && Unrelated(par, d, target)
    requires IsAncestor(par, par[d], target, p)
    ensures HoldsAll(LockTrace(par, d, target, p), {d, target, par[d], par[target]})
  {
    hide IsForest, Reaches, Above, Unrelated;
    NothingHeldTwice(par, d, target, p);
    if p == Some(target) { ParentOfStep(par, d, target); }
    HoldsBoth(Acquired(par, d, target, p), Released(par[d], par[target], d, target), {d, target, par[d], par[target]});
  }

  /** The child of d's parent that the target is, or is below, when it is the target itself. */
  lemma ParentOfStep(par: Parents, d: Id, target: Id)
    requires d in par && target in par && IsAncestor(par, par[d], target, Some(target))
    ensures par[target] == par[d]
  {
    hide Reaches, Above;
  }
}
