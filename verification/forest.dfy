/** Parent pointers: dentries form a forest, each root being its own parent. */
module Forests {

  type Id = nat
  type Parents = map<Id, Id>

  function Parent(par: Parents, d: Id): Id { if d in par then par[d] else d }

  predicate IsRoot(par: Parents, d: Id) { d in par && par[d] == d }

  /** The k-th ancestor; a root is its own ancestor. */
  function Up(par: Parents, d: Id, k: nat): Id
    decreases k
  {
    if k == 0 then d else Up(par, Parent(par, d), k - 1)
  }

  ghost predicate Reaches(par: Parents, d: Id, a: Id) { exists k: nat :: Up(par, d, k) == a }

  ghost predicate HasRoot(par: Parents, d: Id) { exists k: nat :: IsRoot(par, Up(par, d, k)) }

  /** Following parents from any dentry ends at a root. */
  ghost predicate IsForest(par: Parents) { forall d {:trigger HasRoot(par, d)} :: d in par ==> HasRoot(par, d) }

  /** a is a proper ancestor of d. */
  ghost predicate Above(par: Parents, a: Id, d: Id) { a != d && Reaches(par, d, a) }

  function Kids(par: Parents, d: Id): set<Id> { set c | c in par && c != d && par[c] == d }

  lemma {:induction false} UpPlus(par: Parents, d: Id, i: nat, j: nat)
    ensures Up(par, Up(par, d, i), j) == Up(par, d, i + j)
    decreases i
  {
    if i > 0 { UpPlus(par, Parent(par, d), i - 1, j); }
  }

  lemma {:induction false} UpStuck(par: Parents, d: Id, k: nat)
    requires Parent(par, d) == d
    ensures Up(par, d, k) == d
    decreases k
  {
    if k > 0 { UpStuck(par, d, k - 1); }
  }

  lemma UpReaches(par: Parents, d: Id, k: nat)
    ensures Reaches(par, d, Up(par, d, k))
  {
  }

  lemma ReachesSelf(par: Parents, d: Id)
    ensures Reaches(par, d, d)
  {
    assert Up(par, d, 0) == d;
  }

  lemma ReachesStep(par: Parents, d: Id, a: Id)
    ensures Reaches(par, d, a) <==> d == a || Reaches(par, Parent(par, d), a)
  {
    if Reaches(par, d, a) {
      var k: nat :| Up(par, d, k) == a;
      if k > 0 { assert Up(par, Parent(par, d), k - 1) == a; }
    }
    if d == a { ReachesSelf(par, d); }
    if Reaches(par, Parent(par, d), a) {
      var k: nat :| Up(par, Parent(par, d), k) == a;
      assert Up(par, d, k + 1) == a;
    }
  }

  lemma ReachesTrans(par: Parents, x: Id, y: Id, z: Id)
    requires Reaches(par, x, y) && Reaches(par, y, z)
    ensures Reaches(par, x, z)
  {
    var i: nat :| Up(par, x, i) == y;
    var j: nat :| Up(par, y, j) == z;
    UpPlus(par, x, i, j);
  }

  lemma HasRootIn(par: Parents, d: Id)
    requires HasRoot(par, d)
    ensures d in par && HasRoot(par, par[d])
  {
    var k: nat :| IsRoot(par, Up(par, d, k));
    if d !in par { UpStuck(par, d, k); }
    if k > 0 { assert IsRoot(par, Up(par, par[d], k - 1)); } else { assert IsRoot(par, Up(par, par[d], 0)); }
  }

  lemma ParentIn(par: Parents, d: Id)
    requires IsForest(par) && d in par
    ensures par[d] in par
  {
    assert HasRoot(par, d);
    HasRootIn(par, d);
    HasRootIn(par, par[d]);
  }

  lemma RootHasRoot(par: Parents, d: Id)
    requires IsRoot(par, d)
    ensures HasRoot(par, d)
  {
    assert IsRoot(par, Up(par, d, 0));
  }

  lemma StepHasRoot(par: Parents, d: Id)
    requires HasRoot(par, Parent(par, d))
    ensures HasRoot(par, d)
  {
    var k: nat :| IsRoot(par, Up(par, Parent(par, d), k));
    assert IsRoot(par, Up(par, d, k + 1));
  }

  lemma RootVia(par: Parents, x: Id, d: Id)
    requires Reaches(par, x, d) && HasRoot(par, d)
    ensures HasRoot(par, x)
  {
    var i: nat :| Up(par, x, i) == d;
    var j: nat :| IsRoot(par, Up(par, d, j));
    UpPlus(par, x, i, j);
  }

  // ---- depth ----

  /** Steps up to the root. */
  ghost function Depth(par: Parents, d: Id): nat
    requires HasRoot(par, d)
  {
    var k: nat :| IsRoot(par, Up(par, d, k));
    StepsTo(par, d, k)
  }

  ghost function StepsTo(par: Parents, d: Id, k: nat): nat
    requires IsRoot(par, Up(par, d, k))
    decreases k
  {
    if IsRoot(par, d) then 0 else 1 + StepsTo(par, Parent(par, d), k - 1)
  }

  lemma {:induction false} StepsToSame(par: Parents, d: Id, i: nat, j: nat)
    requires IsRoot(par, Up(par, d, i)) && IsRoot(par, Up(par, d, j))
    ensures StepsTo(par, d, i) == StepsTo(par, d, j)
    decreases i
  {
    if !IsRoot(par, d) { StepsToSame(par, Parent(par, d), i - 1, j - 1); }
  }

  lemma DepthIs(par: Parents, d: Id, k: nat)
    requires IsRoot(par, Up(par, d, k))
    ensures HasRoot(par, d) && Depth(par, d) == StepsTo(par, d, k)
  {
    var j: nat :| IsRoot(par, Up(par, d, j)) && Depth(par, d) == StepsTo(par, d, j);
    StepsToSame(par, d, j, k);
  }

  lemma DepthStep(par: Parents, d: Id)
    requires HasRoot(par, d)
    ensures d in par && HasRoot(par, par[d])
    ensures IsRoot(par, d) ==> Depth(par, d) == 0
    ensures !IsRoot(par, d) ==> Depth(par, d) == Depth(par, par[d]) + 1
  {
    hide Depth;
    HasRootIn(par, d);
    var k: nat :| IsRoot(par, Up(par, d, k));
    DepthIs(par, d, k);
    if !IsRoot(par, d) { DepthIs(par, par[d], k - 1); }
  }

  lemma {:induction false} UpDepth(par: Parents, d: Id, k: nat)
    requires HasRoot(par, d)
    ensures HasRoot(par, Up(par, d, k)) && Depth(par, Up(par, d, k)) <= Depth(par, d)
    ensures Depth(par, Up(par, d, k)) == Depth(par, d) ==> Up(par, d, k) == d
    decreases k
  {
    hide Depth, HasRoot;
    if k > 0 {
      DepthStep(par, d);
      if IsRoot(par, d) { UpStuck(par, d, k); } else { UpDepth(par, par[d], k - 1); }
    }
  }

  lemma ReachesDepth(par: Parents, d: Id, a: Id)
    requires HasRoot(par, d) && Reaches(par, d, a)
    ensures HasRoot(par, a) && (a == d || Depth(par, a) < Depth(par, d))
  {
    hide Depth, HasRoot;
    var k: nat :| Up(par, d, k) == a;
    UpDepth(par, d, k);
  }

  lemma Antisymmetric(par: Parents, x: Id, y: Id)
    requires HasRoot(par, x) && Reaches(par, x, y) && Reaches(par, y, x)
    ensures x == y
  {
    hide Depth, HasRoot, Reaches;
    ReachesDepth(par, x, y);
    ReachesDepth(par, y, x);
  }

  // ---- changing one pointer ----

  /** Those who do not reach d keep their ancestors when d gets another parent. */
  lemma {:induction false} UpAvoids(par: Parents, x: Id, k: nat, d: Id, q: Id)
    requires !Reaches(par, x, d)
    ensures Up(par[d := q], x, k) == Up(par, x, k)
    decreases k
  {
    hide Reaches;
    ReachesSelf(par, x);
    ReachesStep(par, x, d);
    if k > 0 { UpAvoids(par, Parent(par, x), k - 1, d, q); }
  }

  lemma {:induction false} UpUntil(par: Parents, x: Id, k: nat, d: Id, q: Id)
    requires Up(par, x, k) == d
    ensures Reaches(par[d := q], x, d)
    decreases k
  {
    hide Reaches;
    var par' := par[d := q];
    ReachesSelf(par', d);
    if x != d {
      UpUntil(par, Parent(par, x), k - 1, d, q);
      ReachesStep(par', x, d);
    }
  }

  lemma ReachesAvoids(par: Parents, x: Id, a: Id, d: Id, q: Id)
    requires !Reaches(par, x, d)
    ensures Reaches(par[d := q], x, a) <==> Reaches(par, x, a)
  {
    if Reaches(par, x, a) {
      var k: nat :| Up(par, x, k) == a;
      UpAvoids(par, x, k, d, q);
      assert Up(par[d := q], x, k) == a;
    }
    if Reaches(par[d := q], x, a) {
      var k: nat :| Up(par[d := q], x, k) == a;
      UpAvoids(par, x, k, d, q);
      assert Up(par, x, k) == a;
    }
  }

  lemma ReachesVia(par: Parents, x: Id, d: Id, q: Id)
    requires Reaches(par, x, d)
    ensures Reaches(par[d := q], x, d)
  {
    var k: nat :| Up(par, x, k) == d;
    UpUntil(par, x, k, d, q);
  }

  lemma AvoidKeepsRoot(par: Parents, x: Id, d: Id, q: Id)
    requires HasRoot(par, x) && !Reaches(par, x, d)
    ensures HasRoot(par[d := q], x)
  {
    var k: nat :| IsRoot(par, Up(par, x, k));
    UpAvoids(par, x, k, d, q);
    UpReaches(par, x, k);
    assert IsRoot(par[d := q], Up(par[d := q], x, k));
  }

  /** Hanging d under a dentry that is not below it keeps the forest. */
  lemma ReparentKeepsForest(par: Parents, d: Id, q: Id)
    requires IsForest(par) && q in par && !Reaches(par, q, d)
    ensures IsForest(par[d := q])
  {
    hide HasRoot, Reaches;
    var par' := par[d := q];
    assert HasRoot(par, q);
    AvoidKeepsRoot(par, q, d, q);
    StepHasRoot(par', d);
    forall x | x in par' ensures HasRoot(par', x) {
      if Reaches(par, x, d) {
        ReachesVia(par, x, d, q);
        RootVia(par', x, d);
      } else {
        ReachesSelf(par, x);
        assert HasRoot(par, x);
        AvoidKeepsRoot(par, x, d, q);
      }
    }
  }

  /** Nobody reaches a dentry that is not there yet. */
  lemma {:induction false} NewUnreached(par: Parents, x: Id, k: nat, d: Id)
    requires HasRoot(par, x) && d !in par
    ensures Up(par, x, k) != d
    decreases k
  {
    hide HasRoot;
    HasRootIn(par, x);
    if k > 0 { NewUnreached(par, par[x], k - 1, d); }
  }

  /** A new leaf, or a new root. */
  lemma AddKeepsForest(par: Parents, d: Id, q: Id)
    requires IsForest(par) && d !in par && (q in par || q == d)
    ensures IsForest(par[d := q])
  {
    hide HasRoot, Reaches;
    var par' := par[d := q];
    forall x | x in par ensures HasRoot(par', x) {
      assert HasRoot(par, x);
      NotReached(par, x, d);
      AvoidKeepsRoot(par, x, d, q);
    }
    if q == d { RootHasRoot(par', d); } else { StepHasRoot(par', d); }
  }

  lemma NotReached(par: Parents, x: Id, d: Id)
    requires HasRoot(par, x) && d !in par
    ensures !Reaches(par, x, d)
  {
    if Reaches(par, x, d) {
      var k: nat :| Up(par, x, k) == d;
      NewUnreached(par, x, k, d);
    }
  }

  lemma {:induction false} UpOut(par: Parents, x: Id, k: nat, d: Id)
    requires Kids(par, d) == {} && x != d
    ensures Up(par - {d}, x, k) == Up(par, x, k) != d
    decreases k
  {
    if k > 0 {
      assert x in par && par[x] == d ==> x in Kids(par, d);
      UpOut(par, Parent(par, x), k - 1, d);
    }
  }

  /** A dentry without children can go. */
  lemma RemoveKeepsForest(par: Parents, d: Id)
    requires IsForest(par) && Kids(par, d) == {}
    ensures IsForest(par - {d})
  {
    forall x | x in par - {d} ensures HasRoot(par - {d}, x) {
      assert HasRoot(par, x);
      var k: nat :| IsRoot(par, Up(par, x, k));
      UpOut(par, x, k, d);
      assert IsRoot(par - {d}, Up(par - {d}, x, k));
    }
  }

  lemma Fewer(par: Parents, d: Id)
    requires d in par
    ensures |par - {d}| < |par|
  {
    var less := par - {d};
    assert par.Keys == less.Keys + {d};
    assert |less| == |less.Keys| && |par| == |par.Keys|;
  }

  // ---- what lies below a dentry ----

  ghost function Below(par: Parents, d: Id): set<Id> { set x | x in par && Reaches(par, x, d) }

  lemma BelowKid(par: Parents, d: Id, c: Id)
    requires IsForest(par) && d in par && c in Kids(par, d)
    ensures Below(par, c) < Below(par, d)
  {
    hide Reaches, HasRoot;
    ReachesSelf(par, d);
    ReachesStep(par, c, d);
    forall x | x in Below(par, c) ensures x in Below(par, d) { ReachesTrans(par, x, c, d); }
    assert HasRoot(par, d);
    assert d in Below(par, d);
    if Reaches(par, d, c) { Antisymmetric(par, d, c); }
    assert d !in Below(par, c);
  }

  /** Below d there are d, and what lies below its children. */
  lemma BelowSplit(par: Parents, d: Id, x: Id)
    requires x in Below(par, d)
    ensures x == d || exists c :: c in Kids(par, d) && x in Below(par, c)
  {
    var k: nat :| Up(par, x, k) == d;
    if x != d { BelowVia(par, x, k, d); }
  }

  lemma {:induction false} BelowVia(par: Parents, x: Id, k: nat, d: Id)
    requires x in par && Up(par, x, k) == d && x != d
    ensures exists c :: c in Kids(par, d) && x in Below(par, c)
    decreases k
  {
    if par[x] == d {
      ReachesSelf(par, x);
      assert x in Kids(par, d) && x in Below(par, x);
    } else {
      if par[x] !in par { UpStuck(par, par[x], k - 1); }
      BelowVia(par, par[x], k - 1, d);
      var c :| c in Kids(par, d) && par[x] in Below(par, c);
      ReachesStep(par, x, c);
      assert x in Below(par, c);
    }
  }

  /** Different children of d have nothing in common below them. */
  lemma BelowApart(par: Parents, d: Id, a: Id, b: Id, x: Id)
    requires IsForest(par) && a in Kids(par, d) && b in Kids(par, d)
    requires x in Below(par, a) && x in Below(par, b)
    ensures a == b
  {
    var i: nat :| Up(par, x, i) == a;
    var j: nat :| Up(par, x, j) == b;
    if i <= j {
      SameLevel(par, d, a, b, x, i, j);
    } else {
      SameLevel(par, d, b, a, x, j, i);
    }
  }

  lemma SameLevel(par: Parents, d: Id, a: Id, b: Id, x: Id, i: nat, j: nat)
    requires IsForest(par) && a in Kids(par, d) && b in Kids(par, d)
    requires Up(par, x, i) == a && Up(par, x, j) == b && i <= j
    ensures a == b
  {
    hide Depth, HasRoot;
    UpPlus(par, x, i, j - i);
    assert HasRoot(par, a) && HasRoot(par, b);
    UpDepth(par, a, j - i);
    DepthStep(par, a);
    DepthStep(par, b);
  }
}
