/** The tree of dentries with its reference counts. */
module DcacheTree {
  import opened Forests

  /** ext counts the references held from outside the tree; the kernel does not store it. */
  datatype Tree = Tree(
    parent: Parents,              // d_parent
    subdirs: map<Id, seq<Id>>,    // d_subdirs, in list order
    count: map<Id, int>,          // d_lockref.count
    ext: map<Id, nat>)

  predicate Domains(t: Tree) {
    t.subdirs.Keys == t.parent.Keys && t.count.Keys == t.parent.Keys && t.ext.Keys == t.parent.Keys
  }

  predicate Placed(t: Tree, d: Id) { Domains(t) && d in t.parent && t.parent[d] in t.parent }

  predicate NoDup(s: seq<Id>) { forall i, j :: 0 <= i < j < |s| ==> s[i] != s[j] }

  /** d_subdirs lists exactly the children. */
  ghost predicate ListOk(par: Parents, s: seq<Id>, d: Id) { NoDup(s) && forall c :: c in s <==> c in Kids(par, d) }

  ghost predicate ListsOk(t: Tree)
    requires Domains(t)
  {
    forall d :: d in t.parent ==> ListOk(t.parent, t.subdirs[d], d)
  }

  /** A dentry's count is its external references plus its children. */
  ghost predicate RefOk(t: Tree, d: Id)
    requires Domains(t) && d in t.parent
  {
    t.count[d] == t.ext[d] + |Kids(t.parent, d)|
  }

  ghost predicate RefsOk(t: Tree)
    requires Domains(t)
  {
    forall d :: d in t.parent ==> RefOk(t, d)
  }

  ghost predicate TreeOk(t: Tree) { Domains(t) && IsForest(t.parent) && ListsOk(t) && RefsOk(t) }

  function Remove(s: seq<Id>, c: Id): seq<Id> {
    if s == [] then [] else if s[0] == c then Remove(s[1..], c) else [s[0]] + Remove(s[1..], c)
  }

  lemma {:induction false} RemoveIs(s: seq<Id>, c: Id)
    ensures forall x :: x in Remove(s, c) <==> x in s && x != c
    ensures NoDup(s) ==> NoDup(Remove(s, c))
  {
    if s != [] {
      RemoveIs(s[1..], c);
      assert forall x :: x in s <==> x == s[0] || x in s[1..];
      if NoDup(s) {
        var r := Remove(s[1..], c);
        assert s[0] !in s[1..];
        assert NoDup([s[0]] + r);
      }
    }
  }

  /** What stays in the list keeps its order. */
  lemma {:induction false} RemoveSplit(a: seq<Id>, c: Id, b: seq<Id>)
    requires c !in a && c !in b
    ensures Remove(a + [c] + b, c) == a + b
  {
    if a == [] {
      assert [] + [c] + b == [c] + b;
      RemoveNone(b, c);
    } else {
      assert (a + [c] + b)[1..] == a[1..] + [c] + b;
      RemoveSplit(a[1..], c, b);
    }
  }

  lemma {:induction false} RemoveNone(s: seq<Id>, c: Id)
    requires c !in s
    ensures Remove(s, c) == s
  {
    if s != [] { RemoveNone(s[1..], c); }
  }

  // ---- the steps ----

  function AllocRoot(t: Tree, d: Id): Tree {
    Tree(t.parent[d := d], t.subdirs[d := []], t.count[d := 1], t.ext[d := 1])
  }

  /** d_alloc: the child takes a reference on its parent and goes to the head of its list. */
  function Alloc(t: Tree, d: Id, p: Id): Tree
    requires Domains(t) && p in t.parent
  {
    Tree(t.parent[d := p], t.subdirs[p := [d] + t.subdirs[p]][d := []],
         t.count[p := t.count[p] + 1][d := 1], t.ext[d := 1])
  }

  /** A reference more for the caller: lookup, dget. */
  function Get(t: Tree, d: Id): Tree
    requires Domains(t) && d in t.parent
  {
    t.(count := t.count[d := t.count[d] + 1], ext := t.ext[d := t.ext[d] + 1])
  }

  /** A reference given back, the dentry stays. */
  function Drop(t: Tree, d: Id): Tree
    requires Domains(t) && d in t.parent && t.ext[d] > 0
  {
    t.(count := t.count[d := t.count[d] - 1], ext := t.ext[d := t.ext[d] - 1])
  }

  /** dentry_unlist: out of the tree. */
  function Unlist(t: Tree, d: Id): Tree
    requires Placed(t, d)
  {
    var p := t.parent[d];
    Tree(t.parent - {d}, t.subdirs[p := Remove(t.subdirs[p], d)] - {d}, t.count - {d}, t.ext - {d})
  }

  /** __dentry_kill on a caller's last reference, or on an unused dentry; the one that d held on its parent is now
      the caller's to drop. */
  function Kill(t: Tree, d: Id): Tree
    requires Placed(t, d)
  {
    var p, t' := t.parent[d], Unlist(t, d);
    if p == d then t' else t'.(ext := t'.ext[p := t'.ext[p] + 1])
  }

  /** shrink_dentry_list on an unused d: its reference on the parent is dropped first. */
  function KillUnused(t: Tree, d: Id): Tree
    requires Placed(t, d)
  {
    var p, t' := t.parent[d], Unlist(t, d);
    if p == d then t' else t'.(count := t'.count[p := t'.count[p] - 1])
  }

  /** list_move to the head of the new parent's list. */
  function Relist(subdirs: map<Id, seq<Id>>, d: Id, old_: Id, new_: Id): map<Id, seq<Id>>
    requires old_ in subdirs && new_ in subdirs
  {
    var out := if old_ == d then subdirs else subdirs[old_ := Remove(subdirs[old_], d)];
    out[new_ := [d] + out[new_]]
  }

  /** __d_move without exchange: d takes the target's place in the tree, the target stays where it is. */
  function Move(t: Tree, d: Id, target: Id): Tree
    requires Placed(t, d) && Placed(t, target)
  {
    var p, q := t.parent[d], t.parent[target];
    var up := t.count[q := t.count[q] + 1];
    t.(parent := t.parent[d := q],
       subdirs := Relist(t.subdirs, d, p, q),
       count := if d == p then up else up[p := up[p] - 1])
  }

  /** __d_move with exchange: the two trade parents, and no count changes. */
  function Exchange(t: Tree, d: Id, target: Id): Tree
    requires Placed(t, d) && Placed(t, target)
  {
    var p, q := t.parent[d], t.parent[target];
    var first := Relist(t.subdirs, target, q, p);
    t.(parent := t.parent[d := q][target := p], subdirs := Relist(first, d, p, q))
  }

  // ---- cardinalities ----

  lemma KidsAdd(par: Parents, d: Id, q: Id, x: Id)
    requires IsForest(par) && d !in par
    ensures Kids(par[d := q], x) == if x == q && q != d then Kids(par, x) + {d} else Kids(par, x)
    ensures x != q ==> Kids(par[d := q], x) == Kids(par, x)
    ensures d !in Kids(par, x) && Kids(par, d) == {}
  {
    forall c | c in par ensures par[c] in par { ParentIn(par, c); }
  }

  lemma KidsRemove(par: Parents, d: Id, x: Id)
    requires d in par
    ensures Kids(par - {d}, x) == Kids(par, x) - {d}
    ensures d in Kids(par, x) <==> x == par[d] && x != d
  {
  }

  lemma KidsMove(par: Parents, d: Id, q: Id, x: Id)
    requires d in par
    ensures Kids(par[d := q], x) == if x == q && q != d then Kids(par, x) + {d} else Kids(par, x) - {d}
    ensures d in Kids(par, x) <==> x == par[d] && x != d
  {
  }

  // ---- what each step keeps ----

  /** The tree but for the counts. */
  ghost predicate ShapeOk(t: Tree) { Domains(t) && IsForest(t.parent) && ListsOk(t) }

  lemma TreeHasDomains(t: Tree)
    requires TreeOk(t)
    ensures Domains(t)
  {
  }

  lemma ListAdd(par: Parents, s: seq<Id>, d: Id, q: Id, x: Id)
    requires IsForest(par) && d !in par && x in par && ListOk(par, s, x)
    ensures ListOk(par[d := q], if x == q then [d] + s else s, x)
  {
    KidsAdd(par, d, q, x);
    assert d !in s;
  }

  lemma ListEmpty(par: Parents, d: Id, q: Id)
    requires IsForest(par) && d !in par
    ensures ListOk(par[d := q], [], d)
  {
    KidsAdd(par, d, q, d);
  }

  lemma RefAdd(par: Parents, d: Id, q: Id, x: Id)
    requires IsForest(par) && d !in par && (q == d || q in par)
    ensures |Kids(par[d := q], x)| == |Kids(par, x)| + if x == q && q != d then 1 else 0
    ensures |Kids(par[d := q], d)| == 0
  {
    KidsAdd(par, d, q, x);
    KidsAdd(par, d, q, d);
  }

  lemma AllocRootOk(t: Tree, d: Id)
    requires TreeOk(t) && d !in t.parent
    ensures TreeOk(AllocRoot(t, d))
  {
    hide IsForest, ListOk, Kids;
    var t' := AllocRoot(t, d);
    AddKeepsForest(t.parent, d, d);
    forall x | x in t'.parent ensures ListOk(t'.parent, t'.subdirs[x], x) {
      if x == d { ListEmpty(t.parent, d, d); } else { ListAdd(t.parent, t.subdirs[x], d, d, x); }
    }
    forall x | x in t'.parent ensures RefOk(t', x) {
      RefAdd(t.parent, d, d, x);
      if x != d { assert RefOk(t, x); }
    }
  }

  lemma AllocOk(t: Tree, d: Id, p: Id)
    requires TreeOk(t) && d !in t.parent && p in t.parent
    ensures TreeOk(Alloc(t, d, p))
  {
    hide IsForest, ListOk, Kids;
    var t' := Alloc(t, d, p);
    AddKeepsForest(t.parent, d, p);
    forall x | x in t'.parent ensures ListOk(t'.parent, t'.subdirs[x], x) {
      if x == d { ListEmpty(t.parent, d, p); } else { ListAdd(t.parent, t.subdirs[x], d, p, x); }
    }
    forall x | x in t'.parent ensures RefOk(t', x) {
      RefAdd(t.parent, d, p, x);
      if x != d { assert RefOk(t, x); }
    }
  }

  lemma GetOk(t: Tree, d: Id)
    requires TreeOk(t) && d in t.parent
    ensures TreeOk(Get(t, d))
  {
    hide IsForest, ListOk, Kids;
    var t' := Get(t, d);
    forall x | x in t'.parent ensures RefOk(t', x) { assert RefOk(t, x); }
  }

  lemma DropOk(t: Tree, d: Id)
    requires TreeOk(t) && d in t.parent && t.ext[d] > 0
    ensures TreeOk(Drop(t, d))
  {
    hide IsForest, ListOk, Kids;
    var t' := Drop(t, d);
    forall x | x in t'.parent ensures RefOk(t', x) { assert RefOk(t, x); }
  }

  /** A dentry with a single, external reference, or with none, has no children. */
  lemma LastRefHasNoKids(t: Tree, d: Id)
    requires TreeOk(t) && d in t.parent && (t.count[d] == 0 || (t.count[d] == 1 && t.ext[d] > 0))
    ensures Kids(t.parent, d) == {} && t.ext[d] == t.count[d]
  {
    hide IsForest, ListOk;
    assert RefOk(t, d);
  }

  lemma ListRemove(par: Parents, s: seq<Id>, d: Id, x: Id)
    requires d in par && x in par && x != d && ListOk(par, s, x)
    ensures ListOk(par - {d}, if x == par[d] then Remove(s, d) else s, x)
  {
    KidsRemove(par, d, x);
    RemoveIs(s, d);
  }

  lemma RefRemove(par: Parents, d: Id, x: Id)
    requires d in par && x != d
    ensures |Kids(par - {d}, x)| == |Kids(par, x)| - if x == par[d] then 1 else 0
  {
    KidsRemove(par, d, x);
  }

  lemma PlacedIn(t: Tree, d: Id)
    requires TreeOk(t) && d in t.parent
    ensures Placed(t, d)
  {
    hide IsForest;
    ParentIn(t.parent, d);
  }

  lemma UnlistOk(t: Tree, d: Id)
    requires TreeOk(t) && Placed(t, d) && Kids(t.parent, d) == {}
    ensures ShapeOk(Unlist(t, d))
  {
    hide IsForest, ListOk, RefOk, Remove, Kids;
    var t' := Unlist(t, d);
    RemoveKeepsForest(t.parent, d);
    forall x | x in t'.parent ensures ListOk(t'.parent, t'.subdirs[x], x) {
      ListRemove(t.parent, t.subdirs[x], d, x);
    }
  }

  lemma KillOk(t: Tree, d: Id)
    requires TreeOk(t) && d in t.parent && (t.count[d] == 0 || (t.count[d] == 1 && t.ext[d] > 0))
    ensures Placed(t, d) && TreeOk(Kill(t, d))
    ensures var p := t.parent[d]; p != d ==> p in Kill(t, d).parent && Kill(t, d).ext[p] > 0
  {
    hide IsForest, ListOk, Kids, Remove;
    PlacedIn(t, d);
    LastRefHasNoKids(t, d);
    UnlistOk(t, d);
    var t' := Kill(t, d);
    forall x | x in t'.parent ensures RefOk(t', x) {
      RefRemove(t.parent, d, x);
      assert RefOk(t, x);
    }
  }

  lemma KillUnusedOk(t: Tree, d: Id)
    requires TreeOk(t) && d in t.parent && t.count[d] == 0
    ensures Placed(t, d) && TreeOk(KillUnused(t, d))
  {
    hide IsForest, ListOk, Kids, Remove;
    PlacedIn(t, d);
    LastRefHasNoKids(t, d);
    UnlistOk(t, d);
    var t' := KillUnused(t, d);
    forall x | x in t'.parent ensures RefOk(t', x) {
      RefRemove(t.parent, d, x);
      assert RefOk(t, x);
    }
  }
}
