/** The hash table of dentries: buckets by name hash, and the separate list of hashed roots. */
module DcacheIndex {
  import opened Forests
  import opened Helpers
  import opened DcacheTree

  datatype Index = Index(
    name: map<Id, string>,          // d_name.name
    hash: map<Id, nat>,             // d_name.hash
    hashed: set<Id>,                // d_unhashed is false
    table: map<nat, seq<Id>>,       // dentry_hashtable
    roots: seq<Id>,                 // s_roots
    shift: nat)                     // d_hash_shift

  /** hash >> d_hash_shift */
  function Bucket(shift: nat, h: nat): nat
    decreases shift
  {
    if shift == 0 then h else Bucket(shift - 1, h / 2)
  }

  /** Each position of the shift halves what the one before gives. */
  lemma {:induction false} BucketHalves(shift: nat, h: nat)
    ensures Bucket(0, h) == h && Bucket(shift + 1, h) == Bucket(shift, h) / 2
    decreases shift
  {
    if shift > 0 { BucketHalves(shift - 1, h / 2); }
  }

  function Chain(x: Index, b: nat): seq<Id> { if b in x.table then x.table[b] else [] }

  /** d_hash(dentry->d_name.hash) */
  function Home(x: Index, d: Id): nat
    requires d in x.hash
  {
    Bucket(x.shift, x.hash[d])
  }

  predicate Keyed(x: Index, par: Parents) { x.name.Keys == par.Keys && x.hash.Keys == par.Keys && x.hashed <= par.Keys }

  predicate Belongs(x: Index, par: Parents, d: Id, b: nat)
    requires Keyed(x, par)
  {
    d in x.hashed && par[d] != d && Home(x, d) == b
  }

  /** Bucket b holds, once each, the hashed non-roots whose current hash leads to it. */
  ghost predicate BucketOk(x: Index, par: Parents, b: nat)
    requires Keyed(x, par)
  {
    NoDup(Chain(x, b)) && forall d :: d in Chain(x, b) <==> Belongs(x, par, d, b)
  }

  ghost predicate RootsOk(x: Index, par: Parents)
    requires Keyed(x, par)
  {
    NoDup(x.roots) && forall d :: d in x.roots <==> d in x.hashed && par[d] == d
  }

  ghost predicate IndexOk(x: Index, par: Parents) {
    Keyed(x, par) && RootsOk(x, par) && forall b {:trigger BucketOk(x, par, b)} :: BucketOk(x, par, b)
  }

  /** A name's hash is a function of the parent and the name. */
  ghost predicate HashOk(x: Index, par: Parents, f: (Id, string) -> nat, d: Id)
    requires Keyed(x, par)
  {
    d in par && par[d] != d ==> x.hash[d] == f(par[d], x.name[d])
  }

  ghost predicate HashesOk(x: Index, par: Parents, f: (Id, string) -> nat) {
    Keyed(x, par) && forall d {:trigger HashOk(x, par, f, d)} :: HashOk(x, par, f, d)
  }

  // ---- the steps ----

  /** ___d_drop: out of the list the dentry is on; it does not count as unhashed yet. */
  function Unchain(x: Index, d: Id, root: bool): Index
    requires d in x.hash
  {
    if root then x.(roots := Remove(x.roots, d)) else
    var b := Home(x, d);
    x.(table := x.table[b := Remove(Chain(x, b), d)])
  }

  /** __d_drop */
  function DropHash(x: Index, d: Id, root: bool): Index
    requires d in x.hash
  {
    if d in x.hashed then Unchain(x, d, root).(hashed := x.hashed - {d}) else x
  }

  /** __d_rehash: to the head of the bucket. */
  function Rehash(x: Index, d: Id): Index
    requires d in x.hash
  {
    var b := Home(x, d);
    x.(table := x.table[b := [d] + Chain(x, b)], hashed := x.hashed + {d})
  }

  function Rename(x: Index, d: Id, name: string, hash: nat): Index {
    x.(name := x.name[d := name], hash := x.hash[d := hash])
  }

  function Forget(x: Index, d: Id): Index { x.(name := x.name - {d}, hash := x.hash - {d}) }

  /** A root goes on s_roots. */
  function HashRoot(x: Index, d: Id): Index { x.(roots := [d] + x.roots, hashed := x.hashed + {d}) }

  /** Both are unhashed before either gets a new name or parent. */
  function BothDropped(x: Index, par: Parents, d: Id, target: Id): Index
    requires Keyed(x, par) && d in par && target in par
  {
    DropHash(DropHash(x, d, par[d] == d), target, par[target] == target)
  }

  /** __d_move: d takes the target's name and is hashed again, the target is left unhashed. */
  function Moved(x: Index, par: Parents, d: Id, target: Id): Index
    requires Keyed(x, par) && d in par && target in par
  {
    Rehash(Rename(BothDropped(x, par, d, target), d, x.name[target], x.hash[target]), d)
  }

  /** __d_move with exchange: the two trade names and both are hashed again. */
  function Exchanged(x: Index, par: Parents, d: Id, target: Id): Index
    requires Keyed(x, par) && d in par && target in par
  {
    var off := BothDropped(x, par, d, target);
    var named := Rename(Rename(off, d, x.name[target], x.hash[target]), target, x.name[d], x.hash[d]);
    Rehash(Rehash(named, target), d)
  }

  function Off(x: Index, d: Id, root: bool): Index
    requires d in x.hash
  {
    if d in x.hashed then Unchain(x, d, root) else x
  }

  /** Both taken off their lists, but not yet marked as unhashed. */
  function BothOff(x: Index, par: Parents, d: Id, target: Id): Index
    requires Keyed(x, par) && d in par && target in par
  {
    Off(Off(x, d, par[d] == d), target, par[target] == target)
  }

  lemma OffThenMarked(x: Index, h: set<Id>, d: Id, root: bool)
    requires d in x.hash
    ensures DropHash(x, d, root) == Off(x, d, root).(hashed := x.hashed - {d})
    ensures (d in x.hashed <==> d in h) ==> Off(x.(hashed := h), d, root) == Off(x, d, root).(hashed := h)
    ensures Off(x, d, root).hashed == x.hashed && Off(x, d, root).hash == x.hash && Off(x, d, root).name == x.name
  {
    hide Bucket, Remove;
    if d !in x.hashed { assert x.hashed - {d} == x.hashed; }
  }

  /** __d_move marks nothing as unhashed on the way; what it ends with is the same. */
  lemma MarkedLate(x: Index, par: Parents, d: Id, target: Id)
    requires Keyed(x, par) && d in par && target in par && d != target
    ensures BothOff(x, par, d, target).hashed == x.hashed
    ensures BothDropped(x, par, d, target) == BothOff(x, par, d, target).(hashed := x.hashed - {d} - {target})
  {
    hide Unchain;
    var one := Off(x, d, par[d] == d);
    OffThenMarked(x, x.hashed, d, par[d] == d);
    OffThenMarked(one, x.hashed - {d}, target, par[target] == target);
    OffThenMarked(one.(hashed := x.hashed - {d}), x.hashed, target, par[target] == target);
  }

  lemma MovedLate(x: Index, par: Parents, d: Id, target: Id)
    requires Keyed(x, par) && d in par && target in par && d != target
    ensures Moved(x, par, d, target)
         == var off := Rename(BothOff(x, par, d, target), d, x.name[target], x.hash[target]);
            Rehash(off.(hashed := off.hashed - {target}), d)
  {
    hide BothDropped, BothOff, Bucket;
    MarkedLate(x, par, d, target);
    assert x.hashed - {d} - {target} + {d} == x.hashed - {target} + {d};
  }

  lemma ExchangedLate(x: Index, par: Parents, d: Id, target: Id)
    requires Keyed(x, par) && d in par && target in par && d != target
    ensures Exchanged(x, par, d, target)
         == var off := Rename(BothOff(x, par, d, target), d, x.name[target], x.hash[target]);
            Rehash(Rehash(Rename(off, target, x.name[d], x.hash[d]), target), d)
  {
    hide BothDropped, BothOff, Bucket;
    MarkedLate(x, par, d, target);
    assert x.hashed - {d} - {target} + {target} + {d} == x.hashed + {target} + {d};
  }

  // ---- what the steps keep ----

  lemma UnchainBucket(x: Index, par: Parents, d: Id, b: nat)
    requires Keyed(x, par) && d in par && BucketOk(x, par, b)
    ensures Keyed(DropHash(x, d, par[d] == d), par) && BucketOk(DropHash(x, d, par[d] == d), par, b)
  {
    hide Bucket;
    var x' := DropHash(x, d, par[d] == d);
    RemoveIs(Chain(x, b), d);
    assert forall e :: Belongs(x', par, e, b) <==> Belongs(x, par, e, b) && e != d;
    if d in x.hashed && par[d] != d && b == Home(x, d) {
      assert Chain(x', b) == Remove(Chain(x, b), d);
    } else {
      assert Chain(x', b) == Chain(x, b);
    }
  }

  lemma DropHashOk(x: Index, par: Parents, d: Id)
    requires IndexOk(x, par) && d in par
    ensures IndexOk(DropHash(x, d, par[d] == d), par) && d !in DropHash(x, d, par[d] == d).hashed
  {
    hide BucketOk, Remove;
    var x' := DropHash(x, d, par[d] == d);
    RemoveIs(x.roots, d);
    forall b ensures BucketOk(x', par, b) {
      assert BucketOk(x, par, b);
      UnchainBucket(x, par, d, b);
    }
  }

  lemma RehashBucket(x: Index, par: Parents, d: Id, b: nat)
    requires Keyed(x, par) && d in par && par[d] != d && d !in x.hashed && BucketOk(x, par, b)
    ensures Keyed(Rehash(x, d), par) && BucketOk(Rehash(x, d), par, b)
  {
    hide Bucket;
    var x' := Rehash(x, d);
    assert forall e :: Belongs(x', par, e, b) <==> Belongs(x, par, e, b) || (e == d && b == Home(x, d));
    assert d !in Chain(x, b);
    if b == Home(x, d) {
      assert Chain(x', b) == [d] + Chain(x, b);
    } else {
      assert Chain(x', b) == Chain(x, b);
    }
  }

  lemma RehashOk(x: Index, par: Parents, d: Id)
    requires IndexOk(x, par) && d in par && par[d] != d && d !in x.hashed
    ensures IndexOk(Rehash(x, d), par)
  {
    hide BucketOk;
    forall b ensures BucketOk(Rehash(x, d), par, b) {
      assert BucketOk(x, par, b);
      RehashBucket(x, par, d, b);
    }
  }

  /** Nothing in the lists depends on a dentry that is not hashed. */
  lemma UnhashedIsFree(x: Index, par: Parents, x': Index, par': Parents)
    requires IndexOk(x, par) && Keyed(x', par')
    requires x'.hashed == x.hashed && x'.table == x.table && x'.roots == x.roots && x'.shift == x.shift
    requires forall d :: d in x.hashed ==> x'.hash[d] == x.hash[d] && (par'[d] == d <==> par[d] == d)
    ensures IndexOk(x', par')
  {
    hide Bucket;
    forall b ensures BucketOk(x', par', b) {
      assert BucketOk(x, par, b);
      assert forall e :: Belongs(x', par', e, b) <==> Belongs(x, par, e, b);
      assert Chain(x', b) == Chain(x, b);
    }
  }

  lemma HashRootOk(x: Index, par: Parents, d: Id)
    requires IndexOk(x, par) && IsRoot(par, d) && d !in x.hashed
    ensures IndexOk(HashRoot(x, d), par)
  {
    hide Bucket;
    var x' := HashRoot(x, d);
    forall b ensures BucketOk(x', par, b) {
      assert BucketOk(x, par, b);
      assert forall e :: Belongs(x', par, e, b) <==> Belongs(x, par, e, b);
      assert Chain(x', b) == Chain(x, b);
    }
  }

  lemma BothDroppedOk(x: Index, par: Parents, d: Id, target: Id)
    requires IndexOk(x, par) && d in par && target in par
    ensures IndexOk(BothDropped(x, par, d, target), par)
    ensures BothDropped(x, par, d, target).hashed == x.hashed - {d, target}
  {
    hide RootsOk, BucketOk, Remove, Bucket;
    DropHashOk(x, par, d);
    DropHashOk(DropHash(x, d, par[d] == d), par, target);
  }

  lemma MovedOk(x: Index, par: Parents, d: Id, target: Id)
    requires IndexOk(x, par) && d in par && target in par && d != target && par[target] != d
    ensures IndexOk(Moved(x, par, d, target), par[d := par[target]])
    ensures Moved(x, par, d, target).hashed == x.hashed - {target} + {d}
  {
    hide RootsOk, BucketOk, BothDropped, Bucket;
    BothDroppedOk(x, par, d, target);
    SameNames(x, par, d, target);
    var off := BothDropped(x, par, d, target);
    var named := Rename(off, d, x.name[target], x.hash[target]);
    var par' := par[d := par[target]];
    UnhashedIsFree(off, par, named, par');
    RehashOk(named, par', d);
  }

  lemma SameNames(x: Index, par: Parents, d: Id, target: Id)
    requires Keyed(x, par) && d in par && target in par
    ensures var off := BothDropped(x, par, d, target);
      Keyed(off, par) && off.name == x.name && off.hash == x.hash && off.shift == x.shift
  {
  }

  lemma ExchangedOk(x: Index, par: Parents, d: Id, target: Id)
    requires IndexOk(x, par) && d in par && target in par && d != target && par[target] != d && par[d] != target
    ensures IndexOk(Exchanged(x, par, d, target), par[d := par[target]][target := par[d]])
    ensures Exchanged(x, par, d, target).hashed == x.hashed + {d, target}
  {
    hide RootsOk, BucketOk, BothDropped, Bucket;
    BothDroppedOk(x, par, d, target);
    SameNames(x, par, d, target);
    var off := BothDropped(x, par, d, target);
    var named := Rename(Rename(off, d, x.name[target], x.hash[target]), target, x.name[d], x.hash[d]);
    var par' := par[d := par[target]][target := par[d]];
    UnhashedIsFree(off, par, named, par');
    RehashOk(named, par', target);
    RehashOk(Rehash(named, target), par', d);
  }

  lemma MovedHashes(x: Index, par: Parents, f: (Id, string) -> nat, d: Id, target: Id)
    requires HashesOk(x, par, f) && d in par && target in par && d != target && par[target] != target
    ensures HashesOk(Moved(x, par, d, target), par[d := par[target]], f)
  {
    hide BothDropped, Bucket;
    SameNames(x, par, d, target);
    var par' := par[d := par[target]];
    assert HashOk(x, par, f, target);
    forall e ensures HashOk(Moved(x, par, d, target), par', f, e) { assert HashOk(x, par, f, e); }
  }

  lemma ExchangedHashes(x: Index, par: Parents, f: (Id, string) -> nat, d: Id, target: Id)
    requires HashesOk(x, par, f) && d in par && target in par && d != target && par[target] != target && par[d] != d
    ensures HashesOk(Exchanged(x, par, d, target), par[d := par[target]][target := par[d]], f)
  {
    hide BothDropped, Bucket;
    SameNames(x, par, d, target);
    var par' := par[d := par[target]][target := par[d]];
    assert HashOk(x, par, f, target) && HashOk(x, par, f, d);
    forall e ensures HashOk(Exchanged(x, par, d, target), par', f, e) { assert HashOk(x, par, f, e); }
  }

  // ---- lookup ----

  predicate Matches(x: Index, par: Parents, d: Id, parent: Id, name: string)
    requires Keyed(x, par)
  {
    d in x.hashed && par[d] != d && par[d] == parent && x.name[d] == name
  }

  lemma ExchangedNames(x: Index, par: Parents, d: Id, target: Id)
    requires Keyed(x, par) && d in par && target in par && d != target
    ensures var x' := Exchanged(x, par, d, target);
      && x'.name == x.name[d := x.name[target]][target := x.name[d]]
      && x'.hash == x.hash[d := x.hash[target]][target := x.hash[d]]
  {
    hide BothDropped, Bucket;
    SameNames(x, par, d, target);
  }

  /** After a move d is found where the target was, and in no other place; the target is not found; others as before. */
  lemma MovedIsFound(x: Index, par: Parents, d: Id, target: Id, e: Id, parent: Id, name: string)
    requires IndexOk(x, par) && d in par && target in par && d != target && par[target] != d
    ensures Keyed(Moved(x, par, d, target), par[d := par[target]])
    ensures Matches(Moved(x, par, d, target), par[d := par[target]], e, parent, name) <==>
      if e == d then parent == par[target] && name == x.name[target]
      else e != target && Matches(x, par, e, parent, name)
  {
    hide RootsOk, BucketOk, BothDropped, Bucket, Chain;
    SameNames(x, par, d, target);
    BothDroppedOk(x, par, d, target);
  }

  /** After an exchange each is found where the other was, and both are. */
  lemma ExchangedAreFound(x: Index, par: Parents, d: Id, target: Id, e: Id, parent: Id, name: string)
    requires IndexOk(x, par) && d in par && target in par && d != target && par[target] != d && par[d] != target
    ensures Keyed(Exchanged(x, par, d, target), par[d := par[target]][target := par[d]])
    ensures Matches(Exchanged(x, par, d, target), par[d := par[target]][target := par[d]], e, parent, name) <==>
      if e == d then parent == par[target] && name == x.name[target]
      else if e == target then parent == par[d] && name == x.name[d]
      else Matches(x, par, e, parent, name)
  {
    hide RootsOk, BucketOk, BothDropped, Bucket, Chain;
    SameNames(x, par, d, target);
    BothDroppedOk(x, par, d, target);
  }

  /** __d_lookup reads one bucket only, and misses nothing. */
  method DLookup(x: Index, par: Parents, ghost f: (Id, string) -> nat, parent: Id, name: string, hash: nat)
    returns (r: Option<Id>)
    requires IndexOk(x, par) && HashesOk(x, par, f) && hash == f(parent, name)
    ensures r.Some? ==> Matches(x, par, r.value, parent, name)
    ensures r.None? ==> forall d :: !Matches(x, par, d, parent, name)
  {
    var b := Bucket(x.shift, hash);
    var chain := Chain(x, b);
    assert BucketOk(x, par, b);
    forall d | Matches(x, par, d, parent, name) ensures d in chain {
      assert HashOk(x, par, f, d);
      assert Belongs(x, par, d, b);
    }
    for i := 0 to |chain|
      invariant forall j :: 0 <= j < i ==> !Matches(x, par, chain[j], parent, name)
    {
      var d := chain[i];
      assert Belongs(x, par, d, b);
      assert HashOk(x, par, f, d);
      if x.hash[d] == hash && par[d] == parent && d in x.hashed && x.name[d] == name {
        return Some(d);
      }
    }
    return None;
  }
}
