/** The cache as the object that dput, d_move, lookups and shrinking change step by step. */
module Dcaches {
  import opened Forests
  import opened Helpers
  import opened DcacheTree
  import opened TreeMoves
  import opened DcacheState
  import opened DcacheFields
  import opened DcachePut
  import opened DcacheReap
  import opened DcacheRounds
  import opened DcacheShrink
  import opened DcacheWalk
  import X = DcacheIndex
  import L = DcacheLru

  /** Which of the locks tried in one round of dput are held by somebody else. */
  datatype Contention = Contention(lockref: bool, inode: bool, parent: bool)

  class Dcache {
    var tree: Tree
    var index: X.Index
    var lists: L.Lru
    var referenced: set<Id>
    var flags: Flags

    ghost function State(): Cache reads this { Cache(tree, index, lists, referenced, flags) }

    /** __dentry_kill. The dentry's memory, and with it what the maps hold for it, is gone afterwards. */
    method DentryKillNow(d: Id)
      requires In(State(), d)
      modifies this`tree, this`index, this`lists
      ensures State() == Gone(old(State()), d)
      ensures d !in tree.parent && d !in index.hashed && d in lists.negative
      ensures d in lists.lru <==> d in old(lists).lru && d in old(lists).shrink
      ensures lists.shrink == old(lists).shrink && lists.lru - {d} == old(lists).lru - {d}
    {
      hide L.ClearType, X.DropHash, Unlist;
      GoneFacts(State(), d);
      var root := tree.parent[d] == d;
      if d in lists.lru {
        if d !in lists.shrink { lists := L.LruDel(lists, d); }
      }
      index := X.DropHash(index, d, root);
      tree := Unlist(tree, d);
      if d !in lists.negative { lists := L.ClearType(lists, d); }
      index := X.Forget(index, d);
    }

    /** A reference less, without a look at anything else. */
    method DropRef(d: Id)
      requires Domains(tree) && d in tree.parent && tree.ext[d] > 0
      modifies this`tree
      ensures tree == Drop(old(tree), d)
    {
      tree := tree.(count := tree.count[d := tree.count[d] - 1]);
      tree := tree.(ext := tree.ext[d := tree.ext[d] - 1]);
    }

    method RetainDentry(d: Id) returns (r: bool)
      requires Whole(State()) && d in tree.parent && tree.ext[d] > 0
      modifies this`tree, this`lists, this`referenced
      ensures r <==> Retains(old(State()), d)
      ensures State() == if r then Retain(old(State()), d) else old(State())
      ensures r <==>
        && d in index.hashed && d !in flags.disconnected && d !in flags.dontCache
        && (d in flags.opDelete ==> d !in flags.refuses)
      ensures r ==>
        && tree.count == old(tree).count[d := old(tree).count[d] - 1]
        && tree.ext == old(tree).ext[d := old(tree).ext[d] - 1]
        && lists.lru == old(lists).lru + {d} && lists.shrink == old(lists).shrink
        && (d in referenced <==> d in old(referenced) || d in old(lists).lru)
    {
      hide X.Keyed, L.LruAdd, Drop;
      RetainFacts(State(), d);
      if d !in index.hashed { return false; }
      if d in flags.disconnected { return false; }
      if d in flags.opDelete {
        if d in flags.refuses { return false; }
      }
      if d in flags.dontCache { return false; }
      DropRef(d);
      if d !in lists.lru {
        lists := L.LruAdd(lists, d);
      } else if d !in referenced {
        referenced := referenced + {d};
      }
      return true;
    }

    /** Drops the reference without a lock if it can; if not, nothing has changed and the reference is the last. */
    method FastDput(d: Id, busy: bool) returns (done: bool)
      requires In(State(), d) && tree.ext[d] > 0 && tree.count[d] >= 1
      modifies this`tree
      ensures done && old(tree).count[d] > 1 ==> State() == old(State()).(t := Drop(old(tree), d))
      ensures done && old(tree).count[d] == 1 ==> Retains(old(State()), d) && State() == Retain(old(State()), d)
      ensures !done ==> State() == old(State()) && tree.count[d] == 1
      ensures done ==>
        && d in tree.count && tree.count[d] == old(tree).count[d] - 1
        && d in tree.ext && tree.ext[d] == old(tree).ext[d] - 1
        && (tree.count[d] == 0 ==> d in index.hashed && d in lists.lru && d in referenced
                                   && d !in flags.disconnected && d !in flags.dontCache && d !in flags.opDelete)
    {
      hide X.Keyed, L.LruAdd;
      if d in flags.opDelete {
        if tree.count[d] <= 1 { return false; }
        DropRef(d);
        return true;
      }
      if busy {
        if tree.count[d] > 1 {
          DropRef(d);
          return true;
        }
        return false;
      }
      var was := tree.count;
      tree := tree.(count := tree.count[d := tree.count[d] - 1]);
      if tree.count[d] != 0
        || (d in referenced && d in lists.lru && d !in flags.disconnected && d !in flags.dontCache && d in index.hashed)
      {
        tree := tree.(ext := tree.ext[d := tree.ext[d] - 1]);
        return true;
      }
      tree := tree.(count := tree.count[d := 1]);
      assert tree.count == was;
      return false;
    }

    /** Kills a dentry that is not to be kept; gives its parent, whose reference is the caller's now. */
    method DentryKill(d: Id, busy: Contention) returns (next: Option<Id>)
      requires In(State(), d) && tree.ext[d] > 0 && tree.count[d] == 1 && !Retains(State(), d)
      modifies this`tree, this`index, this`lists, this`referenced
      ensures State() == KillLast(old(State()), d)
      ensures next == if old(tree).parent[d] == d then None else Some(old(tree).parent[d])
    {
      hide X.Keyed, Retains, Retain, L.Killed, X.DropHash;
      var p := tree.parent[d];
      if (d !in lists.negative && busy.inode) || (p != d && busy.parent) {
        // both locks are taken again in the right order and the dentry is looked at once more
        if tree.count[d] != 1 {
          assert false;
        } else {
          var kept := RetainDentry(d);
        }
      }
      DentryKillNow(d);
      if p == d { return None; }
      tree := tree.(ext := tree.ext[p := tree.ext[p] + 1]);
      return Some(p);
    }

    /** The loop of dput, whatever locks others hold meanwhile. */
    method PutLoop(dentry: Id, busy: nat -> Contention)
      requires Held(State(), dentry)
      modifies this`tree, this`index, this`lists, this`referenced
      ensures State() == Put(old(State()), dentry)
    {
      hide TreeOk, X.Keyed, KillLast, Kids, Retains, Retain;
      var d, round := dentry, 0;
      while true
        invariant Held(State(), d) && Put(State(), d) == Put(old(State()), dentry)
        decreases |tree.parent|
      {
        HeldIsIn(State(), d);
        var done := FastDput(d, busy(round).lockref);
        if done { return; }
        var kept := RetainDentry(d);
        if kept { return; }
        KillStep(State(), d);
        var next := DentryKill(d, busy(round));
        if next.None? { return; }
        d, round := next.value, round + 1;
      }
    }

    /** dput, whatever locks others hold meanwhile. On the last reference the dentry stays, on the LRU, if and only if
        it is hashed, connected and to be cached, and d_delete does not refuse. */
    method DPut(dentry: Id, busy: nat -> Contention)
      requires Held(State(), dentry)
      modifies this`tree, this`index, this`lists, this`referenced
      ensures State() == Put(old(State()), dentry)
      ensures old(tree).count[dentry] > 1 ==>
        && tree.parent == old(tree).parent && lists == old(lists) && index == old(index)
        && tree.count == old(tree).count[dentry := old(tree).count[dentry] - 1]
        && tree.ext == old(tree).ext[dentry := old(tree).ext[dentry] - 1]
      ensures old(tree).count[dentry] == 1 ==>
        (dentry in tree.parent <==>
          && dentry in old(index).hashed && dentry !in flags.disconnected && dentry !in flags.dontCache
          && (dentry in flags.opDelete ==> dentry !in flags.refuses))
      ensures old(tree).count[dentry] == 1 && dentry in tree.parent ==>
        && tree.parent == old(tree).parent && dentry in lists.lru && dentry in tree.count && tree.count[dentry] == 0
      ensures dentry !in tree.parent ==>
        dentry !in index.hashed && (dentry in lists.lru <==> dentry in old(lists).lru && dentry in old(lists).shrink)
    {
      hide Put, Held, Retains;
      PutDecides(State(), dentry);
      PutLoop(dentry, busy);
    }

    // ---- lookup ----

    /** __d_lookup: the match, if there is one, with a reference on it. */
    method Lookup(under: Id, name: string, hash: nat, ghost f: (Id, string) -> nat) returns (r: Option<Id>)
      requires Sound(State(), f) && hash == f(under, name)
      modifies this`tree
      ensures Sound(State(), f)
      ensures r.None? ==> tree == old(tree) && forall d :: !X.Matches(index, old(tree).parent, d, under, name)
      ensures r.Some? ==>
        && r.value in old(tree).parent && X.Matches(index, old(tree).parent, r.value, under, name)
        && tree.parent == old(tree).parent && tree.subdirs == old(tree).subdirs
        && tree.count == old(tree).count[r.value := old(tree).count[r.value] + 1]
        && tree.ext == old(tree).ext[r.value := old(tree).ext[r.value] + 1]
    {
      hide TreeOk, X.IndexOk, X.HashesOk;
      AllIn(State(), f, under);
      r := X.DLookup(index, tree.parent, f, under, name, hash);
      if r.Some? {
        var d := r.value;
        GetOk(tree, d);
        tree := tree.(count := tree.count[d := tree.count[d] + 1]);
        tree := tree.(ext := tree.ext[d := tree.ext[d] + 1]);
      }
    }

    // ---- __d_move ----

    /** Both come off their lists, d gets the target's name, or they trade, and what has a name to be found by is
        hashed again. */
    method SwitchNames(d: Id, target: Id, exchange: bool)
      requires In(State(), d) && In(State(), target) && d != target
      modifies this`index
      ensures index == if exchange then X.Exchanged(old(index), tree.parent, d, target)
                       else X.Moved(old(index), tree.parent, d, target)
    {
      hide X.Unchain, X.BothDropped, X.Bucket, X.Moved, X.Exchanged;
      var par, was := tree.parent, index;
      X.MovedLate(was, par, d, target);
      X.ExchangedLate(was, par, d, target);
      X.MarkedLate(was, par, d, target);
      X.OffThenMarked(was, was.hashed, d, par[d] == d);
      if d in index.hashed { index := X.Unchain(index, d, par[d] == d); }
      if target in index.hashed { index := X.Unchain(index, target, par[target] == target); }
      assert index == X.BothOff(was, par, d, target);
      index := X.Rename(index, d, was.name[target], was.hash[target]);
      if !exchange {
        index := index.(hashed := index.hashed - {target});
      } else {
        index := X.Rename(index, target, was.name[d], was.hash[d]);
        index := X.Rehash(index, target);
      }
      index := X.Rehash(index, d);
    }

    /** The parents, the lists of children and, when a reference changes hands, the counts. */
    method SwitchInTree(d: Id, target: Id, exchange: bool)
      requires Placed(tree, d) && Placed(tree, target) && d != target
      requires tree.parent[target] != d && tree.parent[d] != target
      modifies this`tree
      ensures tree == if exchange then Exchange(old(tree), d, target) else Move(old(tree), d, target)
      ensures d in tree.parent && tree.parent[d] == old(tree).parent[target]
    {
      hide Remove;
      var p, q := tree.parent[d], tree.parent[target];
      tree := tree.(parent := tree.parent[d := q]);
      if !exchange {
        tree := tree.(count := tree.count[q := tree.count[q] + 1]);
        if d != p {
          tree := tree.(count := tree.count[p := tree.count[p] - 1]);
        }
      } else {
        tree := tree.(parent := tree.parent[target := p]);
        tree := tree.(subdirs := Relist(tree.subdirs, target, q, p));
      }
      tree := tree.(subdirs := Relist(tree.subdirs, d, p, q));
    }

    /** __d_move: bug says that one of the BUG_ON tests fired, locks lists what was locked and unlocked. */
    method DMove(d: Id, target: Id, exchange: bool) returns (bug: bool, locks: seq<LockEvent>, ghost p: Option<Id>)
      requires TreeOk(tree) && X.Keyed(index, tree.parent) && d in tree.parent && target in tree.parent
      modifies this`tree, this`index
      ensures In(old(State()), d) && In(old(State()), target)
      ensures d == target ==> !bug && locks == []
      ensures d != target ==> (bug <==> !Unrelated(old(tree).parent, d, target))
      ensures State() ==
        if bug || d == target then old(State())
        else if exchange then Swap(old(State()), d, target) else MoveOver(old(State()), d, target)
      ensures !bug && d != target ==>
        && IsAncestor(old(tree).parent, old(tree).parent[d], target, p)
        && locks == LockTrace(old(tree).parent, d, target, p)
        && HoldsAll(locks, {d, target, old(tree).parent[d], old(tree).parent[target]})
      ensures !bug && d != target ==>
        && index.hashed == (old(index).hashed - {target} + {d} + if exchange then {target} else {})
        && tree.parent == Traded(old(tree).parent, d, target, exchange)
        && index.name == Traded(old(index).name, d, target, exchange)
        && index.hash == Traded(old(index).hash, d, target, exchange)
    {
      hide IsForest, ListsOk, RefsOk, Reaches, Above, Unrelated, Exchange, Move, X.Exchanged, X.Moved, X.Keyed,
        HoldsAll, Traded;
      var par := tree.parent;
      ghost var was := State();
      PlacedIn(tree, d);
      PlacedIn(tree, target);
      if d == target { return false, [], None; }
      var over := DAncestor(par, target, d);
      var oldParent := par[d];
      var q := DAncestor(par, oldParent, target);
      GuardsDecide(par, d, target, q);
      if over.Some? { return true, [], q; }
      if oldParent == d {
        if q.Some? { return true, [], q; }
        locks := [Lock(par[target])];
      } else if q.None? {
        locks := [Lock(par[target]), Lock(oldParent)];
      } else {
        if q == Some(d) { return true, [], q; }
        locks := [Lock(oldParent)];
        if q != Some(target) { locks := locks + [Lock(par[target])]; }
      }
      locks := locks + [Lock(d), Lock(target)];
      assert locks == Acquired(par, d, target, q);
      NotOver(par, d, target);
      LocksCover(par, d, target, q);
      MoveFacts(was, d, target);
      SwitchNames(d, target, exchange);
      SwitchInTree(d, target, exchange);
      if tree.parent[d] != oldParent { locks := locks + [Unlock(tree.parent[d])]; }
      if d != oldParent { locks := locks + [Unlock(oldParent)]; }
      locks := locks + [Unlock(target), Unlock(d)];
      return false, locks, q;
    }

    // ---- shrinking ----

    /** __dput_to_list */
    method DputToList(d: Id, list: seq<Id>) returns (list': seq<Id>)
      requires Domains(tree) && d in tree.parent
      modifies this`tree, this`lists
      ensures tree == old(tree).(count := old(tree).count[d := old(tree).count[d] - 1])
      ensures d in old(lists).shrink ==> lists == old(lists) && list' == list
      ensures d !in old(lists).shrink ==>
        && lists == L.Collected(old(lists), d, old(tree).count[d] == 1)
        && list' == if old(tree).count[d] == 1 then [d] + list else list
      ensures d !in old(lists).shrink ==>
        && (d in lists.lru <==> tree.count[d] == 0) && (d in lists.shrink <==> tree.count[d] == 0)
        && lists.lru - {d} == old(lists).lru - {d} && lists.shrink - {d} == old(lists).shrink - {d}
    {
      list' := list;
      if d in lists.shrink {
        tree := tree.(count := tree.count[d := tree.count[d] - 1]);
      } else {
        if d in lists.lru { lists := L.LruDel(lists, d); }
        tree := tree.(count := tree.count[d := tree.count[d] - 1]);
        if tree.count[d] == 0 {
          lists := L.ShrinkAdd(lists, d);
          list' := [d] + list;
        }
      }
    }

    /** One unused dentry of shrink_dentry_list, already off the list. */
    method Reclaim(d: Id, rest: seq<Id>) returns (list': seq<Id>)
      requires In(State(), d) && d in lists.shrink
      modifies this`tree, this`index, this`lists
      ensures State() == ShrinkKill(old(State()), d) && list' == AfterReap(old(State()), d, rest)
    {
      hide L.Killed, L.Collected, X.DropHash, X.Forget, X.Keyed, Remove;
      ghost var was := State();
      lists := L.ShrinkDel(lists, d);
      list' := rest;
      var p := tree.parent[d];
      if p != d { list' := DputToList(p, list'); }
      DentryKillNow(d);
      if p != d { EitherOrder(was.t, d); }
    }

    /** shrink_dentry_list, with nobody else about. */
    method ShrinkDentryList(list0: seq<Id>, ghost f: (Id, string) -> nat, ghost t0: Tree, ghost start: Id)
      requires Steady(State(), f) && TreeOk(t0) && Reapable(State(), t0, start, list0)
      modifies this`tree, this`index, this`lists
      ensures Steady(State(), f) && Reapable(State(), t0, start, []) && L.Excess(lists) == L.Excess(old(lists))
      ensures SameOutside(t0.parent, start, old(lists).lru, lists.lru)
      ensures |tree.parent| <= |old(tree).parent|
      ensures list0 != [] && Unused(old(tree).count, list0[|list0| - 1]) ==> |tree.parent| < |old(tree).parent|
    {
      hide IsForest, ListsOk, RefsOk, X.IndexOk, X.HashesOk, L.FlagsOk, L.Excess, Reapable, AfterReap, ShrinkKill,
        SameOutside;
      SameOutsideThen(t0.parent, start, lists.lru, lists.lru, lists.lru);
      var list := list0;
      ghost var lru0 := lists.lru;
      while list != []
        invariant Steady(State(), f) && Domains(tree) && Reapable(State(), t0, start, list)
        invariant L.Excess(lists) == L.Excess(old(lists))
        invariant SameOutside(t0.parent, start, old(lists).lru, lists.lru)
        invariant |tree.parent| <= |old(tree).parent|
        invariant
          || (list == list0 && tree == old(tree))
          || |tree.parent| < |old(tree).parent|
          || (list0 != [] && !Unused(old(tree).count, list0[|list0| - 1]))
        decreases |tree.parent|, |list|
      {
        var d, rest := list[|list| - 1], list[..|list| - 1];
        Listed(State(), f, t0, start, list);
        if tree.count[d] != 0 {
          GiveOneBack(State(), f, t0, start, list);
          SameOutsideThen(t0.parent, start, lru0, lists.lru, L.ShrinkDel(lists, d).lru);
          lists := L.ShrinkDel(lists, d);
          list := rest;
        } else {
          ReapOne(State(), f, t0, start, list);
          SameOutsideThen(t0.parent, start, lru0, lists.lru, ShrinkKill(State(), d).l.lru);
          list := Reclaim(d, rest);
        }
      }
    }

    /** One turn of the loop of shrink_dcache_parent: collect, then kill what was collected. */
    method ShrinkRound(start: Id, cursors: set<Id>, needResched: nat -> bool, clock: nat, ghost f: (Id, string) -> nat,
                       ghost t0: Tree)
      returns (last: bool, clock': nat)
      requires Steady(State(), f) && TreeOk(t0) && Reapable(State(), t0, start, []) && CursorsHeld(tree, cursors)
      modifies this`tree, this`index, this`lists
      ensures Steady(State(), f) && Reapable(State(), t0, start, []) && L.Excess(lists) == L.Excess(old(lists))
      ensures last ==> AllInUse(tree, start) && tree == old(tree) && OffLru(tree.parent, lists.lru, start, cursors)
      ensures SameOutside(t0.parent, start, old(lists).lru, lists.lru)
      ensures !last ==> |tree.parent| < |old(tree).parent|
    {
      hide IsForest, ListsOk, RefsOk, X.IndexOk, X.HashesOk, L.FlagsOk, L.Excess, Visit, Collector, CursorsHeld,
        AllInUse, Walkable, Reapable;
      NothingListed(State(), t0, start);
      AfterWalk(State(), f, t0, start, cursors, needResched, clock);
      var data, trace, quit, retry :=
        DWalk(Dentries(tree, cursors), Collector(start, tree.count, needResched), Select(lists, [], 0, clock), start);
      lists, clock' := data.l, data.clock;
      if data.dispose != [] {
        ShrinkDentryList(data.dispose, f, t0, start);
        return false, clock';
      }
      // found counts what is on a shrink list, and with nobody else about that is what is to be disposed of
      if data.found != 0 { assert false; }
      return true, clock';
    }

    /** shrink_dcache_parent: with nobody else about, the busy dentries are all that stays below start. */
    method ShrinkDcacheParent(start: Id, cursors: set<Id>, needResched: nat -> bool, ghost f: (Id, string) -> nat)
      requires Steady(State(), f) && start in tree.parent && tree.ext[start] > 0
      requires lists.shrink == {} && CursorsHeld(tree, cursors)
      modifies this`tree, this`index, this`lists
      ensures Steady(State(), f) && lists.shrink == {} && L.Excess(lists) == L.Excess(old(lists))
      ensures forall x :: x in tree.parent <==>
        x in old(tree).parent && (x in Below(old(tree).parent, start) ==> Busy(old(tree), x))
      ensures forall x {:trigger x in tree.parent} :: x in tree.parent ==> Same(old(tree), tree, x)
      ensures forall x :: x in tree.parent && x in Below(old(tree).parent, start) && x != start && x !in cursors ==>
                x !in lists.lru
      ensures forall x :: x !in Below(old(tree).parent, start) ==> (x in lists.lru <==> x in old(lists).lru)
    {
      hide IsForest, ListsOk, RefsOk, X.IndexOk, X.HashesOk, L.FlagsOk, L.Excess, CursorsHeld, AllInUse, Reapable,
        Pruned, Below, Busy, Same;
      ghost var t0 := tree;
      PrunedSelf(tree, start);
      NothingListed(State(), tree, start);
      var clock, last := 0, false;
      while !last
        invariant Steady(State(), f) && Domains(tree) && Reapable(State(), t0, start, []) && CursorsHeld(tree, cursors)
        invariant L.Excess(lists) == L.Excess(old(lists))
        invariant SameOutside(t0.parent, start, old(lists).lru, lists.lru)
        invariant last ==> AllInUse(tree, start) && OffLru(tree.parent, lists.lru, start, cursors)
        decreases |tree.parent|, !last
      {
        last, clock := ShrinkRound(start, cursors, needResched, clock, f, t0);
        NothingListed(State(), t0, start);
        CursorsStay(t0, tree, start, cursors);
      }
      NothingListed(State(), t0, start);
      AllSurvivors(t0, tree, start);
      AllOffLru(t0, tree, start, lists.lru, cursors);
    }
  }

  /** d has what the target had, and the target, in an exchange, what d had. */
  function Traded<T>(m: map<Id, T>, d: Id, target: Id, exchange: bool): map<Id, T>
    requires d in m && target in m
  {
    if exchange then m[d := m[target]][target := m[d]] else m[d := m[target]]
  }

  lemma MoveFacts(c: Cache, d: Id, target: Id)
    requires In(c, d) && In(c, target) && d != target
    ensures Move(c.t, d, target).parent == Traded(c.t.parent, d, target, false)
    ensures Exchange(c.t, d, target).parent == Traded(c.t.parent, d, target, true)
    ensures var m, e := X.Moved(c.x, c.t.parent, d, target), X.Exchanged(c.x, c.t.parent, d, target);
      && m.name == Traded(c.x.name, d, target, false) && m.hash == Traded(c.x.hash, d, target, false)
      && e.name == Traded(c.x.name, d, target, true) && e.hash == Traded(c.x.hash, d, target, true)
      && m.hashed == c.x.hashed - {target} + {d} && e.hashed == c.x.hashed - {target} + {d} + {target}
  {
    hide X.Moved, X.Exchanged, Relist;
    MovedIndexFields(c, d, target);
    ExchangedIndexFields(c, d, target);
  }

  lemma GoneFacts(c: Cache, d: Id)
    requires In(c, d)
    ensures var c' := Gone(c, d);
      && d !in c'.t.parent && d !in c'.x.hashed && d in c'.l.negative
      && (d in c'.l.lru <==> d in c.l.lru && d in c.l.shrink)
      && c'.l.shrink == c.l.shrink && c'.l.lru - {d} == c.l.lru - {d}
  {
    hide X.DropHash;
    DropKeys(c.x, c.t.parent, d);
  }

  lemma RetainFacts(c: Cache, d: Id)
    requires Whole(c) && d in c.t.parent && c.t.ext[d] > 0
    ensures var c' := Retain(c, d);
      && c'.t.count == c.t.count[d := c.t.count[d] - 1] && c'.t.ext == c.t.ext[d := c.t.ext[d] - 1]
      && c'.l.lru == c.l.lru + {d} && c'.l.shrink == c.l.shrink
      && (d in c'.referenced <==> d in c.referenced || d in c.l.lru)
  {
  }

  lemma AllOffLru(t0: Tree, t: Tree, start: Id, lru: set<Id>, cursors: set<Id>)
    requires Domains(t0) && Domains(t) && Pruned(t0, t, start) && IsForest(t.parent)
    requires OffLru(t.parent, lru, start, cursors)
    ensures forall x :: x in t.parent && x in Below(t0.parent, start) && x != start && x !in cursors ==> x !in lru
  {
    hide Below, Pruned, IsForest;
    forall x | x in t.parent && x in Below(t0.parent, start) && x != start && x !in cursors ensures x !in lru {
      BelowSame(t0, t, start, x);
    }
  }

  lemma Listed(c: Cache, f: (Id, string) -> nat, t0: Tree, start: Id, list: seq<Id>)
    requires Steady(c, f) && Domains(t0) && Domains(c.t) && Reapable(c, t0, start, list) && list != []
    ensures list[|list| - 1] in c.t.parent && list[|list| - 1] in c.l.shrink && In(c, list[|list| - 1])
  {
    hide TreeOk, X.IndexOk, X.HashesOk, L.FlagsOk, L.Excess, Pruned, Below;
    PopTail(c.l.shrink, list);
    AllIn(c, f, list[|list| - 1]);
  }

  /** The parent's count may go down before the child is taken out of the tree. */
  lemma EitherOrder(t: Tree, d: Id)
    requires Placed(t, d) && t.parent[d] != d
    ensures var p := t.parent[d];
            KillUnused(t, d) == Unlist(t.(count := t.count[p := t.count[p] - 1]), d)
  {
  }
}
