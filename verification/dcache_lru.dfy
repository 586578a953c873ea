/** The LRU and shrink-list flags of dentries, and the two counters kept beside them. */
module DcacheLru {
  import opened Forests
  import opened Helpers

  datatype Lru = Lru(
    lru: set<Id>,         // DCACHE_LRU_LIST
    shrink: set<Id>,      // DCACHE_SHRINK_LIST
    negative: set<Id>,    // d_is_negative
    nrUnused: int,        // nr_dentry_unused
    nrNegative: int)      // nr_dentry_negative

  /** SHRINK_LIST comes with LRU_LIST, and the unused are those with LRU_LIST. */
  predicate FlagsOk(l: Lru) { l.shrink <= l.lru && l.nrUnused == |l.lru| }

  /** The negative dentries on the real list, which nr_dentry_negative is to count. */
  function Counted(l: Lru): set<Id> { (l.lru - l.shrink) * l.negative }

  /** By how much nr_dentry_negative is too high. */
  function Excess(l: Lru): int { l.nrNegative - |Counted(l)| }

  predicate LruOk(l: Lru) { FlagsOk(l) && Excess(l) == 0 }

  // ---- the helpers, each of which wants certain flags ----

  function LruAdd(l: Lru, d: Id): Lru {
    l.(lru := l.lru + {d}, nrUnused := l.nrUnused + 1, nrNegative := l.nrNegative + One(d in l.negative))
  }

  /** d_lru_del, and d_lru_isolate. */
  function LruDel(l: Lru, d: Id): Lru {
    l.(lru := l.lru - {d}, nrUnused := l.nrUnused - 1, nrNegative := l.nrNegative - One(d in l.negative))
  }

  function ShrinkAdd(l: Lru, d: Id): Lru {
    l.(lru := l.lru + {d}, shrink := l.shrink + {d}, nrUnused := l.nrUnused + 1)
  }

  function ShrinkDel(l: Lru, d: Id): Lru {
    l.(lru := l.lru - {d}, shrink := l.shrink - {d}, nrUnused := l.nrUnused - 1)
  }

  function ShrinkMove(l: Lru, d: Id): Lru {
    l.(shrink := l.shrink + {d}, nrNegative := l.nrNegative - One(d in l.negative))
  }

  /** __d_clear_type_and_inode: the dentry becomes negative; only LRU_LIST is tested. */
  function ClearType(l: Lru, d: Id): Lru {
    l.(negative := l.negative + {d}, nrNegative := l.nrNegative + One(d in l.lru))
  }

  /** __d_instantiate: the dentry becomes positive; only LRU_LIST is tested. */
  function Instantiate(l: Lru, d: Id): Lru {
    l.(negative := l.negative - {d}, nrNegative := l.nrNegative - One(d in l.lru))
  }

  /** __d_add: the dentry becomes positive and the counter is not looked at. */
  function SetType(l: Lru, d: Id): Lru { l.(negative := l.negative - {d}) }

  /** __d_alloc: no flags, and no inode. */
  function NewNegative(l: Lru, d: Id): Lru { l.(negative := l.negative + {d}) }

  /** retain_dentry puts a dentry on the list if it is on none. */
  function Retained(l: Lru, d: Id): Lru { if d in l.lru then l else LruAdd(l, d) }

  /** What __dentry_kill does: off the real list, and the inode goes. */
  function Killed(l: Lru, d: Id): Lru {
    var off := if d in l.lru && d !in l.shrink then LruDel(l, d) else l;
    if d in l.negative then off else ClearType(off, d)
  }

  /** select_collect and __dput_to_list take a dentry off the real list; an unused one goes on the shrink list. */
  function Collected(l: Lru, d: Id, idle: bool): Lru {
    var off := if d in l.lru then LruDel(l, d) else l;
    if idle then ShrinkAdd(off, d) else off
  }

  // ---- what each keeps ----

  lemma AddOne(s: set<Id>, d: Id)
    ensures |s + {d}| == |s| + One(d !in s)
  {
    if d in s { assert s + {d} == s; }
  }

  lemma TakeOne(s: set<Id>, d: Id)
    ensures |s - {d}| == |s| - One(d in s)
  {
    if d !in s { assert s - {d} == s; }
  }

  /** Flags stay right, and the counter of negative dentries gets too high by so many more. */
  predicate Drifts(l: Lru, l': Lru, more: int) { FlagsOk(l') && Excess(l') == Excess(l) + more }

  lemma CountedAfterAdd(lru: set<Id>, shrink: set<Id>, negative: set<Id>, d: Id)
    requires shrink <= lru && d !in lru
    ensures |(lru + {d} - shrink) * negative| == |(lru - shrink) * negative| + One(d in negative)
  {
    var counted := (lru - shrink) * negative;
    if d in negative {
      assert (lru + {d} - shrink) * negative == counted + {d};
    } else {
      assert (lru + {d} - shrink) * negative == counted;
    }
  }

  /** Counting one more, or one fewer, negative dentry of those listed. */
  lemma CountedAfterSign(listed: set<Id>, negative: set<Id>, d: Id)
    ensures |listed * (negative + {d})| == |listed * negative| + One(d in listed && d !in negative)
    ensures |listed * (negative - {d})| == |listed * negative| - One(d in listed && d in negative)
  {
    var counted := listed * negative;
    if d in listed {
      assert listed * (negative + {d}) == counted + {d};
      assert listed * (negative - {d}) == counted - {d};
      AddOne(counted, d);
      TakeOne(counted, d);
    } else {
      assert listed * (negative + {d}) == counted;
      assert listed * (negative - {d}) == counted;
    }
  }

  lemma LruAddOk(l: Lru, d: Id)
    requires FlagsOk(l) && d !in l.lru
    ensures Drifts(l, LruAdd(l, d), 0)
  {
    AddOne(l.lru, d);
    CountedAfterAdd(l.lru, l.shrink, l.negative, d);
  }

  lemma LruDelOk(l: Lru, d: Id)
    requires FlagsOk(l) && d in l.lru && d !in l.shrink
    ensures Drifts(l, LruDel(l, d), 0)
  {
    TakeOne(l.lru, d);
    TakeOne(Counted(l), d);
    assert Counted(LruDel(l, d)) == Counted(l) - {d};
  }

  lemma ShrinkAddOk(l: Lru, d: Id)
    requires FlagsOk(l) && d !in l.lru
    ensures Drifts(l, ShrinkAdd(l, d), 0)
  {
    AddOne(l.lru, d);
    assert Counted(ShrinkAdd(l, d)) == Counted(l);
  }

  lemma ShrinkDelOk(l: Lru, d: Id)
    requires FlagsOk(l) && d in l.shrink
    ensures Drifts(l, ShrinkDel(l, d), 0)
  {
    TakeOne(l.lru, d);
    assert Counted(ShrinkDel(l, d)) == Counted(l);
  }

  lemma ShrinkMoveOk(l: Lru, d: Id)
    requires FlagsOk(l) && d in l.lru && d !in l.shrink
    ensures Drifts(l, ShrinkMove(l, d), 0)
  {
    TakeOne(Counted(l), d);
    assert Counted(ShrinkMove(l, d)) == Counted(l) - {d};
  }

  /** A positive dentry that loses its inode on a shrink list is counted though it should not be. */
  lemma ClearTypeOk(l: Lru, d: Id)
    requires FlagsOk(l) && d !in l.negative
    ensures Drifts(l, ClearType(l, d), One(d in l.shrink))
    ensures LruOk(l) ==> (LruOk(ClearType(l, d)) <==> d !in l.shrink)
  {
    CountedAfterSign(l.lru - l.shrink, l.negative, d);
  }

  /** A negative dentry that __d_instantiate gives an inode on a shrink list is taken off a count it was not in. */
  lemma InstantiateOk(l: Lru, d: Id)
    requires FlagsOk(l) && d in l.negative
    ensures Drifts(l, Instantiate(l, d), -One(d in l.shrink))
    ensures LruOk(l) ==> (LruOk(Instantiate(l, d)) <==> d !in l.shrink)
  {
    CountedAfterSign(l.lru - l.shrink, l.negative, d);
  }

  /** A negative dentry that __d_add gives an inode on the real list stays in the count. */
  lemma SetTypeOk(l: Lru, d: Id)
    requires FlagsOk(l)
    ensures Drifts(l, SetType(l, d), One(d in Counted(l)))
    ensures LruOk(l) ==> (LruOk(SetType(l, d)) <==> d !in l.negative || d !in l.lru || d in l.shrink)
  {
    CountedAfterSign(l.lru - l.shrink, l.negative, d);
  }

  lemma NewNegativeOk(l: Lru, d: Id)
    requires FlagsOk(l) && d !in l.lru
    ensures Drifts(l, NewNegative(l, d), 0)
  {
    assert Counted(NewNegative(l, d)) == Counted(l);
  }

  lemma RetainedOk(l: Lru, d: Id)
    requires FlagsOk(l)
    ensures Drifts(l, Retained(l, d), 0) && d in Retained(l, d).lru
  {
    hide FlagsOk, Excess;
    if d !in l.lru { LruAddOk(l, d); }
  }

  /** Killing a positive dentry on a shrink list leaves the counter one too high, and no other kill does. */
  lemma KilledOk(l: Lru, d: Id)
    requires FlagsOk(l)
    ensures Drifts(l, Killed(l, d), One(d !in l.negative && d in l.shrink))
    ensures LruOk(l) ==> (LruOk(Killed(l, d)) <==> d in l.negative || d !in l.shrink)
    ensures Killed(l, d).shrink == l.shrink
  {
    hide FlagsOk, Excess;
    var off := if d in l.lru && d !in l.shrink then LruDel(l, d) else l;
    if d in l.lru && d !in l.shrink { LruDelOk(l, d); }
    if d !in l.negative { ClearTypeOk(off, d); }
  }

  lemma CollectedOk(l: Lru, d: Id, idle: bool)
    requires FlagsOk(l) && d !in l.shrink
    ensures Drifts(l, Collected(l, d, idle), 0)
  {
    hide FlagsOk, Excess;
    var off := if d in l.lru then LruDel(l, d) else l;
    if d in l.lru { LruDelOk(l, d); }
    if idle { ShrinkAddOk(off, d); }
  }

  /** A positive dentry, unused and on a shrink list, that a third party kills. */
  lemma KillOnListMiscounts()
    ensures var l := Lru({1}, {1}, {}, 1, 0); LruOk(l) && !LruOk(Killed(l, 1)) && Excess(Killed(l, 1)) == 1
  {
    var l := Lru({1}, {1}, {}, 1, 0);
    assert Counted(l) == {};
    KilledOk(l, 1);
  }
}
