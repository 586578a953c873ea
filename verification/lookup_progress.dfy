/** Parallel lookups never get stuck: locks are given back, sequences end even, waiters wait for somebody. */
module LookupProgress {
  import opened ParallelLookup

  // ---- who is to be waited for ----

  /** A held chain lock is held by a thread that is under it. */
  ghost predicate LockOk(h: ChainOf, s: State, c: nat) {
    c in s.locks ==> Carries(s, s.locks[c]) && Holding(s.pc[s.locks[c]]) && Chain(h, s, s.locks[c]) == c
  }

  /** A dentry in lookup belongs to a thread that will yet take it off its chain. */
  ghost predicate LookupOk(s: State, d: Id) {
    d in s.inLookup ==>
      d in s.dentry && Carries(s, s.dentry[d].creator) && OnChain(s.pc[s.dentry[d].creator])
      && s.pc[s.dentry[d].creator].own == d
  }

  /** i_dir_seq is odd only while a thread is adding in the directory. */
  ghost predicate SeqOk(s: State, dir: Dir) {
    dir in s.dirSeq && s.dirSeq[dir] % 2 == 1 ==>
      dir in s.adder && Carries(s, s.adder[dir]) && Adding(s.pc[s.adder[dir]]) && DirOf(s, s.adder[dir]) == dir
  }

  ghost predicate Waits(h: ChainOf, s: State) {
    && (forall c {:trigger LockOk(h, s, c)} :: LockOk(h, s, c))
    && (forall d {:trigger LookupOk(s, d)} :: LookupOk(s, d))
    && (forall dir {:trigger SeqOk(s, dir)} :: SeqOk(s, dir))
  }

  // ---- one step ----

  lemma LookKeepsLockOk(h: ChainOf, s: State, t: Thread, look: Look, c: nat)
    requires ThreadOk(h, s, t) && LookEnabled(h, s, t, look) && LockOk(h, s, c)
    ensures LockOk(h, ApplyLook(h, s, t, look), c)
  {
  }

  lemma AddKeepsLockOk(h: ChainOf, s: State, t: Thread, add: Add, c: nat)
    requires ThreadOk(h, s, t) && AddEnabled(h, s, t, add) && LockOk(h, s, c)
    ensures LockOk(h, ApplyAdd(h, s, t, add), c)
  {
  }

  lemma LookKeepsLookupOk(h: ChainOf, s: State, t: Thread, look: Look, d: Id)
    requires ThreadOk(h, s, t) && LookEnabled(h, s, t, look) && LookupOk(s, d)
    ensures LookupOk(ApplyLook(h, s, t, look), d)
  {
  }

  lemma AddKeepsLookupOk(h: ChainOf, s: State, t: Thread, add: Add, d: Id)
    requires ThreadOk(h, s, t) && AddEnabled(h, s, t, add) && LookupOk(s, d)
    ensures LookupOk(ApplyAdd(h, s, t, add), d)
  {
  }

  lemma LookKeepsSeqOk(h: ChainOf, s: State, t: Thread, look: Look, dir: Dir)
    requires ThreadOk(h, s, t) && LookEnabled(h, s, t, look) && SeqOk(s, dir)
    ensures SeqOk(ApplyLook(h, s, t, look), dir)
  {
    hide ApplyLook;
    LookFrame(h, s, t, look);
  }

  lemma AddKeepsSeqOk(h: ChainOf, s: State, t: Thread, add: Add, dir: Dir)
    requires ThreadOk(h, s, t) && AddEnabled(h, s, t, add) && SeqOk(s, dir)
    ensures SeqOk(ApplyAdd(h, s, t, add), dir)
  {
  }

  /** Moving a dentry that nobody carries changes nobody's directory and chain. */
  lemma SpliceKeeps(h: ChainOf, s: State, t: Thread, x: Id, c: nat, d: Id, dir: Dir)
    requires Sane(s) && ThreadOk(h, s, t) && SpliceEnabled(s, t, x)
    requires LockOk(h, s, c) && LookupOk(s, d) && SeqOk(s, dir)
    ensures var s' := ApplySplice(s, t, x); LockOk(h, s', c) && LookupOk(s', d) && SeqOk(s', dir)
  {
  }

  lemma StepKeepsLockOk(h: ChainOf, s: State, st: Step, c: nat)
    requires Inv(h, s) && Enabled(h, s, st) && Waits(h, s)
    ensures LockOk(h, Apply(h, s, st), c)
  {
    hide NamesakeOk, OneOf, ApplyLook, ApplyAdd, LookEnabled, AddEnabled, ApplySplice, SpliceEnabled;
    assert LockOk(h, s, c);
    match st
    case Looks(t, look) => assert ThreadOk(h, s, t); LookKeepsLockOk(h, s, t, look, c);
    case Adds(t, add) => assert ThreadOk(h, s, t); AddKeepsLockOk(h, s, t, add, c);
    case Splice(t, x) => assert ThreadOk(h, s, t) && LookupOk(s, x) && SeqOk(s, 0); SpliceKeeps(h, s, t, x, c, x, 0);
    case _ =>
  }

  lemma StepKeepsLookupOk(h: ChainOf, s: State, st: Step, d: Id)
    requires Inv(h, s) && Enabled(h, s, st) && Waits(h, s)
    ensures LookupOk(Apply(h, s, st), d)
  {
    hide NamesakeOk, OneOf, ApplyLook, ApplyAdd, LookEnabled, AddEnabled, ApplySplice, SpliceEnabled;
    assert LookupOk(s, d);
    match st
    case Looks(t, look) => assert ThreadOk(h, s, t); LookKeepsLookupOk(h, s, t, look, d);
    case Adds(t, add) => assert ThreadOk(h, s, t); AddKeepsLookupOk(h, s, t, add, d);
    case Splice(t, x) => assert ThreadOk(h, s, t) && LockOk(h, s, 0) && SeqOk(s, 0); SpliceKeeps(h, s, t, x, 0, d, 0);
    case _ =>
  }

  lemma StepKeepsSeqOk(h: ChainOf, s: State, st: Step, dir: Dir)
    requires Inv(h, s) && Enabled(h, s, st) && Waits(h, s)
    ensures SeqOk(Apply(h, s, st), dir)
  {
    hide NamesakeOk, OneOf, ApplyLook, ApplyAdd, LookEnabled, AddEnabled, ApplySplice, SpliceEnabled;
    assert SeqOk(s, dir);
    match st
    case Looks(t, look) => assert ThreadOk(h, s, t); LookKeepsSeqOk(h, s, t, look, dir);
    case Adds(t, add) => assert ThreadOk(h, s, t); AddKeepsSeqOk(h, s, t, add, dir);
    case Splice(t, x) =>
      assert ThreadOk(h, s, t) && LockOk(h, s, 0) && LookupOk(s, x);
      SpliceKeeps(h, s, t, x, 0, x, dir);
    case _ =>
  }

  lemma {:induction false} WaitsAlways(h: ChainOf, states: seq<State>, steps: seq<Step>, i: nat)
    requires IsRun(h, states, steps) && i < |states|
    ensures Waits(h, states[i])
  {
    hide Inv, Enabled, Apply;
    if i > 0 {
      var s, st := states[i - 1], steps[i - 1];
      WaitsAlways(h, states, steps, i - 1);
      InvAlways(h, states, steps, i - 1);
      forall c ensures LockOk(h, states[i], c) { StepKeepsLockOk(h, s, st, c); }
      forall d ensures LookupOk(states[i], d) { StepKeepsLookupOk(h, s, st, d); }
      forall dir ensures SeqOk(states[i], dir) { StepKeepsSeqOk(h, s, st, dir); }
    }
  }

  // ---- somebody can go on ----

  /** A step of a thread that is inside a call. */
  predicate GoesOn(st: Step) { st.Looks? || st.Adds? }

  ghost predicate CanGoOn(h: ChainOf, s: State) { exists st :: GoesOn(st) && Enabled(h, s, st) }

  lemma LookGoesOn(h: ChainOf, s: State, t: Thread, look: Look)
    requires LookEnabled(h, s, t, look)
    ensures CanGoOn(h, s)
  {
    assert Enabled(h, s, Looks(t, look)) && GoesOn(Looks(t, look));
  }

  lemma AddGoesOn(h: ChainOf, s: State, t: Thread, add: Add)
    requires AddEnabled(h, s, t, add)
    ensures CanGoOn(h, s)
  {
    assert Enabled(h, s, Adds(t, add)) && GoesOn(Adds(t, add));
  }

  /** Whoever is under a chain lock needs nothing more to leave it. */
  lemma HolderGoesOn(h: ChainOf, s: State, t: Thread)
    requires Carries(s, t) && Holding(s.pc[t])
    ensures CanGoOn(h, s)
  {
    hide CanGoOn;
    match s.pc[t]
    case Locked(_, _) => LookGoesOn(h, s, t, Recheck);
    case Checked(own) =>
      if x :| x in s.inLookup && Matches(s, x, own) { LookGoesOn(h, s, t, Join(x)); }
      else { LookGoesOn(h, s, t, Insert); }
    case Inserted(_) => LookGoesOn(h, s, t, UnlockChain);
    case AddLocked(_, _) => AddGoesOn(h, s, t, LookupUnhash);
    case AbortLocked(_) => AddGoesOn(h, s, t, AbortUnhash);
  }

  lemma AdderGoesOn(h: ChainOf, s: State, t: Thread)
    requires Waits(h, s) && Carries(s, t) && Adding(s.pc[t])
    ensures CanGoOn(h, s)
  {
    hide CanGoOn;
    match s.pc[t]
    case AddStarted(_, _) =>
      if Chain(h, s, t) in s.locks {
        assert LockOk(h, s, Chain(h, s, t));
        HolderGoesOn(h, s, s.locks[Chain(h, s, t)]);
      } else {
        AddGoesOn(h, s, t, LockForAdd);
      }
    case AddLocked(_, _) => HolderGoesOn(h, s, t);
    case AddUnhashed(_, _) => AddGoesOn(h, s, t, Rehash);
    case AddHashed(_, _, _) => AddGoesOn(h, s, t, EndAdd);
  }

  /** The thread whose dentry is in lookup, or somebody it waits for, can go on: neither the chain nor the sequence
      is held for good. */
  lemma OwnerGoesOn(h: ChainOf, s: State, t: Thread)
    requires Waits(h, s) && Carries(s, t) && OnChain(s.pc[t])
    ensures CanGoOn(h, s)
  {
    hide CanGoOn;
    match s.pc[t]
    case Owner(_) =>
      if s.dirSeq[DirOf(s, t)] % 2 == 0 { AddGoesOn(h, s, t, StartAdd); }
      else { assert SeqOk(s, DirOf(s, t)); AdderGoesOn(h, s, s.adder[DirOf(s, t)]); }
    case AddStarted(_, _) => AdderGoesOn(h, s, t);
    case _ => HolderGoesOn(h, s, t);
  }

  lemma LookerGoesOn(h: ChainOf, s: State, t: Thread)
    requires Waits(h, s) && Carries(s, t) && Private(s.pc[t]) && !Holding(s.pc[t])
    ensures CanGoOn(h, s)
  {
    hide CanGoOn;
    match s.pc[t]
    case ReadSeq(_) => LookGoesOn(h, s, t, LoadSeq);
    case BeginWalk(_, _) => LookGoesOn(h, s, t, StartWalk);
    case Walking(own, _, start) =>
      if x :| x in start && x in s.hashed && Matches(s, x, own) { LookGoesOn(h, s, t, WalkHit(x, true)); }
      else { LookGoesOn(h, s, t, WalkMiss); }
    case Missed(_, seen) =>
      if seen % 2 == 1 { LookGoesOn(h, s, t, RetryOdd); }
      else if Chain(h, s, t) !in s.locks { LookGoesOn(h, s, t, LockChain); }
      else { assert LockOk(h, s, Chain(h, s, t)); HolderGoesOn(h, s, s.locks[Chain(h, s, t)]); }
    case Waiting(_, other) =>
      if other !in s.inLookup { LookGoesOn(h, s, t, Awake); }
      else { assert LookupOk(s, other); OwnerGoesOn(h, s, s.dentry[other].creator); }
  }

  /** In every state of every run in which some thread is inside a call, one of them can take a step. */
  lemma NeverStuck(h: ChainOf, states: seq<State>, steps: seq<Step>, i: nat, t: Thread)
    requires IsRun(h, states, steps) && i < |states| && t in states[i].pc && HasOwn(states[i].pc[t])
    ensures CanGoOn(h, states[i])
  {
    hide CanGoOn, LockOk, LookupOk, SeqOk, NamesakeOk, OneOf, CarryOk;
    var s := states[i];
    InvAlways(h, states, steps, i);
    WaitsAlways(h, states, steps, i);
    assert ThreadOk(h, s, t);
    if Holding(s.pc[t]) { HolderGoesOn(h, s, t); }
    else if Private(s.pc[t]) { LookerGoesOn(h, s, t); }
    else if OnChain(s.pc[t]) { OwnerGoesOn(h, s, t); }
    else { AdderGoesOn(h, s, t); }
  }
}
