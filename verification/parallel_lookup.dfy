/** Parallel lookup in the dentry cache: d_alloc_parallel, __d_add, __d_lookup_unhash_wake, and __d_move of another
    dentry onto one that is in lookup.

    Any number of threads run the protocol; one step is one access to shared state, or one
    section under the lock of an in-lookup chain.  A run is a sequence of steps, each enabled
    where it is taken.  The theorem is that no run ever has two dentries of the same parent
    and name that are in-lookup, in transit inside __d_add, or hashed. */
module ParallelLookup {

  type Thread = nat
  type Dir = nat
  type Id = nat

  /** What a lookup is for: the parent directory and the name. */
  datatype Key = Key(dir: Dir, name: string)

  datatype Dentry = Dentry(key: Key, creator: Thread)

  /** The chain of the in-lookup table that a key belongs to. */
  type ChainOf = Key -> nat

  datatype Pc =
    | Idle
    // d_alloc_parallel, own is the dentry it allocated
    | ReadSeq(own: Id)                               // at the retry label
    | BeginWalk(own: Id, seen: nat)                  // i_dir_seq read
    | Walking(own: Id, seen: nat, start: set<Id>)    // in __d_lookup_rcu; start: the matches hashed when it began
    | Missed(own: Id, seen: nat)                     // __d_lookup_rcu returned NULL
    | Locked(own: Id, seen: nat)                     // chain lock taken
    | Checked(own: Id)                               // i_dir_seq found unchanged under the chain lock
    | Waiting(own: Id, other: Id)                    // somebody else is looking it up
    | Inserted(own: Id)                              // on the chain, chain lock still held
    // the caller whose new dentry was returned
    | Owner(own: Id)
    | AddStarted(own: Id, n: nat)                    // __d_add, after start_dir_add
    | AddLocked(own: Id, n: nat)                     // __d_lookup_unhash, chain lock taken
    | AddUnhashed(own: Id, n: nat)                   // off the chain, not yet in the hash: in transit
    | AddHashed(own: Id, n: nat, result: Id)         // result in the hash, locked, end_dir_add still to come
    | AbortLocked(own: Id)                           // __d_lookup_unhash_wake, chain lock taken
    | Done(result: Id)

  datatype State = State(
    dentry: map<Id, Dentry>,    // every dentry allocated so far
    inLookup: set<Id>,          // on an in-lookup chain (DCACHE_PAR_LOOKUP)
    hashed: set<Id>,            // in the main hash
    dirSeq: map<Dir, nat>,      // i_dir_seq
    adder: map<Dir, Thread>,    // the last thread that made i_dir_seq odd
    locks: map<nat, Thread>,    // held chain locks and their holders
    pc: map<Thread, Pc>)

  /** Steps of a thread inside d_alloc_parallel. */
  datatype Look =
    | LoadSeq
    | StartWalk
    | WalkHit(x: Id, got: bool)   // got: the reference was taken and the name had not changed
    | WalkMiss
    | RetryOdd
    | LockChain
    | Recheck
    | RetryRenamed                // a rename anywhere during the walk
    | Join(x: Id)
    | Insert
    | UnlockChain
    | Awake
    | GiveUp                      // the other dentry died, or no longer matches

  /** Steps of a thread that owns an in-lookup dentry. */
  datatype Add =
    | StartAdd
    | LockForAdd
    | LookupUnhash
    | Rehash
    | EndAdd
    | LockForAbort
    | AbortUnhash

  datatype Step =
    | Alloc(t: Thread, d: Id, k: Key)
    | Looks(t: Thread, look: Look)
    | Adds(t: Thread, add: Add)
    | Splice(t: Thread, x: Id)    // __d_move of x onto the thread's own dentry, once that is off the chain
    | Leave(t: Thread)
    | Drop(x: Id)                 // anybody may unhash a dentry, unless its d_lock is held in __d_add

  ghost predicate Init(s: State) {
    && s.dentry == map[] && s.inLookup == {} && s.hashed == {} && s.locks == map[]
    && (forall t :: t in s.pc ==> s.pc[t] == Idle) && forall dir :: dir in s.dirSeq ==> s.dirSeq[dir] % 2 == 0
  }

  predicate HasOwn(pc: Pc) { !pc.Idle? && !pc.Done? }

  predicate Matches(s: State, x: Id, d: Id) {
    x in s.dentry && d in s.dentry && s.dentry[x].key == s.dentry[d].key
  }

  /** Thread t carries a dentry of its own, allocated in a directory that exists. */
  predicate Carries(s: State, t: Thread) {
    t in s.pc && HasOwn(s.pc[t]) && s.pc[t].own in s.dentry && s.dentry[s.pc[t].own].key.dir in s.dirSeq
  }

  function DirOf(s: State, t: Thread): Dir
    requires Carries(s, t)
  {
    s.dentry[s.pc[t].own].key.dir
  }

  function Chain(h: ChainOf, s: State, t: Thread): nat
    requires Carries(s, t)
  {
    h(s.dentry[s.pc[t].own].key)
  }

  predicate LookEnabled(h: ChainOf, s: State, t: Thread, look: Look) {
    && Carries(s, t)
    && var p := s.pc[t];
       match look
       case LoadSeq => p.ReadSeq?
       case StartWalk => p.BeginWalk?
       case WalkHit(x, got) => p.Walking? && x in s.hashed && Matches(s, x, p.own)
       // an RCU walk can only miss what was not hashed during the whole of it
       case WalkMiss => p.Walking? && forall x :: x in p.start && x in s.hashed ==> !Matches(s, x, p.own)
       case RetryRenamed => p.Walking?
       case RetryOdd => p.Missed? && p.seen % 2 == 1
       case LockChain => p.Missed? && p.seen % 2 == 0 && Chain(h, s, t) !in s.locks
       case Recheck => p.Locked?
       case Join(x) => p.Checked? && x in s.inLookup && Matches(s, x, p.own)
       case Insert => p.Checked? && forall x :: x in s.inLookup ==> !Matches(s, x, p.own)
       case UnlockChain => p.Inserted?
       case Awake => p.Waiting? && p.other !in s.inLookup
       case GiveUp => p.Waiting? && p.other !in s.inLookup
  }

  predicate AddEnabled(h: ChainOf, s: State, t: Thread, add: Add) {
    && Carries(s, t)
    && var p := s.pc[t];
       match add
       case StartAdd => p.Owner? && s.dirSeq[DirOf(s, t)] % 2 == 0
       case LockForAdd => p.AddStarted? && Chain(h, s, t) !in s.locks
       case LookupUnhash => p.AddLocked?
       case Rehash => p.AddUnhashed?
       case EndAdd => p.AddHashed?
       case LockForAbort => p.Owner? && Chain(h, s, t) !in s.locks
       case AbortUnhash => p.AbortLocked?
  }

  /** x is no one's in-lookup dentry, and no one is adding or moving it, which would hold its d_lock. */
  predicate SpliceEnabled(s: State, t: Thread, x: Id) {
    && Carries(s, t) && s.pc[t].AddUnhashed? && x in s.dentry && x !in s.inLookup
    && forall u :: u in s.pc && HasOwn(s.pc[u]) ==> s.pc[u].own != x && (s.pc[u].AddHashed? ==> s.pc[u].result != x)
  }

  /** The guard of a step: where its thread stands, and what it waits for. */
  predicate Enabled(h: ChainOf, s: State, st: Step) {
    match st
    case Alloc(t, d, k) => t in s.pc && s.pc[t].Idle? && d !in s.dentry && k.dir in s.dirSeq
    case Looks(t, look) => LookEnabled(h, s, t, look)
    case Adds(t, add) => AddEnabled(h, s, t, add)
    case Splice(t, x) => SpliceEnabled(s, t, x)
    case Leave(t) => t in s.pc && s.pc[t].Done?
    case Drop(x) => x in s.hashed && forall t :: t in s.pc && s.pc[t].AddHashed? ==> s.pc[t].result != x
  }

  function Goto(s: State, t: Thread, pc: Pc): State {
    s.(pc := s.pc[t := pc])
  }

  function LockBy(s: State, chain: nat, t: Thread): State {
    s.(locks := s.locks[chain := t])
  }

  function Unlock(s: State, chain: nat): State {
    s.(locks := s.locks - {chain})
  }

  function ApplyLook(h: ChainOf, s: State, t: Thread, look: Look): State
    requires LookEnabled(h, s, t, look)
  {
    var p := s.pc[t];
    match look
    case LoadSeq => Goto(s, t, BeginWalk(p.own, s.dirSeq[DirOf(s, t)]))
    case StartWalk => Goto(s, t, Walking(p.own, p.seen, set x | x in s.hashed && Matches(s, x, p.own)))
    case WalkHit(x, got) => Goto(s, t, if got then Done(x) else ReadSeq(p.own))
    case WalkMiss => Goto(s, t, Missed(p.own, p.seen))
    case RetryOdd => Goto(s, t, ReadSeq(p.own))
    case RetryRenamed => Goto(s, t, ReadSeq(p.own))
    case LockChain => Goto(LockBy(s, Chain(h, s, t), t), t, Locked(p.own, p.seen))
    case Recheck =>
      if s.dirSeq[DirOf(s, t)] == p.seen then Goto(s, t, Checked(p.own))
      else Goto(Unlock(s, Chain(h, s, t)), t, ReadSeq(p.own))
    case Join(x) => Goto(Unlock(s, Chain(h, s, t)), t, Waiting(p.own, x))
    case Insert => Goto(s.(inLookup := s.inLookup + {p.own}), t, Inserted(p.own))
    case UnlockChain => Goto(Unlock(s, Chain(h, s, t)), t, Owner(p.own))
    case Awake =>
      Goto(s, t, if p.other in s.hashed && Matches(s, p.other, p.own) then Done(p.other) else ReadSeq(p.own))
    case GiveUp => Goto(s, t, ReadSeq(p.own))
  }

  function ApplyAdd(h: ChainOf, s: State, t: Thread, add: Add): State
    requires AddEnabled(h, s, t, add)
  {
    var p := s.pc[t];
    match add
    case StartAdd =>
      var n := s.dirSeq[DirOf(s, t)];
      Goto(s.(dirSeq := s.dirSeq[DirOf(s, t) := n + 1], adder := s.adder[DirOf(s, t) := t]), t, AddStarted(p.own, n))
    case LockForAdd => Goto(LockBy(s, Chain(h, s, t), t), t, AddLocked(p.own, p.n))
    case LookupUnhash =>
      Goto(Unlock(s.(inLookup := s.inLookup - {p.own}), Chain(h, s, t)), t, AddUnhashed(p.own, p.n))
    case Rehash => Goto(s.(hashed := s.hashed + {p.own}), t, AddHashed(p.own, p.n, p.own))
    case EndAdd => Goto(s.(dirSeq := s.dirSeq[DirOf(s, t) := p.n + 2]), t, Done(p.result))
    case LockForAbort => Goto(LockBy(s, Chain(h, s, t), t), t, AbortLocked(p.own))
    case AbortUnhash =>
      Goto(Unlock(s.(inLookup := s.inLookup - {p.own}), Chain(h, s, t)), t, Done(p.own))
  }

  /** x takes the key of the thread's own dentry, which stays unhashed, and is hashed with it. */
  function ApplySplice(s: State, t: Thread, x: Id): State
    requires SpliceEnabled(s, t, x)
  {
    var p := s.pc[t];
    Goto(s.(dentry := s.dentry[x := s.dentry[x].(key := s.dentry[p.own].key)], hashed := s.hashed + {x}), t,
         AddHashed(p.own, p.n, x))
  }

  function Apply(h: ChainOf, s: State, st: Step): State
    requires Enabled(h, s, st)
  {
    match st
    case Alloc(t, d, k) => Goto(s.(dentry := s.dentry[d := Dentry(k, t)]), t, ReadSeq(d))
    case Looks(t, look) => ApplyLook(h, s, t, look)
    case Adds(t, add) => ApplyAdd(h, s, t, add)
    case Splice(t, x) => ApplySplice(s, t, x)
    case Leave(t) => Goto(s, t, Idle)
    case Drop(x) => s.(hashed := s.hashed - {x})
  }

  /** The states of a run: each step is enabled where it is taken. */
  ghost predicate IsRun(h: ChainOf, states: seq<State>, steps: seq<Step>) {
    && |states| == |steps| + 1
    && Init(states[0])
    && forall i :: 0 <= i < |steps| ==>
         Enabled(h, states[i], steps[i]) && states[i + 1] == Apply(h, states[i], steps[i])
  }

  ghost predicate InTransit(s: State, d: Id) {
    exists t :: t in s.pc && s.pc[t].AddUnhashed? && s.pc[t].own == d
  }

  /** In-lookup, in transit inside __d_add, or hashed. */
  ghost predicate Visible(s: State, d: Id) {
    d in s.inLookup || d in s.hashed || InTransit(s, d)
  }

  ghost predicate Exclusive(s: State) {
    forall a, b :: Visible(s, a) && Visible(s, b) && Matches(s, a, b) ==> a == b
  }

  // ---- the inductive invariant ----

  /** The thread holds the lock of its chain. */
  predicate Holding(pc: Pc) {
    pc.Locked? || pc.Checked? || pc.Inserted? || pc.AddLocked? || pc.AbortLocked?
  }

  /** The thread is between start_dir_add and end_dir_add. */
  predicate Adding(pc: Pc) { pc.AddStarted? || pc.AddLocked? || pc.AddUnhashed? || pc.AddHashed? }

  /** The thread's own dentry has not been published yet. */
  predicate Private(pc: Pc) {
    pc.ReadSeq? || pc.BeginWalk? || pc.Walking? || pc.Missed? || pc.Locked? || pc.Checked? || pc.Waiting?
  }

  /** The thread's own dentry is on its in-lookup chain. */
  predicate OnChain(pc: Pc) {
    pc.Inserted? || pc.Owner? || pc.AddStarted? || pc.AddLocked? || pc.AbortLocked?
  }

  ghost predicate Sane(s: State) {
    && s.inLookup <= s.dentry.Keys && s.hashed <= s.dentry.Keys && s.inLookup !! s.hashed
    && forall d :: d in s.dentry ==> s.dentry[d].key.dir in s.dirSeq
  }

  /** In transit; only the thread that allocated a dentry ever carries it through __d_add. */
  predicate Moving(s: State, d: Id) {
    && d in s.dentry && s.dentry[d].creator in s.pc
    && s.pc[s.dentry[d].creator].AddUnhashed? && s.pc[s.dentry[d].creator].own == d
  }

  predicate Present(s: State, d: Id) { d in s.inLookup || d in s.hashed || Moving(s, d) }

  ghost predicate CarryOk(h: ChainOf, s: State, t: Thread)
    requires Carries(s, t)
  {
    var p := s.pc[t];
    && s.dentry[p.own].creator == t
    && (Private(p) ==> p.own !in s.inLookup && p.own !in s.hashed)
    && (OnChain(p) ==> p.own in s.inLookup)
    && (p.AddUnhashed? ==> p.own !in s.inLookup && p.own !in s.hashed)
    && (Holding(p) ==> Chain(h, s, t) in s.locks && s.locks[Chain(h, s, t)] == t)
    // i_dir_seq is odd while one __d_add is under way in the directory
    && (Adding(p) ==> p.n % 2 == 0 && s.dirSeq[DirOf(s, t)] == p.n + 1
                      && DirOf(s, t) in s.adder && s.adder[DirOf(s, t)] == t)
    && ((p.BeginWalk? || p.Walking? || p.Missed? || p.Locked?) ==> p.seen <= s.dirSeq[DirOf(s, t)])
    && (p.Locked? ==> p.seen % 2 == 0)
    && (p.AddHashed? ==> p.result in s.hashed && Matches(s, p.result, p.own))
  }

  ghost predicate ThreadOk(h: ChainOf, s: State, t: Thread) {
    t in s.pc && HasOwn(s.pc[t]) ==> Carries(s, t) && CarryOk(h, s, t)
  }

  /** i_dir_seq still has the even value that t read. */
  predicate Unchanged(s: State, t: Thread)
    requires Carries(s, t)
  {
    var p := s.pc[t];
    (p.Walking? || p.Missed? || p.Locked?) && p.seen % 2 == 0 && p.seen == s.dirSeq[DirOf(s, t)]
  }

  /** What a looking thread t may rely on about a namesake x of its dentry. */
  ghost predicate NamesakeOk(s: State, t: Thread, x: Id) {
    Carries(s, t) && Matches(s, x, s.pc[t].own) ==>
      && (Unchanged(s, t) && x in s.hashed ==> s.pc[t].Walking? && x in s.pc[t].start)
      && (s.pc[t].Checked? ==> x !in s.hashed && !Moving(s, x))
  }

  ghost predicate OneOf(s: State, a: Id, b: Id) {
    Present(s, a) && Present(s, b) && Matches(s, a, b) ==> a == b
  }

  ghost predicate Inv(h: ChainOf, s: State) {
    && Sane(s)
    && (forall t {:trigger ThreadOk(h, s, t)} :: ThreadOk(h, s, t))
    && (forall t, x {:trigger NamesakeOk(s, t, x)} :: NamesakeOk(s, t, x))
    && (forall a, b {:trigger OneOf(s, a, b)} :: OneOf(s, a, b))
  }

  /** The steps that touch a chain lock, or the chain under it. */
  predicate AtLock(look: Look) { look.LockChain? || look.Insert? || Unlocks(look) }

  predicate Unlocks(look: Look) { look.Recheck? || look.Join? || look.UnlockChain? }

  /** What looking leaves alone. */
  lemma LookFrame(h: ChainOf, s: State, t: Thread, look: Look)
    requires LookEnabled(h, s, t, look)
    ensures var s' := ApplyLook(h, s, t, look);
      && s'.dentry == s.dentry && s'.hashed == s.hashed && s'.dirSeq == s.dirSeq && s'.adder == s.adder
      && s.inLookup <= s'.inLookup && t in s.pc && t in s'.pc && s'.pc == s.pc[t := s'.pc[t]]
      && !s'.pc[t].AddUnhashed?
  {
  }

  /** A lock held by another thread stays held, and what is put on the chain is the thread's own. */
  lemma LookLocks(h: ChainOf, s: State, t: Thread, look: Look, u: Thread, chain: nat)
    requires ThreadOk(h, s, t) && LookEnabled(h, s, t, look) && u != t && chain in s.locks && s.locks[chain] == u
    ensures var s' := ApplyLook(h, s, t, look); chain in s'.locks && s'.locks[chain] == u
  {
  }

  lemma LookInserts(h: ChainOf, s: State, t: Thread, look: Look, x: Id)
    requires ThreadOk(h, s, t) && LookEnabled(h, s, t, look) && x in ApplyLook(h, s, t, look).inLookup
    ensures x in s.inLookup || (x in s.dentry && s.dentry[x].creator == t)
  {
  }

  lemma LookKeepsSelfOk(h: ChainOf, s: State, t: Thread, look: Look)
    requires Sane(s) && ThreadOk(h, s, t) && LookEnabled(h, s, t, look) && !AtLock(look)
    ensures ThreadOk(h, ApplyLook(h, s, t, look), t)
  {
    var s' := ApplyLook(h, s, t, look);
    assert s' == s.(pc := s'.pc) && (HasOwn(s'.pc[t]) ==> s'.pc[t].own == s.pc[t].own);
    assert !Adding(s'.pc[t]) && !Holding(s'.pc[t]);
  }

  lemma LookLockKeepsSelfOk(h: ChainOf, s: State, t: Thread, look: Look)
    requires Sane(s) && ThreadOk(h, s, t) && LookEnabled(h, s, t, look) && (look.LockChain? || look.Insert?)
    ensures ThreadOk(h, ApplyLook(h, s, t, look), t)
  {
    var s' := ApplyLook(h, s, t, look);
    assert s'.dentry == s.dentry && s'.hashed == s.hashed && s'.dirSeq == s.dirSeq && s'.adder == s.adder;
    assert HasOwn(s'.pc[t]) ==> s'.pc[t].own == s.pc[t].own;
    assert !Adding(s'.pc[t]);
  }

  lemma LookUnlockKeepsSelfOk(h: ChainOf, s: State, t: Thread, look: Look)
    requires Sane(s) && ThreadOk(h, s, t) && LookEnabled(h, s, t, look) && Unlocks(look)
    ensures ThreadOk(h, ApplyLook(h, s, t, look), t)
  {
    var s' := ApplyLook(h, s, t, look);
    assert s'.dentry == s.dentry && s'.hashed == s.hashed && s'.dirSeq == s.dirSeq && s'.adder == s.adder;
    assert HasOwn(s'.pc[t]) ==> s'.pc[t].own == s.pc[t].own;
    assert !Adding(s'.pc[t]);
  }

  /** A step of another thread takes no lock that u holds, and leaves what u carries as it is. */
  lemma LookKeepsOtherOk(h: ChainOf, s: State, t: Thread, look: Look, u: Thread)
    requires Sane(s) && ThreadOk(h, s, u) && ThreadOk(h, s, t) && LookEnabled(h, s, t, look) && u != t
    ensures ThreadOk(h, ApplyLook(h, s, t, look), u)
  {
    hide ApplyLook, LookEnabled;
    LookFrame(h, s, t, look);
    if u in s.pc && HasOwn(s.pc[u]) {
      if Holding(s.pc[u]) { LookLocks(h, s, t, look, u, Chain(h, s, u)); }
      if s.pc[u].own in ApplyLook(h, s, t, look).inLookup { LookInserts(h, s, t, look, s.pc[u].own); }
    }
  }

  predicate AddAtLock(add: Add) { add.LockForAdd? || add.LookupUnhash? || add.LockForAbort? || add.AbortUnhash? }

  lemma AddKeepsSelfOk(h: ChainOf, s: State, t: Thread, add: Add)
    requires Sane(s) && ThreadOk(h, s, t) && AddEnabled(h, s, t, add) && !AddAtLock(add)
    ensures ThreadOk(h, ApplyAdd(h, s, t, add), t)
  {
    var s' := ApplyAdd(h, s, t, add);
    assert s'.dentry == s.dentry && s'.locks == s.locks && s'.inLookup == s.inLookup;
    assert !Holding(s'.pc[t]) && !Private(s'.pc[t]);
  }

  lemma AddLockKeepsSelfOk(h: ChainOf, s: State, t: Thread, add: Add)
    requires Sane(s) && ThreadOk(h, s, t) && AddEnabled(h, s, t, add) && (add.LockForAdd? || add.LockForAbort?)
    ensures ThreadOk(h, ApplyAdd(h, s, t, add), t)
  {
    var s' := ApplyAdd(h, s, t, add);
    assert s'.dentry == s.dentry && s'.hashed == s.hashed && s'.dirSeq == s.dirSeq && s'.adder == s.adder;
    assert !Private(s'.pc[t]);
  }

  lemma AddUnhashKeepsSelfOk(h: ChainOf, s: State, t: Thread, add: Add)
    requires Sane(s) && ThreadOk(h, s, t) && AddEnabled(h, s, t, add) && (add.LookupUnhash? || add.AbortUnhash?)
    ensures ThreadOk(h, ApplyAdd(h, s, t, add), t)
  {
    var s' := ApplyAdd(h, s, t, add);
    assert s'.dentry == s.dentry && s'.hashed == s.hashed && s'.dirSeq == s.dirSeq && s'.adder == s.adder;
    assert !Private(s'.pc[t]);
  }

  /** What adding leaves alone. */
  lemma AddFrame(h: ChainOf, s: State, t: Thread, add: Add)
    requires AddEnabled(h, s, t, add)
    ensures var s' := ApplyAdd(h, s, t, add);
      && s'.dentry == s.dentry && s'.inLookup <= s.inLookup && s.hashed <= s'.hashed
      && t in s.pc && t in s'.pc && s'.pc == s.pc[t := s'.pc[t]] && !Private(s'.pc[t])
  {
  }

  lemma AddLocks(h: ChainOf, s: State, t: Thread, add: Add, u: Thread, chain: nat)
    requires ThreadOk(h, s, t) && AddEnabled(h, s, t, add) && u != t && chain in s.locks && s.locks[chain] == u
    ensures var s' := ApplyAdd(h, s, t, add); chain in s'.locks && s'.locks[chain] == u
  {
  }

  /** i_dir_seq never falls, and while some other thread is adding in the directory it stays as it is. */
  lemma AddSeq(h: ChainOf, s: State, t: Thread, add: Add, dir: Dir)
    requires ThreadOk(h, s, t) && AddEnabled(h, s, t, add) && dir in s.dirSeq
    ensures var s' := ApplyAdd(h, s, t, add);
      && dir in s'.dirSeq && s.dirSeq[dir] <= s'.dirSeq[dir]
      && (s.dirSeq[dir] % 2 == 1 && dir in s.adder && s.adder[dir] != t ==>
            s'.dirSeq[dir] == s.dirSeq[dir] && dir in s'.adder && s'.adder[dir] == s.adder[dir])
  {
  }

  /** What leaves the chain or enters the hash is the thread's own. */
  lemma AddMoves(h: ChainOf, s: State, t: Thread, add: Add, x: Id)
    requires ThreadOk(h, s, t) && AddEnabled(h, s, t, add)
    ensures var s' := ApplyAdd(h, s, t, add);
      x in s.inLookup - s'.inLookup || x in s'.hashed - s.hashed ==> x in s.dentry && s.dentry[x].creator == t
  {
  }

  lemma AddKeepsOtherOk(h: ChainOf, s: State, t: Thread, add: Add, u: Thread)
    requires Sane(s) && ThreadOk(h, s, u) && ThreadOk(h, s, t) && AddEnabled(h, s, t, add) && u != t
    ensures ThreadOk(h, ApplyAdd(h, s, t, add), u)
  {
    hide ApplyAdd, AddEnabled;
    AddFrame(h, s, t, add);
    if u in s.pc && HasOwn(s.pc[u]) {
      if Holding(s.pc[u]) { AddLocks(h, s, t, add, u, Chain(h, s, u)); }
      AddSeq(h, s, t, add, DirOf(s, u));
      AddMoves(h, s, t, add, s.pc[u].own);
    }
  }

  /** What one thread carries is not what another moves. */
  lemma SpliceKeepsThreadOk(h: ChainOf, s: State, t: Thread, x: Id, u: Thread)
    requires Sane(s) && ThreadOk(h, s, u) && ThreadOk(h, s, t) && SpliceEnabled(s, t, x)
    ensures ThreadOk(h, ApplySplice(s, t, x), u)
  {
  }

  lemma KeepsThreadOk(h: ChainOf, s: State, st: Step, u: Thread)
    requires Inv(h, s) && Enabled(h, s, st)
    ensures ThreadOk(h, Apply(h, s, st), u)
  {
    hide ApplyLook, ApplyAdd, LookEnabled, AddEnabled, NamesakeOk, OneOf;
    assert ThreadOk(h, s, u);
    match st
    case Looks(t, look) =>
      assert ThreadOk(h, s, t);
      if u != t { LookKeepsOtherOk(h, s, t, look, u); }
      else if Unlocks(look) { LookUnlockKeepsSelfOk(h, s, t, look); }
      else if AtLock(look) { LookLockKeepsSelfOk(h, s, t, look); }
      else { LookKeepsSelfOk(h, s, t, look); }
    case Adds(t, add) =>
      assert ThreadOk(h, s, t);
      if u != t { AddKeepsOtherOk(h, s, t, add, u); }
      else if add.LockForAdd? || add.LockForAbort? { AddLockKeepsSelfOk(h, s, t, add); }
      else if AddAtLock(add) { AddUnhashKeepsSelfOk(h, s, t, add); }
      else { AddKeepsSelfOk(h, s, t, add); }
    case Splice(t, x) => assert ThreadOk(h, s, t); SpliceKeepsThreadOk(h, s, t, x, u);
    case _ =>
  }

  /** While some __d_add of the directory is under way i_dir_seq is odd, so the re-check fails. */
  lemma RecheckKeepsNamesakeOk(h: ChainOf, s: State, t: Thread, look: Look, x: Id)
    requires Sane(s) && ThreadOk(h, s, t) && LookEnabled(h, s, t, look) && look.Recheck?
    requires NamesakeOk(s, t, x) && (x in s.dentry ==> ThreadOk(h, s, s.dentry[x].creator))
    ensures NamesakeOk(ApplyLook(h, s, t, look), t, x)
  {
  }

  lemma LookKeepsNamesakeOk(h: ChainOf, s: State, t: Thread, look: Look, x: Id)
    requires Sane(s) && ThreadOk(h, s, t) && LookEnabled(h, s, t, look) && !look.Recheck?
    requires NamesakeOk(s, t, x) && (x in s.dentry ==> ThreadOk(h, s, s.dentry[x].creator))
    ensures NamesakeOk(ApplyLook(h, s, t, look), t, x)
  {
  }

  /** Looking changes nothing that another thread relies on. */
  lemma LookKeepsOthersNamesakes(h: ChainOf, s: State, t: Thread, look: Look, u: Thread, x: Id)
    requires Sane(s) && LookEnabled(h, s, t, look) && u != t && NamesakeOk(s, u, x)
    ensures NamesakeOk(ApplyLook(h, s, t, look), u, x)
  {
    hide ApplyLook, LookEnabled;
    LookFrame(h, s, t, look);
  }

  /** A dentry is hashed out of transit while i_dir_seq is odd, and enters transit only under its chain's lock. */
  lemma AddPublishes(h: ChainOf, s: State, t: Thread, add: Add, x: Id)
    requires ThreadOk(h, s, t) && AddEnabled(h, s, t, add)
    ensures var s' := ApplyAdd(h, s, t, add);
      && (x in s'.hashed - s.hashed ==>
            Moving(s, x) && s.dentry[x].key.dir in s.dirSeq && s'.dirSeq == s.dirSeq
            && s.dirSeq[s.dentry[x].key.dir] % 2 == 1)
      && (Moving(s', x) && !Moving(s, x) ==>
            x in s.dentry && h(s.dentry[x].key) in s.locks && s.locks[h(s.dentry[x].key)] == t)
  {
  }

  /** So adding breaks nothing that a looking thread relies on about a namesake. */
  lemma AddKeepsNamesakeOk(h: ChainOf, s: State, t: Thread, add: Add, u: Thread, x: Id)
    requires Sane(s) && ThreadOk(h, s, u) && ThreadOk(h, s, t) && AddEnabled(h, s, t, add)
    requires NamesakeOk(s, u, x)
    ensures NamesakeOk(ApplyAdd(h, s, t, add), u, x)
  {
    hide ApplyAdd, AddEnabled;
    AddFrame(h, s, t, add);
    if u != t && Carries(s, u) && Matches(s, x, s.pc[u].own) {
      AddSeq(h, s, t, add, DirOf(s, u));
      AddPublishes(h, s, t, add, x);
    }
  }

  /** The thread's own dentry was a namesake in transit, so nobody with its key is checked, and i_dir_seq is odd. */
  lemma SpliceKeepsNamesakeOk(h: ChainOf, s: State, t: Thread, y: Id, u: Thread, x: Id)
    requires Sane(s) && ThreadOk(h, s, u) && ThreadOk(h, s, t) && SpliceEnabled(s, t, y)
    requires NamesakeOk(s, u, x) && NamesakeOk(s, u, s.pc[t].own)
    ensures NamesakeOk(ApplySplice(s, t, y), u, x)
  {
  }

  lemma KeepsNamesakeOk(h: ChainOf, s: State, st: Step, u: Thread, x: Id)
    requires Inv(h, s) && Enabled(h, s, st)
    ensures NamesakeOk(Apply(h, s, st), u, x)
  {
    assert NamesakeOk(s, u, x) && ThreadOk(h, s, u);
    if x in s.dentry { assert ThreadOk(h, s, s.dentry[x].creator); }
    match st
    case Looks(t, look) =>
      assert ThreadOk(h, s, t);
      if u != t { LookKeepsOthersNamesakes(h, s, t, look, u, x); }
      else if look.Recheck? { RecheckKeepsNamesakeOk(h, s, t, look, x); }
      else { LookKeepsNamesakeOk(h, s, t, look, x); }
    case Adds(t, add) => assert ThreadOk(h, s, t); AddKeepsNamesakeOk(h, s, t, add, u, x);
    case Splice(t, y) =>
      assert ThreadOk(h, s, t) && NamesakeOk(s, u, s.pc[t].own);
      SpliceKeepsNamesakeOk(h, s, t, y, u, x);
    case _ =>
  }

  lemma LookKeepsOneOf(h: ChainOf, s: State, t: Thread, look: Look, a: Id, b: Id)
    requires Sane(s) && OneOf(s, a, b) && ThreadOk(h, s, t) && LookEnabled(h, s, t, look)
    requires NamesakeOk(s, t, a) && NamesakeOk(s, t, b)
    ensures OneOf(ApplyLook(h, s, t, look), a, b)
  {
  }

  lemma AddKeepsOneOf(h: ChainOf, s: State, t: Thread, add: Add, a: Id, b: Id)
    requires Sane(s) && OneOf(s, a, b) && ThreadOk(h, s, t) && AddEnabled(h, s, t, add)
    ensures OneOf(ApplyAdd(h, s, t, add), a, b)
  {
    var s' := ApplyAdd(h, s, t, add);
    assert Present(s', a) ==> Present(s, a);
    assert Present(s', b) ==> Present(s, b);
  }

  /** x takes the place that the thread's own dentry had. */
  lemma SpliceKeepsOneOf(h: ChainOf, s: State, t: Thread, x: Id, a: Id, b: Id)
    requires Sane(s) && OneOf(s, a, b) && ThreadOk(h, s, t) && SpliceEnabled(s, t, x)
    requires OneOf(s, s.pc[t].own, a) && OneOf(s, s.pc[t].own, b)
    ensures OneOf(ApplySplice(s, t, x), a, b)
  {
  }

  lemma KeepsOneOf(h: ChainOf, s: State, st: Step, a: Id, b: Id)
    requires Inv(h, s) && Enabled(h, s, st)
    ensures OneOf(Apply(h, s, st), a, b)
  {
    assert OneOf(s, a, b);
    match st
    case Looks(t, look) =>
      assert ThreadOk(h, s, t) && NamesakeOk(s, t, a) && NamesakeOk(s, t, b);
      LookKeepsOneOf(h, s, t, look, a, b);
    case Adds(t, add) => assert ThreadOk(h, s, t); AddKeepsOneOf(h, s, t, add, a, b);
    case Splice(t, x) =>
      var own := s.pc[t].own;
      assert ThreadOk(h, s, t) && OneOf(s, own, a) && OneOf(s, own, b);
      SpliceKeepsOneOf(h, s, t, x, a, b);
    case _ =>
  }

  lemma LookKeepsSane(h: ChainOf, s: State, t: Thread, look: Look)
    requires Sane(s) && ThreadOk(h, s, t) && LookEnabled(h, s, t, look)
    ensures Sane(ApplyLook(h, s, t, look))
  {
  }

  lemma AddKeepsSane(h: ChainOf, s: State, t: Thread, add: Add)
    requires Sane(s) && ThreadOk(h, s, t) && AddEnabled(h, s, t, add)
    ensures Sane(ApplyAdd(h, s, t, add))
  {
  }

  lemma KeepsSane(h: ChainOf, s: State, st: Step)
    requires Inv(h, s) && Enabled(h, s, st)
    ensures Sane(Apply(h, s, st))
  {
    hide Unchanged, NamesakeOk, OneOf, CarryOk, LookEnabled, AddEnabled, ApplyLook, ApplyAdd;
    match st
    case Looks(t, look) => assert ThreadOk(h, s, t); LookKeepsSane(h, s, t, look);
    case Adds(t, add) => assert ThreadOk(h, s, t); AddKeepsSane(h, s, t, add);
    case Splice(t, x) => assert ThreadOk(h, s, t);
    case _ =>
  }

  lemma StepKeepsInv(h: ChainOf, s: State, st: Step)
    requires Inv(h, s) && Enabled(h, s, st)
    ensures Inv(h, Apply(h, s, st))
  {
    var s' := Apply(h, s, st);
    KeepsSane(h, s, st);
    forall u ensures ThreadOk(h, s', u) { KeepsThreadOk(h, s, st, u); }
    forall u, x ensures NamesakeOk(s', u, x) { KeepsNamesakeOk(h, s, st, u, x); }
    forall a, b ensures OneOf(s', a, b) { KeepsOneOf(h, s, st, a, b); }
  }

  lemma {:induction false} InvAlways(h: ChainOf, states: seq<State>, steps: seq<Step>, i: nat)
    requires IsRun(h, states, steps) && i < |states|
    ensures Inv(h, states[i])
  {
    if i > 0 {
      InvAlways(h, states, steps, i - 1);
      StepKeepsInv(h, states[i - 1], steps[i - 1]);
    }
  }

  /** In every state of every run, at most one dentry of each parent and name is in-lookup, in transit or hashed. */
  lemma AtMostOnePerName(h: ChainOf, states: seq<State>, steps: seq<Step>, i: nat)
    requires IsRun(h, states, steps) && i < |states|
    ensures Exclusive(states[i])
  {
    InvAlways(h, states, steps, i);
    var s := states[i];
    forall d | Visible(s, d) ensures Present(s, d) {
      if InTransit(s, d) {
        var t :| t in s.pc && s.pc[t].AddUnhashed? && s.pc[t].own == d;
        assert ThreadOk(h, s, t);
      }
    }
    forall a, b | Visible(s, a) && Visible(s, b) && Matches(s, a, b) ensures a == b { assert OneOf(s, a, b); }
  }
}
