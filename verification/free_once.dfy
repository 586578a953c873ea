/** Killing dentries that sit on somebody's shrink list: __dentry_kill against shrink_dentry_list,
    with the third-party kill of select_collect2, the lockless part of dput and its second look.

    Any number of threads, dentries and shrink lists; one step is one section under d_lock, one lockless
    change of the count, or one call of dentry_free.  The places where shrink_lock_dentry and dentry_kill
    drop d_lock to take the inode's or the parent's lock are separate steps, and so is what fast_dput does
    between its lockless decrement and d_lock: anybody may run in between. */
module FreeOnce {
  import opened Helpers

  type Thread = nat
  type Id = nat

  const DEAD := -128

  datatype Dentry = Dentry(
    count: int,              // d_lockref.count; negative once marked dead
    lru: bool,               // DCACHE_LRU_LIST
    shrink: bool,            // DCACHE_SHRINK_LIST
    mayFree: bool,           // DCACHE_MAY_FREE
    list: Option<Thread>,    // whose shrink list d_lru is linked into
    waiting: set<Thread>,    // who holds a reference and is in dentry_kill, with d_lock dropped
    freed: nat)              // calls of dentry_free

  datatype Pc =
    | Idle
    | OwnerWindow(d: Id)     // the owner of the list, in shrink_lock_dentry, with d_lock dropped
    | OwnerFree(d: Id)       // the owner, about to call dentry_free
    | Dropped(d: Id)         // fast_dput, the count brought to zero, d_lock not held, under RCU
    | KillerWindow(d: Id)    // dentry_kill on a reference it holds, with d_lock dropped
    | Victim(d: Id)          // a third party that picked d in select_collect2, d_lock not held, under RCU
    | Killing(d: Id)         // __dentry_kill, between its two sections under d_lock
    | KillerFree(d: Id)      // __dentry_kill, about to call dentry_free

  datatype State = State(dentry: map<Id, Dentry>, pc: map<Thread, Pc>)

  /** How shrink_lock_dentry comes out, once d_lock is held and the count is zero; and dput, once it holds d_lock and
      the last reference: it has to wait for another lock, it retains the dentry, or it kills it. */
  datatype Outcome = Window | Refused | Taken

  datatype Step =
    | Alloc(d: Id)
    | Get(d: Id)
    | Put(d: Id)                              // dput of a reference that is not the last, or of a retained dentry
    | PutKill(t: Thread, d: Id)               // dput of the last reference to a dentry that is not retained
    | FastDrop(t: Thread, d: Id)              // fast_dput: the lockless decrement
    | FastDone(t: Thread)                     // fast_dput: the flags say that nothing is left to do
    | FastLock(t: Thread, o: Outcome)         // fast_dput: d_lock taken; then the rest of dput
    | KillWait(t: Thread, d: Id)              // as PutKill, but a lock that dentry_kill wants is taken
    | KillRelock(t: Thread, o: Outcome)       // dentry_kill from got_locks on, or once more without them
    | Prune(t: Thread, d: Id)                 // d_prune_aliases, on an unused dentry
    | Collect(t: Thread, d: Id)               // onto t's shrink list; shrink_dcache_sb takes those in use as well
    | OffLru(d: Id)                           // off the superblock's list, in use
    | OwnerTakes(t: Thread, d: Id, o: Outcome)
    | OwnerRelocks(t: Thread, o: Outcome)
    | PickVictim(t: Thread, d: Id)
    | VictimLock(t: Thread, o: Outcome)
    | SecondSection(t: Thread)                // __dentry_kill from line 616
    | KillerFrees(t: Thread)
    | OwnerFrees(t: Thread)

  ghost predicate Init(s: State) {
    s.dentry == map[] && forall t :: t in s.pc ==> s.pc[t] == Idle
  }

  predicate IsIdle(s: State, t: Thread) { t in s.pc && s.pc[t].Idle? }

  predicate Live(s: State, d: Id) { d in s.dentry && s.dentry[d].count >= 0 }

  predicate Enabled(s: State, st: Step) {
    match st
    case Alloc(d) => d !in s.dentry
    case Get(d) => Live(s, d)
    case Put(d) => Live(s, d) && s.dentry[d].count > |s.dentry[d].waiting|
    case PutKill(t, d) => IsIdle(s, t) && Live(s, d) && s.dentry[d].count == 1 && s.dentry[d].waiting == {}
    case FastDrop(t, d) => IsIdle(s, t) && Live(s, d) && s.dentry[d].count > |s.dentry[d].waiting|
    case FastDone(t) => t in s.pc && s.pc[t].Dropped? && s.pc[t].d in s.dentry && s.dentry[s.pc[t].d].lru
    case FastLock(t, o) => t in s.pc && s.pc[t].Dropped? && s.pc[t].d in s.dentry
    case KillWait(t, d) => IsIdle(s, t) && Live(s, d) && s.dentry[d].count == 1 && s.dentry[d].waiting == {}
    case KillRelock(t, o) => t in s.pc && s.pc[t].KillerWindow? && s.pc[t].d in s.dentry
    case Prune(t, d) => IsIdle(s, t) && Live(s, d) && s.dentry[d].count == 0
    case Collect(t, d) =>
      IsIdle(s, t) && Live(s, d) && (s.dentry[d].count == 0 || s.dentry[d].lru) && !s.dentry[d].shrink
    case OffLru(d) => Live(s, d) && s.dentry[d].lru && !s.dentry[d].shrink && s.dentry[d].count > 0
    case OwnerTakes(t, d, o) => IsIdle(s, t) && d in s.dentry && s.dentry[d].list == Some(t)
    case OwnerRelocks(t, o) => t in s.pc && s.pc[t].OwnerWindow? && s.pc[t].d in s.dentry
    case PickVictim(t, d) => IsIdle(s, t) && Live(s, d) && s.dentry[d].shrink && s.dentry[d].count == 0
    case VictimLock(t, o) => t in s.pc && s.pc[t].Victim? && s.pc[t].d in s.dentry
    case SecondSection(t) => t in s.pc && s.pc[t].Killing? && s.pc[t].d in s.dentry
    case KillerFrees(t) => t in s.pc && s.pc[t].KillerFree? && s.pc[t].d in s.dentry
    case OwnerFrees(t) => t in s.pc && s.pc[t].OwnerFree? && s.pc[t].d in s.dentry
  }

  function Set(s: State, d: Id, x: Dentry): State { s.(dentry := s.dentry[d := x]) }

  function Goto(s: State, t: Thread, pc: Pc): State { s.(pc := s.pc[t := pc]) }

  function ShrinkDel(x: Dentry): Dentry { x.(shrink := false, lru := false, list := None) }

  /** __dentry_kill up to the first unlock: marked dead, off the superblock's LRU if it was there. */
  function MarkDead(x: Dentry): Dentry {
    x.(count := DEAD, lru := if x.lru && !x.shrink then false else x.lru)
  }

  /** shrink_dentry_list on d, d_lock held: lines 1187 to 1203. */
  function OwnerSection(s: State, t: Thread, d: Id, o: Outcome): State
    requires d in s.dentry
  {
    var x := s.dentry[d];
    if x.count == 0 && o.Window? then
      Goto(s, t, OwnerWindow(d))
    else if x.count == 0 && o.Taken? then
      Goto(Set(s, d, MarkDead(ShrinkDel(x))), t, Killing(d))
    else
      Goto(Set(s, d, ShrinkDel(x)), t, if x.count < 0 && x.mayFree then OwnerFree(d) else Idle)
  }

  /** shrink_dcache_parent on the victim d, d_lock held: lines 1641 to 1650. */
  function VictimSection(s: State, t: Thread, d: Id, o: Outcome): State
    requires d in s.dentry
  {
    var x := s.dentry[d];
    if x.count == 0 && o.Window? then
      Goto(s, t, Victim(d))
    else if x.count == 0 && o.Taken? then
      Goto(Set(s, d, MarkDead(x)), t, Killing(d))
    else
      Goto(s, t, Idle)
  }

  /** dput with d_lock held and the caller's the last reference. */
  function LastPut(s: State, t: Thread, d: Id, x: Dentry, o: Outcome): State {
    match o
    case Window => Goto(Set(s, d, x.(count := 1, waiting := x.waiting + {t})), t, KillerWindow(d))
    case Refused => Goto(Set(s, d, x.(count := 0, lru := true)), t, Idle)
    case Taken => Goto(Set(s, d, MarkDead(x)), t, Killing(d))
  }

  /** fast_dput from the spin_lock at line 847 on. */
  function FastSection(s: State, t: Thread, d: Id, o: Outcome): State
    requires d in s.dentry
  {
    if s.dentry[d].count != 0 then Goto(s, t, Idle) else LastPut(s, t, d, s.dentry[d], o)
  }

  /** dentry_kill from got_locks on: the second look. */
  function KillerSection(s: State, t: Thread, d: Id, o: Outcome): State
    requires d in s.dentry
  {
    var x := s.dentry[d].(waiting := s.dentry[d].waiting - {t});
    if s.dentry[d].count != 1 && !o.Window? then Goto(Set(s, d, x.(count := x.count - 1)), t, Idle)
    else if o.Window? then s
    else LastPut(s, t, d, x, o)
  }

  function Apply(s: State, st: Step): State
    requires Enabled(s, st)
  {
    match st
    case Alloc(d) => Set(s, d, Dentry(1, false, false, false, None, {}, 0))
    case Get(d) => Set(s, d, s.dentry[d].(count := s.dentry[d].count + 1))
    case Put(d) =>
      var x := s.dentry[d];
      Set(s, d, x.(count := x.count - 1, lru := x.lru || x.count == 1))
    case PutKill(t, d) => Goto(Set(s, d, MarkDead(s.dentry[d])), t, Killing(d))
    case FastDrop(t, d) =>
      var x := s.dentry[d];
      Goto(Set(s, d, x.(count := x.count - 1)), t, if x.count == 1 then Dropped(d) else Idle)
    case FastDone(t) => Goto(s, t, Idle)
    case FastLock(t, o) => FastSection(s, t, s.pc[t].d, o)
    case KillWait(t, d) => LastPut(s, t, d, s.dentry[d], Window)
    case KillRelock(t, o) => KillerSection(s, t, s.pc[t].d, o)
    case Prune(t, d) => Goto(Set(s, d, MarkDead(s.dentry[d])), t, Killing(d))
    case Collect(t, d) => Set(s, d, s.dentry[d].(lru := true, shrink := true, list := Some(t)))
    case OffLru(d) => Set(s, d, s.dentry[d].(lru := false))
    case OwnerTakes(t, d, o) => OwnerSection(s, t, d, o)
    case OwnerRelocks(t, o) => OwnerSection(s, t, s.pc[t].d, o)
    case PickVictim(t, d) => Goto(s, t, Victim(d))
    case VictimLock(t, o) => VictimSection(s, t, s.pc[t].d, o)
    case SecondSection(t) =>
      var d := s.pc[t].d;
      if s.dentry[d].shrink then Goto(Set(s, d, s.dentry[d].(mayFree := true)), t, Idle)
      else Goto(s, t, KillerFree(d))
    case KillerFrees(t) => Goto(Free(s, s.pc[t].d), t, Idle)
    case OwnerFrees(t) => Goto(Free(s, s.pc[t].d), t, Idle)
  }

  function Free(s: State, d: Id): State
    requires d in s.dentry
  {
    Set(s, d, s.dentry[d].(freed := s.dentry[d].freed + 1))
  }

  ghost predicate IsRun(states: seq<State>, steps: seq<Step>) {
    && |states| == |steps| + 1
    && Init(states[0])
    && forall i :: 0 <= i < |steps| ==> Enabled(states[i], steps[i]) && states[i + 1] == Apply(states[i], steps[i])
  }

  /** The dentry whose fields a step reads or writes. */
  function Touched(s: State, st: Step): Id
    requires Enabled(s, st)
  {
    match st
    case Alloc(d) => d
    case Get(d) => d
    case Put(d) => d
    case PutKill(_, d) => d
    case FastDrop(_, d) => d
    case FastDone(t) => s.pc[t].d
    case FastLock(t, _) => s.pc[t].d
    case KillWait(_, d) => d
    case KillRelock(t, _) => s.pc[t].d
    case Prune(_, d) => d
    case Collect(_, d) => d
    case OffLru(d) => d
    case OwnerTakes(_, d, _) => d
    case OwnerRelocks(t, _) => s.pc[t].d
    case PickVictim(_, d) => d
    case VictimLock(t, _) => s.pc[t].d
    case SecondSection(t) => s.pc[t].d
    case KillerFrees(t) => s.pc[t].d
    case OwnerFrees(t) => s.pc[t].d
  }

  // ---- the inductive invariant ----

  /** A thread that will yet free d, or hand it to the owner of its list. */
  predicate Liable(pc: Pc) { pc.Killing? || pc.KillerFree? || pc.OwnerFree? }

  predicate LiableFor(s: State, t: Thread, d: Id) { t in s.pc && Liable(s.pc[t]) && s.pc[t].d == d }

  predicate HandedToList(x: Dentry) { x.mayFree && x.shrink }

  predicate Sane(x: Dentry) {
    && (x.shrink <==> x.list.Some?)
    && (x.shrink ==> x.lru)
    && x.freed <= 1
    && (x.mayFree ==> x.count < 0)
    && (x.count < 0 && x.lru ==> x.shrink)
    && (if x.count < 0 then x.waiting == {} else |x.waiting| <= x.count)
    && (x.freed == 1 ==> x.count < 0 && !x.shrink)
  }

  ghost predicate SomeoneLiable(s: State, d: Id) { exists t {:trigger LiableFor(s, t, d)} :: LiableFor(s, t, d) }

  /** Nobody frees a live dentry; a dead one is freed, or handed to its list, or exactly one thread is liable for it. */
  ghost predicate DentryOk(s: State, d: Id) {
    d in s.dentry ==>
      var x := s.dentry[d];
      Sane(x) && (x.count < 0 && x.freed == 0 ==> HandedToList(x) || SomeoneLiable(s, d))
  }

  ghost predicate ThreadOk(s: State, t: Thread) {
    t in s.pc && !s.pc[t].Idle? ==>
      && s.pc[t].d in s.dentry
      && var x := s.dentry[s.pc[t].d];
         && (s.pc[t].OwnerWindow? ==> x.list == Some(t))
         && (s.pc[t].KillerWindow? ==> t in x.waiting)
         && (Liable(s.pc[t]) ==> x.count < 0 && x.freed == 0)
         && (s.pc[t].Killing? ==> !x.mayFree)
         && (s.pc[t].KillerFree? ==> !x.mayFree && !x.shrink)
         && (s.pc[t].OwnerFree? ==> x.mayFree && !x.shrink)
  }

  ghost predicate OneLiable(s: State, t: Thread, u: Thread) {
    t in s.pc && u in s.pc && Liable(s.pc[t]) && Liable(s.pc[u]) && s.pc[t].d == s.pc[u].d ==> t == u
  }

  ghost predicate Inv(s: State) {
    && (forall d {:trigger DentryOk(s, d)} :: DentryOk(s, d))
    && (forall t {:trigger ThreadOk(s, t)} :: ThreadOk(s, t))
    && (forall t, u {:trigger OneLiable(s, t, u)} :: OneLiable(s, t, u))
  }

  predicate HasThread(st: Step) { !st.Alloc? && !st.Get? && !st.Put? && !st.OffLru? }

  // Five kinds of steps: those that start something, the owner of a list, a third party, dput going on, and the
  // sections of a kill.

  predicate OfOwner(st: Step) { st.OwnerTakes? || st.OwnerRelocks? }

  predicate OfKill(st: Step) { st.SecondSection? || st.KillerFrees? || st.OwnerFrees? }

  predicate OfDput(st: Step) { st.FastDone? || st.FastLock? || st.KillRelock? }

  predicate Starts(st: Step) { !OfOwner(st) && !OfKill(st) && !OfDput(st) && !st.VictimLock? }

  /** Steps of a thread that looks again at a dentry which may be gone by now; RCU keeps its memory. */
  predicate LooksAgain(st: Step) { st.VictimLock? || st.FastDone? || st.FastLock? }

  /** What the thread of a step and the thread u know before it. */
  ghost predicate Known(s: State, st: Step, u: Thread) {
    && ThreadOk(s, u)
    && (HasThread(st) ==> ThreadOk(s, st.t) && OneLiable(s, st.t, u))
    && (Enabled(s, st) && !st.Alloc? ==> DentryOk(s, Touched(s, st)))
  }

  /** A step changes the dentry it touches and, if it has one, its thread. */
  lemma StepFrame(s: State, st: Step)
    requires Enabled(s, st)
    ensures var s', d := Apply(s, st), Touched(s, st);
      && d in s'.dentry && s'.dentry == s.dentry[d := s'.dentry[d]]
      && (HasThread(st) ==> st.t in s.pc && st.t in s'.pc && s'.pc == s.pc[st.t := s'.pc[st.t]])
      && (!HasThread(st) ==> s'.pc == s.pc)
  {
    hide Apply;
    DentryFrame(s, st);
    PcFrame(s, st);
  }

  /** At most the fields of d differ. */
  predicate OnlyAt(s: State, s': State, d: Id) { d in s'.dentry && s'.dentry == s.dentry[d := s'.dentry[d]] }

  lemma SectionFrames(s: State, t: Thread, d: Id, o: Outcome)
    requires d in s.dentry
    ensures OnlyAt(s, OwnerSection(s, t, d, o), d) && OnlyAt(s, VictimSection(s, t, d, o), d)
    ensures OnlyAt(s, FastSection(s, t, d, o), d) && OnlyAt(s, KillerSection(s, t, d, o), d)
    ensures OnlyAt(s, LastPut(s, t, d, s.dentry[d], o), d)
  {
    hide MarkDead, ShrinkDel;
  }

  lemma DentryFrame(s: State, st: Step)
    requires Enabled(s, st)
    ensures OnlyAt(s, Apply(s, st), Touched(s, st))
  {
    hide MarkDead, ShrinkDel, OwnerSection, VictimSection, FastSection, KillerSection, LastPut;
    if Touched(s, st) in s.dentry {
      match st
      case OwnerTakes(t, d, o) => SectionFrames(s, t, d, o);
      case OwnerRelocks(t, o) => SectionFrames(s, t, s.pc[t].d, o);
      case VictimLock(t, o) => SectionFrames(s, t, s.pc[t].d, o);
      case FastLock(t, o) => SectionFrames(s, t, s.pc[t].d, o);
      case KillWait(t, d) => SectionFrames(s, t, d, Window);
      case KillRelock(t, o) => SectionFrames(s, t, s.pc[t].d, o);
      case _ =>
    }
  }

  lemma PcFrame(s: State, st: Step)
    requires Enabled(s, st)
    ensures var s' := Apply(s, st);
      && (HasThread(st) ==> st.t in s.pc && st.t in s'.pc && s'.pc == s.pc[st.t := s'.pc[st.t]])
      && (!HasThread(st) ==> s'.pc == s.pc)
  {
  }

  lemma StartKeepsOwnOk(s: State, st: Step)
    requires Starts(st) && HasThread(st) && Enabled(s, st) && Known(s, st, st.t)
    ensures ThreadOk(Apply(s, st), st.t)
  {
  }

  /** What starts on a dentry starts on a live one, takes it off nobody's list and lets the others wait. */
  lemma StartEffect(s: State, st: Step, u: Thread)
    requires Starts(st) && Enabled(s, st) && !st.Alloc? && DentryOk(s, Touched(s, st)) && (HasThread(st) ==> u != st.t)
    ensures var x, x' := s.dentry[Touched(s, st)], Apply(s, st).dentry[Touched(s, st)];
      x.count >= 0 && (x'.list == x.list || x.list.None?) && (u in x'.waiting <==> u in x.waiting)
  {
  }

  lemma StartKeepsOtherOk(s: State, st: Step, u: Thread)
    requires Starts(st) && Enabled(s, st) && Known(s, st, u) && (HasThread(st) ==> u != st.t)
    ensures ThreadOk(Apply(s, st), u)
  {
    hide Apply;
    StepFrame(s, st);
    if !st.Alloc? { StartEffect(s, st, u); }
  }

  lemma OwnerKeepsOwnOk(s: State, st: Step)
    requires OfOwner(st) && Enabled(s, st) && Known(s, st, st.t)
    ensures ThreadOk(Apply(s, st), st.t)
  {
  }

  /** The owner takes a dentry off its list, may go on to kill it, or waits for a lock. */
  lemma OwnerEffect(s: State, st: Step)
    requires OfOwner(st) && Enabled(s, st) && ThreadOk(s, st.t)
    ensures var x, x' := s.dentry[Touched(s, st)], Apply(s, st).dentry[Touched(s, st)];
      x.list == Some(st.t) && (x' == x || x' == ShrinkDel(x) || x' == MarkDead(ShrinkDel(x)))
  {
  }

  lemma OwnerKeepsOtherOk(s: State, st: Step, u: Thread)
    requires OfOwner(st) && Enabled(s, st) && Known(s, st, u) && u != st.t
    ensures ThreadOk(Apply(s, st), u)
  {
    hide Apply;
    StepFrame(s, st);
    OwnerEffect(s, st);
  }

  lemma VictimKeepsThreadOk(s: State, st: Step, u: Thread)
    requires Enabled(s, st) && Known(s, st, u) && st.VictimLock?
    ensures ThreadOk(Apply(s, st), u)
  {
  }

  lemma KillKeepsThreadOk(s: State, st: Step, u: Thread)
    requires Enabled(s, st) && Known(s, st, u) && OfKill(st)
    ensures ThreadOk(Apply(s, st), u)
  {
  }

  lemma DputKeepsOwnOk(s: State, st: Step)
    requires OfDput(st) && Enabled(s, st) && Known(s, st, st.t)
    ensures ThreadOk(Apply(s, st), st.t)
  {
  }

  /** dput changes neither a dead dentry nor whose list it is on, and lets the others wait. */
  lemma DputEffect(s: State, st: Step, u: Thread)
    requires OfDput(st) && Enabled(s, st) && ThreadOk(s, st.t) && DentryOk(s, Touched(s, st)) && u != st.t
    ensures var x, x' := s.dentry[Touched(s, st)], Apply(s, st).dentry[Touched(s, st)];
      (x.count < 0 ==> x' == x) && x'.list == x.list && (u in x'.waiting <==> u in x.waiting)
  {
  }

  lemma DputKeepsOtherOk(s: State, st: Step, u: Thread)
    requires OfDput(st) && Enabled(s, st) && Known(s, st, u) && u != st.t
    ensures ThreadOk(Apply(s, st), u)
  {
    hide Apply;
    StepFrame(s, st);
    DputEffect(s, st, u);
  }

  lemma KnownIn(s: State, st: Step, u: Thread)
    requires Inv(s)
    ensures Known(s, st, u)
  {
    hide ThreadOk, OneLiable, DentryOk, Enabled, Touched;
    assert ThreadOk(s, u);
    if HasThread(st) { assert ThreadOk(s, st.t) && OneLiable(s, st.t, u); }
    if Enabled(s, st) { assert DentryOk(s, Touched(s, st)); }
  }

  lemma KeepsThreadOk(s: State, st: Step, u: Thread)
    requires Inv(s) && Enabled(s, st)
    ensures ThreadOk(Apply(s, st), u)
  {
    hide Inv, ThreadOk, Known, Enabled, Apply;
    KnownIn(s, st, u);
    if OfOwner(st) && u == st.t { OwnerKeepsOwnOk(s, st); }
    else if OfOwner(st) { OwnerKeepsOtherOk(s, st, u); }
    else if OfKill(st) { KillKeepsThreadOk(s, st, u); }
    else if OfDput(st) && u == st.t { DputKeepsOwnOk(s, st); }
    else if OfDput(st) { DputKeepsOtherOk(s, st, u); }
    else if st.VictimLock? { VictimKeepsThreadOk(s, st, u); }
    else if HasThread(st) && u == st.t { StartKeepsOwnOk(s, st); }
    else { StartKeepsOtherOk(s, st, u); }
  }

  /** A thread becomes liable only for a dentry that nobody else was liable for. */
  lemma KeepsOneLiable(s: State, st: Step, t: Thread, u: Thread)
    requires Inv(s) && Enabled(s, st)
    ensures OneLiable(Apply(s, st), t, u)
  {
    hide Apply, Sane;
    assert OneLiable(s, t, u);
    StepFrame(s, st);
    if HasThread(st) {
      if t == st.t && u != t { BecomesLiable(s, st, u); }
      if u == st.t && u != t { BecomesLiable(s, st, t); }
    }
  }

  lemma BecomesLiable(s: State, st: Step, u: Thread)
    requires Inv(s) && Enabled(s, st) && HasThread(st) && u != st.t
    ensures OneLiable(Apply(s, st), st.t, u)
  {
    KnownIn(s, st, u);
  }

  /** Other threads stay liable for what they were liable for. */
  lemma StillLiable(s: State, st: Step, d: Id)
    requires Enabled(s, st) && SomeoneLiable(s, d)
    ensures SomeoneLiable(Apply(s, st), d) || (HasThread(st) && LiableFor(s, st.t, d))
  {
    hide Apply;
    StepFrame(s, st);
    var t :| LiableFor(s, t, d);
    if !HasThread(st) || t != st.t { assert LiableFor(Apply(s, st), t, d); }
  }

  lemma UntouchedDentryOk(s: State, st: Step, d: Id)
    requires Enabled(s, st) && DentryOk(s, d) && d != Touched(s, st)
    ensures DentryOk(Apply(s, st), d)
  {
    hide Apply, SomeoneLiable, Sane;
    StepFrame(s, st);
    if SomeoneLiable(s, d) { StillLiable(s, st, d); }
  }

  lemma StartKeepsDentryOk(s: State, st: Step)
    requires Enabled(s, st) && DentryOk(s, Touched(s, st)) && Starts(st)
    ensures DentryOk(Apply(s, st), Touched(s, st))
  {
    hide SomeoneLiable;
    var s', d := Apply(s, st), Touched(s, st);
    if SomeoneLiable(s, d) { StillLiable(s, st, d); }
    if st.PutKill? || st.Prune? { NowLiable(s', st.t, d); }
  }

  lemma NowLiable(s: State, t: Thread, d: Id)
    requires LiableFor(s, t, d)
    ensures SomeoneLiable(s, d)
  {
  }

  lemma OwnerKeepsDentryOk(s: State, st: Step)
    requires Enabled(s, st) && DentryOk(s, Touched(s, st)) && OfOwner(st) && ThreadOk(s, st.t)
    ensures DentryOk(Apply(s, st), Touched(s, st))
  {
    hide SomeoneLiable;
    var s', d := Apply(s, st), Touched(s, st);
    if SomeoneLiable(s, d) { StillLiable(s, st, d); }
    if LiableFor(s', st.t, d) { NowLiable(s', st.t, d); }
  }

  lemma VictimKeepsDentryOk(s: State, st: Step)
    requires Enabled(s, st) && DentryOk(s, Touched(s, st)) && st.VictimLock? && ThreadOk(s, st.t)
    ensures DentryOk(Apply(s, st), Touched(s, st))
  {
    hide SomeoneLiable;
    var s', d := Apply(s, st), Touched(s, st);
    if SomeoneLiable(s, d) { StillLiable(s, st, d); }
    if LiableFor(s', st.t, d) { NowLiable(s', st.t, d); }
  }

  lemma KillKeepsDentryOk(s: State, st: Step)
    requires Enabled(s, st) && DentryOk(s, Touched(s, st)) && OfKill(st) && ThreadOk(s, st.t)
    ensures DentryOk(Apply(s, st), Touched(s, st))
  {
    hide SomeoneLiable;
    var s', d := Apply(s, st), Touched(s, st);
    if SomeoneLiable(s, d) { StillLiable(s, st, d); }
    if LiableFor(s', st.t, d) { NowLiable(s', st.t, d); }
  }

  lemma OneMoreOrLess(w: set<Thread>, t: Thread)
    ensures |w + {t}| == |w| + (if t in w then 0 else 1) && |w - {t}| == |w| - (if t in w then 1 else 0)
  {
    assert t in w ==> w + {t} == w && w == (w - {t}) + {t};
    assert t !in w ==> w - {t} == w;
  }

  lemma DputKeepsSane(s: State, st: Step)
    requires Enabled(s, st) && DentryOk(s, Touched(s, st)) && OfDput(st) && ThreadOk(s, st.t)
    ensures var s', d := Apply(s, st), Touched(s, st); d in s'.dentry ==> Sane(s'.dentry[d])
  {
    hide SomeoneLiable;
    var d := Touched(s, st);
    if d in s.dentry { OneMoreOrLess(s.dentry[d].waiting, st.t); }
  }

  lemma DputKeepsDentryOk(s: State, st: Step)
    requires Enabled(s, st) && DentryOk(s, Touched(s, st)) && OfDput(st) && ThreadOk(s, st.t)
    ensures DentryOk(Apply(s, st), Touched(s, st))
  {
    hide SomeoneLiable;
    var s', d := Apply(s, st), Touched(s, st);
    DputKeepsSane(s, st);
    if SomeoneLiable(s, d) { StillLiable(s, st, d); }
    if LiableFor(s', st.t, d) { NowLiable(s', st.t, d); }
  }

  lemma KeepsDentryOk(s: State, st: Step, d: Id)
    requires Inv(s) && Enabled(s, st)
    ensures DentryOk(Apply(s, st), d)
  {
    hide ThreadOk, DentryOk, OneLiable, Enabled, Apply, Touched;
    assert DentryOk(s, d);
    if HasThread(st) { assert ThreadOk(s, st.t); }
    if d != Touched(s, st) { UntouchedDentryOk(s, st, d); }
    else if OfOwner(st) { OwnerKeepsDentryOk(s, st); }
    else if OfKill(st) { KillKeepsDentryOk(s, st); }
    else if OfDput(st) { DputKeepsDentryOk(s, st); }
    else if st.VictimLock? { VictimKeepsDentryOk(s, st); }
    else { StartKeepsDentryOk(s, st); }
  }

  lemma StepKeepsInv(s: State, st: Step)
    requires Inv(s) && Enabled(s, st)
    ensures Inv(Apply(s, st))
  {
    var s' := Apply(s, st);
    forall d ensures DentryOk(s', d) { KeepsDentryOk(s, st, d); }
    forall t ensures ThreadOk(s', t) { KeepsThreadOk(s, st, t); }
    forall t, u ensures OneLiable(s', t, u) { KeepsOneLiable(s, st, t, u); }
  }

  lemma {:induction false} InvAlways(states: seq<State>, steps: seq<Step>, i: nat)
    requires IsRun(states, steps) && i < |states|
    ensures Inv(states[i])
  {
    if i > 0 {
      InvAlways(states, steps, i - 1);
      StepKeepsInv(states[i - 1], steps[i - 1]);
    }
  }

  /** In every run: no dentry is freed twice, and none is freed while it is alive or on a list. */
  lemma FreedAtMostOnce(states: seq<State>, steps: seq<Step>, i: nat, d: Id)
    requires IsRun(states, steps) && i < |states| && d in states[i].dentry
    ensures states[i].dentry[d].freed <= 1
    ensures states[i].dentry[d].freed == 1 ==> states[i].dentry[d].count < 0 && !states[i].dentry[d].shrink
  {
    InvAlways(states, steps, i);
    assert DentryOk(states[i], d);
  }

  /** In every run: only a step that looks again at a dentry, which RCU covers, touches a freed one. */
  lemma NotTouchedAfterFree(states: seq<State>, steps: seq<Step>, i: nat)
    requires IsRun(states, steps) && i < |steps|
    requires !steps[i].Alloc? && !LooksAgain(steps[i])
    ensures Touched(states[i], steps[i]) in states[i].dentry
    ensures states[i].dentry[Touched(states[i], steps[i])].freed == 0
  {
    InvAlways(states, steps, i);
    assert DentryOk(states[i], Touched(states[i], steps[i]));
    if HasThread(steps[i]) { assert ThreadOk(states[i], steps[i].t); }
  }

  /** ... and even that leaves a freed dentry as it is. */
  lemma LooksLeaveFreedAlone(states: seq<State>, steps: seq<Step>, i: nat)
    requires IsRun(states, steps) && i < |steps| && LooksAgain(steps[i])
    requires states[i].dentry[Touched(states[i], steps[i])].freed == 1
    ensures states[i + 1].dentry == states[i].dentry
  {
    InvAlways(states, steps, i);
    assert DentryOk(states[i], Touched(states[i], steps[i]));
  }

  /** In every run: while dput waits for a lock on its last reference, nobody kills or frees the dentry. */
  lemma HeldIsAlive(states: seq<State>, steps: seq<Step>, i: nat, t: Thread)
    requires IsRun(states, steps) && i < |states|
    requires t in states[i].pc && states[i].pc[t].KillerWindow?
    ensures Live(states[i], states[i].pc[t].d) && states[i].dentry[states[i].pc[t].d].freed == 0
    ensures states[i].dentry[states[i].pc[t].d].count >= 1
  {
    InvAlways(states, steps, i);
    assert ThreadOk(states[i], t) && DentryOk(states[i], states[i].pc[t].d);
  }

  /** In every run: once no thread is busy with a killed dentry and it is on no list, it has been freed, once. */
  lemma KilledIsFreed(states: seq<State>, steps: seq<Step>, i: nat, d: Id)
    requires IsRun(states, steps) && i < |states| && d in states[i].dentry
    requires states[i].dentry[d].count < 0 && states[i].dentry[d].list.None?
    requires forall t :: t in states[i].pc ==> !LiableFor(states[i], t, d)
    ensures states[i].dentry[d].freed == 1
  {
    InvAlways(states, steps, i);
    assert DentryOk(states[i], d);
  }
}
