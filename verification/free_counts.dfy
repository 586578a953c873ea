/** What the interleavings of free_once come to: counts are references, and nothing unused or dead is forgotten. */
module FreeCounts {
  import opened Helpers
  import opened FreeOnce

  // ---- references ----

  /** The references on d that a step takes, less those it gives back. fast_dput takes back the one it has dropped if
      it comes to wait with it; dentry_kill has given its own back when it ends without a kill. */
  function Delta(s: State, st: Step, s': State, d: Id): int {
    match st
    case Alloc(e) => One(e == d)
    case Get(e) => One(e == d)
    case Put(e) => -One(e == d)
    case FastDrop(_, e) => -One(e == d)
    case FastLock(t, _) => One(t in s'.pc && s'.pc[t] == KillerWindow(d))
    case KillRelock(t, _) => -One(t in s.pc && s.pc[t] == KillerWindow(d) && t in s'.pc && s'.pc[t].Idle?)
    case _ => 0
  }

  /** References on d taken in the first n steps, less those given back. */
  function Refs(states: seq<State>, steps: seq<Step>, n: nat, d: Id): int
    requires n <= |steps| < |states|
  {
    if n == 0 then 0 else Refs(states, steps, n - 1, d) + Delta(states[n - 1], steps[n - 1], states[n], d)
  }

  /** A step changes the count of a live dentry by the references it takes and gives back, and revives no dead one. */
  predicate Counts(s: State, st: Step, s': State, d: Id) {
    && (d in s.dentry ==> d in s'.dentry)
    && (d !in s'.dentry ==> Delta(s, st, s', d) == 0)
    && (Live(s', d) ==>
          && (d in s.dentry ==> Live(s, d))
          && s'.dentry[d].count == (if d in s.dentry then s.dentry[d].count else 0) + Delta(s, st, s', d))
  }

  lemma StepCounts(s: State, st: Step, d: Id)
    requires Inv(s) && Enabled(s, st)
    ensures Counts(s, st, Apply(s, st), d)
  {
    assert DentryOk(s, d);
    if HasThread(st) { assert ThreadOk(s, st.t); }
    if d == Touched(s, st) { TouchedCounts(s, st); } else { OthersCount(s, st, d); }
  }

  lemma OthersCount(s: State, st: Step, d: Id)
    requires Enabled(s, st) && d != Touched(s, st) && (HasThread(st) ==> ThreadOk(s, st.t))
    ensures Counts(s, st, Apply(s, st), d)
  {
    hide Sane;
  }

  lemma TouchedCounts(s: State, st: Step)
    requires Enabled(s, st) && DentryOk(s, Touched(s, st)) && (HasThread(st) ==> ThreadOk(s, st.t))
    ensures Counts(s, st, Apply(s, st), Touched(s, st))
  {
    hide SomeoneLiable;
  }

  /** In every run the count of a live dentry is the references taken on it, less those given back. */
  lemma {:induction false} CountIsRefs(states: seq<State>, steps: seq<Step>, i: nat, d: Id)
    requires IsRun(states, steps) && i < |states|
    ensures Live(states[i], d) ==> states[i].dentry[d].count == Refs(states, steps, i, d)
    ensures d !in states[i].dentry ==> Refs(states, steps, i, d) == 0
  {
    hide Inv, Enabled, Apply, Delta;
    if i > 0 {
      CountIsRefs(states, steps, i - 1, d);
      InvAlways(states, steps, i - 1);
      StepCounts(states[i - 1], steps[i - 1], d);
    }
  }

  // ---- who kills, and what stays listed ----

  /** A dentry is killed when it is unused, or by the holder of its last reference. */
  predicate KilledRight(s: State, st: Step, s': State, d: Id) {
    Live(s, d) && d in s'.dentry && !Live(s', d) ==>
      && HasThread(st) && st.t in s'.pc && s'.pc[st.t] == Killing(d)
      && (s.dentry[d].count == 0 || (s.dentry[d].count == 1 && (st.PutKill? || st.KillRelock?)))
      && s.dentry[d].waiting <= {st.t}
  }

  /** A live dentry that becomes unused is on a list, or fast_dput will look at it again; and it leaves its lists unused
      only when its owner finds it disrupted. */
  predicate ListedRight(s: State, st: Step, s': State, d: Id) {
    Live(s, d) && Live(s', d) && s'.dentry[d].count == 0 ==>
      && (s.dentry[d].count != 0 ==>
            s'.dentry[d].lru || (st.FastDrop? && st.t in s'.pc && s'.pc[st.t] == Dropped(d)))
      && (s.dentry[d].lru && !s'.dentry[d].lru ==> (st.OwnerTakes? || st.OwnerRelocks?) && st.o.Refused?)
  }

  /** fast_dput is done with a dentry only if that is in use again, or dead, or on a list; dentry_kill waits on only
      for want of a lock; and shrink_dcache_parent waits for its victim, or kills it, only while that is unused. */
  predicate DroppedRight(s: State, st: Step, s': State, t: Thread) {
    t in s.pc && t in s'.pc ==>
      && (s.pc[t].Dropped? && s'.pc[t].Idle? && s.pc[t].d in s'.dentry ==>
            s'.dentry[s.pc[t].d].count != 0 || s'.dentry[s.pc[t].d].lru)
      && (st.KillRelock? && st.t == t && s'.pc[t].KillerWindow? ==> st.o.Window?)
      && (st.VictimLock? && st.t == t && s.pc[t].Victim? && s.pc[t].d in s.dentry ==>
            && (s'.pc[t].Victim? <==> s.dentry[s.pc[t].d].count == 0 && st.o.Window?)
            && (s'.pc[t].Killing? <==> s.dentry[s.pc[t].d].count == 0 && st.o.Taken?))
  }

  lemma StepIsRight(s: State, st: Step, d: Id)
    requires Inv(s) && Enabled(s, st)
    ensures KilledRight(s, st, Apply(s, st), d) && ListedRight(s, st, Apply(s, st), d)
    ensures HasThread(st) ==> DroppedRight(s, st, Apply(s, st), st.t)
  {
    assert DentryOk(s, d) && DentryOk(s, Touched(s, st));
    if HasThread(st) {
      assert ThreadOk(s, st.t);
      TouchedDropped(s, st);
    }
    if d == Touched(s, st) { TouchedIsListed(s, st); TouchedIsKilled(s, st); } else { hide Apply; StepFrame(s, st); }
  }

  lemma TouchedIsListed(s: State, st: Step)
    requires Enabled(s, st) && DentryOk(s, Touched(s, st)) && (HasThread(st) ==> ThreadOk(s, st.t))
    ensures ListedRight(s, st, Apply(s, st), Touched(s, st))
  {
    hide SomeoneLiable;
  }

  lemma TouchedIsKilled(s: State, st: Step)
    requires Enabled(s, st) && DentryOk(s, Touched(s, st)) && (HasThread(st) ==> ThreadOk(s, st.t))
    ensures KilledRight(s, st, Apply(s, st), Touched(s, st))
  {
    hide SomeoneLiable;
    var x := if Touched(s, st) in s.dentry then s.dentry[Touched(s, st)].waiting else {};
    if |x| <= 1 && HasThread(st) && st.t in x { OnlyOne(x, st.t); }
  }

  lemma OnlyOne(w: set<Thread>, t: Thread)
    requires t in w && |w| <= 1
    ensures w == {t}
  {
    assert |w - {t}| == |w| - 1;
    assert w == (w - {t}) + {t};
  }

  lemma TouchedDropped(s: State, st: Step)
    requires Enabled(s, st) && HasThread(st) && ThreadOk(s, st.t)
    ensures DroppedRight(s, st, Apply(s, st), st.t)
  {
  }

  /** In every run, at every step. */
  lemma StepsAreRight(states: seq<State>, steps: seq<Step>, i: nat, d: Id)
    requires IsRun(states, steps) && i < |steps|
    ensures KilledRight(states[i], steps[i], states[i + 1], d) && ListedRight(states[i], steps[i], states[i + 1], d)
    ensures HasThread(steps[i]) ==> DroppedRight(states[i], steps[i], states[i + 1], steps[i].t)
  {
    hide Inv, Enabled, Apply;
    InvAlways(states, steps, i);
    StepIsRight(states[i], steps[i], d);
  }

  /** In every run a dead dentry is on no list but a shrink list, whose owner can take it off. */
  lemma DeadIsOffLru(states: seq<State>, steps: seq<Step>, i: nat, d: Id)
    requires IsRun(states, steps) && i < |states| && d in states[i].dentry && states[i].dentry[d].count < 0
    ensures states[i].dentry[d].lru ==> states[i].dentry[d].shrink && states[i].dentry[d].list.Some?
  {
    InvAlways(states, steps, i);
    assert DentryOk(states[i], d);
  }

  // ---- everybody can go on ----

  /** In every run a thread in the middle of something has a step to take, whatever the others do; and so has the idle
      owner of a list that is not empty. */
  lemma EveryoneGoesOn(states: seq<State>, steps: seq<Step>, i: nat, t: Thread)
    requires IsRun(states, steps) && i < |states| && t in states[i].pc
    ensures !states[i].pc[t].Idle? ==>
      exists st :: HasThread(st) && st.t == t && Enabled(states[i], st) && Touched(states[i], st) == states[i].pc[t].d
    ensures states[i].pc[t].Idle? ==>
      forall d :: d in states[i].dentry && states[i].dentry[d].list == Some(t) ==>
        Enabled(states[i], OwnerTakes(t, d, Taken))
  {
    InvAlways(states, steps, i);
    var s := states[i];
    assert ThreadOk(s, t);
    match s.pc[t]
    case Idle =>
    case OwnerWindow(d) => Enables(s, OwnerRelocks(t, Taken), t);
    case OwnerFree(d) => Enables(s, OwnerFrees(t), t);
    case Dropped(d) => Enables(s, FastLock(t, Taken), t);
    case KillerWindow(d) => Enables(s, KillRelock(t, Taken), t);
    case Victim(d) => Enables(s, VictimLock(t, Taken), t);
    case Killing(d) => Enables(s, SecondSection(t), t);
    case KillerFree(d) => Enables(s, KillerFrees(t), t);
  }

  /** What an idle thread may start on a live dentry depends on its count and its lists alone. */
  lemma IdleStarts(s: State, t: Thread, d: Id)
    requires Inv(s) && IsIdle(s, t) && Live(s, d)
    ensures var x := s.dentry[d];
      && (Enabled(s, Prune(t, d)) <==> x.count == 0)
      && (Enabled(s, PickVictim(t, d)) <==> x.count == 0 && x.shrink)
      && (Enabled(s, Collect(t, d)) <==> !x.shrink && (x.count == 0 || x.lru))
      && (Enabled(s, PutKill(t, d)) <==> x.count == 1 && x.waiting == {})
      && (Enabled(s, KillWait(t, d)) <==> x.count == 1 && x.waiting == {})
      && (Enabled(s, FastDrop(t, d)) <==> x.count > |x.waiting|) && (Enabled(s, Put(d)) <==> x.count > |x.waiting|)
      && Enabled(s, Get(d)) && (x.lru && !x.shrink && x.count > 0 ==> Enabled(s, OffLru(d)))
  {
  }

  lemma Enables(s: State, st: Step, t: Thread)
    requires t in s.pc && HasThread(st) && st.t == t && Enabled(s, st) && !s.pc[t].Idle? && Touched(s, st) == s.pc[t].d
    ensures exists st' :: HasThread(st') && st'.t == t && Enabled(s, st') && Touched(s, st') == s.pc[t].d
  {
  }
}
