/** What d_alloc_parallel and __d_add come to: which dentry a call ends with, and that the calls never get stuck. */
module LookupAnswers {
  import opened ParallelLookup

  // ---- the answer of a call ----

  /** A call begins with a fresh dentry of the key asked for, and keeps it until it ends. */
  predicate KeepsOwn(s: State, st: Step, s': State, t: Thread)
    requires t in s.pc && t in s'.pc
  {
    var p, q := s.pc[t], s'.pc[t];
    && (p.Idle? && q != p ==>
          st.Alloc? && st.t == t && st.d !in s.dentry && q == ReadSeq(st.d)
          && st.d in s'.dentry && s'.dentry[st.d] == Dentry(st.k, t))
    && (HasOwn(p) && HasOwn(q) ==> q.own == p.own)
    && (HasOwn(p) ==> p.own in s.dentry && p.own in s'.dentry && s'.dentry[p.own].key == s.dentry[p.own].key)
  }

  /** r is hashed, and has the key of own. */
  predicate Found(s: State, r: Id, own: Id) { r in s.hashed && Matches(s, r, own) }

  /** How a call ends: with another dentry that is found, with what the thread has hashed, or with its own, given up. */
  predicate EndsRight(s: State, st: Step, s': State, t: Thread)
    requires t in s.pc && t in s'.pc
  {
    var p, q := s.pc[t], s'.pc[t];
    q.Done? && !p.Done? ==>
      && HasOwn(p)
      && if p.Walking? || p.Waiting? then q.result != p.own && Found(s, q.result, p.own) && Found(s', q.result, p.own)
         else if p.AddHashed? then q.result == p.result && Found(s', q.result, p.own)
         else p.AbortLocked? && q.result == p.own && p.own !in s'.inLookup && p.own !in s'.hashed
  }

  /** What __d_add hashes is the thread's own dentry, or the one moved onto it; either way under the key asked for. */
  ghost predicate AddsRight(s: State, st: Step, s': State, t: Thread)
    requires t in s.pc && t in s'.pc
  {
    var p, q := s.pc[t], s'.pc[t];
    && (q.AddHashed? && p != q ==>
          && p.AddUnhashed? && Found(s', q.result, p.own) && p.own !in s'.inLookup
          && if st.Splice? then q.result == st.x && p.own !in s'.hashed else q.result == p.own)
    && (q.Inserted? && p != q ==>
          p.Checked? && p.own in s'.inLookup && forall x :: Present(s, x) ==> !Matches(s, x, p.own))
  }

  /** When a call waits and for whom, and which way it goes at each fork. */
  predicate GoesRight(s: State, st: Step, s': State, t: Thread)
    requires t in s.pc && t in s'.pc
  {
    var p, q := s.pc[t], s'.pc[t];
    && (q.Waiting? && p != q ==> p.Checked? && q.other in s.inLookup && Matches(s, q.other, q.own))
    && (p.Waiting? && p != q ==>
          p.other !in s.inLookup && (st.Looks? && st.look.Awake? ==> (q.Done? <==> Found(s, p.other, p.own))))
    && (p.Locked? && p != q ==>
          && (q.Checked? || q.ReadSeq?) && p.own in s.dentry && s.dentry[p.own].key.dir in s.dirSeq
          && (q.Checked? <==> s.dirSeq[s.dentry[p.own].key.dir] == p.seen))
    && (p.Walking? && st.Looks? && st.t == t && st.look.WalkHit? ==> (q.Done? <==> st.look.got))
  }

  lemma LookGoesRight(h: ChainOf, s: State, t: Thread, look: Look)
    requires Inv(h, s) && LookEnabled(h, s, t, look)
    ensures GoesRight(s, Looks(t, look), ApplyLook(h, s, t, look), t)
  {
    hide NamesakeOk, OneOf;
    assert ThreadOk(h, s, t);
  }

  lemma LookEndsRight(h: ChainOf, s: State, t: Thread, look: Look)
    requires Inv(h, s) && LookEnabled(h, s, t, look)
    ensures EndsRight(s, Looks(t, look), ApplyLook(h, s, t, look), t)
  {
    hide NamesakeOk, OneOf;
    assert ThreadOk(h, s, t);
  }

  lemma LookAddsRight(h: ChainOf, s: State, t: Thread, look: Look)
    requires Inv(h, s) && LookEnabled(h, s, t, look)
    ensures AddsRight(s, Looks(t, look), ApplyLook(h, s, t, look), t)
  {
    hide OneOf;
    assert ThreadOk(h, s, t);
    if look.Insert? {
      forall x | Present(s, x) ensures !Matches(s, x, s.pc[t].own) { assert NamesakeOk(s, t, x); }
    }
  }

  lemma LookKeepsOwn(h: ChainOf, s: State, t: Thread, look: Look)
    requires Inv(h, s) && LookEnabled(h, s, t, look)
    ensures KeepsOwn(s, Looks(t, look), ApplyLook(h, s, t, look), t)
  {
    hide NamesakeOk, OneOf;
    assert ThreadOk(h, s, t);
  }

  lemma AddIsRight(h: ChainOf, s: State, t: Thread, add: Add)
    requires Inv(h, s) && AddEnabled(h, s, t, add)
    ensures var s' := ApplyAdd(h, s, t, add);
      && EndsRight(s, Adds(t, add), s', t) && AddsRight(s, Adds(t, add), s', t) && KeepsOwn(s, Adds(t, add), s', t)
      && GoesRight(s, Adds(t, add), s', t)
  {
    hide NamesakeOk, OneOf;
    assert ThreadOk(h, s, t);
  }

  /** What a step of another thread, or of none, does not touch. */
  lemma OtherFrame(h: ChainOf, s: State, st: Step, t: Thread)
    requires Enabled(h, s, st) && t in s.pc && (st.Drop? || st.t != t)
    ensures var s' := Apply(h, s, st);
      t in s'.pc && s'.pc[t] == s.pc[t] && (HasOwn(s.pc[t]) && s.pc[t].own in s.dentry ==>
        s.pc[t].own in s'.dentry && s'.dentry[s.pc[t].own].key == s.dentry[s.pc[t].own].key)
  {
    hide ApplyLook, ApplyAdd, LookEnabled, AddEnabled;
    match st
    case Looks(u, look) => LookFrame(h, s, u, look);
    case Adds(u, add) => AddFrame(h, s, u, add);
    case _ =>
  }

  /** The dentry of another thread keeps its key. */
  lemma OtherKeeps(h: ChainOf, s: State, st: Step, t: Thread)
    requires Inv(h, s) && Enabled(h, s, st) && t in s.pc && (st.Drop? || st.t != t)
    ensures var s' := Apply(h, s, st);
      t in s'.pc && s'.pc[t] == s.pc[t] && KeepsOwn(s, st, s', t)
  {
    hide NamesakeOk, OneOf, Apply, Enabled;
    assert ThreadOk(h, s, t);
    OtherFrame(h, s, st, t);
  }

  lemma StepIsRight(h: ChainOf, s: State, st: Step, t: Thread)
    requires Inv(h, s) && Enabled(h, s, st) && t in s.pc
    ensures var s' := Apply(h, s, st);
      && t in s'.pc && KeepsOwn(s, st, s', t) && EndsRight(s, st, s', t) && AddsRight(s, st, s', t)
      && GoesRight(s, st, s', t)
  {
    hide NamesakeOk, OneOf, ApplyLook, ApplyAdd, LookEnabled, AddEnabled, ApplySplice, SpliceEnabled;
    assert ThreadOk(h, s, t);
    if st.Drop? || st.t != t { OtherKeeps(h, s, st, t); } else {
      match st
      case Looks(_, look) =>
        InPc(h, s, t, look);
        LookEndsRight(h, s, t, look);
        LookAddsRight(h, s, t, look);
        LookKeepsOwn(h, s, t, look);
        LookGoesRight(h, s, t, look);
      case Adds(_, add) => AddFrame(h, s, t, add); AddIsRight(h, s, t, add);
      case Splice(_, x) => SpliceIsRight(h, s, t, x);
      case _ =>
    }
  }

  lemma InPc(h: ChainOf, s: State, t: Thread, look: Look)
    requires LookEnabled(h, s, t, look)
    ensures t in ApplyLook(h, s, t, look).pc
  {
    LookFrame(h, s, t, look);
  }

  lemma SpliceIsRight(h: ChainOf, s: State, t: Thread, x: Id)
    requires Inv(h, s) && SpliceEnabled(s, t, x)
    ensures var s', st := ApplySplice(s, t, x), Splice(t, x);
      && t in s'.pc && KeepsOwn(s, st, s', t) && EndsRight(s, st, s', t) && AddsRight(s, st, s', t)
      && GoesRight(s, st, s', t)
  {
    hide NamesakeOk, OneOf;
    assert ThreadOk(h, s, t);
  }

  /** In every run, at every step, for every thread. */
  lemma AnswersAreRight(h: ChainOf, states: seq<State>, steps: seq<Step>, i: nat, t: Thread)
    requires IsRun(h, states, steps) && i < |steps| && t in states[i].pc
    ensures t in states[i + 1].pc && KeepsOwn(states[i], steps[i], states[i + 1], t)
    ensures EndsRight(states[i], steps[i], states[i + 1], t) && AddsRight(states[i], steps[i], states[i + 1], t)
    ensures GoesRight(states[i], steps[i], states[i + 1], t)
  {
    hide Inv, Enabled, Apply, EndsRight, AddsRight, KeepsOwn, GoesRight;
    InvAlways(h, states, steps, i);
    StepIsRight(h, states[i], steps[i], t);
  }

  /** The thread is in a call for key k, with dentry d as its own. */
  predicate InCall(s: State, t: Thread, d: Id, k: Key) {
    t in s.pc && HasOwn(s.pc[t]) && s.pc[t].own == d && d in s.dentry && s.dentry[d].key == k
  }

  predicate Begins(s: State, st: Step, t: Thread) { st.Alloc? && st.t == t && t in s.pc && s.pc[t].Idle? }

  lemma AllocBegins(h: ChainOf, s: State, st: Step)
    requires Enabled(h, s, st) && st.Alloc?
    ensures Begins(s, st, st.t)
  {
  }

  ghost predicate OwnsThroughout(states: seq<State>, t: Thread, a: nat, b: nat)
    requires b < |states|
  {
    forall i :: a < i <= b ==> t in states[i].pc && HasOwn(states[i].pc[t])
  }

  /** From its allocation for key k on, for as long as the call lasts, the thread carries dentry d with that key. */
  lemma {:induction false} CarriesUntil(h: ChainOf, states: seq<State>, steps: seq<Step>, a: nat, b: nat, t: Thread)
    requires IsRun(h, states, steps) && a < b <= |steps| && steps[a].Alloc? && steps[a].t == t
    requires OwnsThroughout(states, t, a, b)
    ensures InCall(states[b], t, steps[a].d, steps[a].k)
    decreases b
  {
    hide EndsRight, AddsRight, GoesRight, Inv, Enabled, Apply;
    AllocBegins(h, states[a], steps[a]);
    if b > a + 1 { CarriesUntil(h, states, steps, a, b - 1, t); }
    AnswersAreRight(h, states, steps, b - 1, t);
  }

  /** A call for key k that has allocated d ends with a hashed dentry of that key: another's, or what the thread itself
      has hashed; or else with d, which it has taken off the chain without hashing it. */
  lemma CallAnswers(h: ChainOf, states: seq<State>, steps: seq<Step>, a: nat, b: nat, t: Thread)
    requires IsRun(h, states, steps) && a < b < |steps| && steps[a].Alloc? && steps[a].t == t
    requires OwnsThroughout(states, t, a, b)
    requires t in states[b + 1].pc && states[b + 1].pc[t].Done?
    ensures var s, r := states[b + 1], states[b + 1].pc[t].result;
      if r in s.hashed then r in s.dentry && s.dentry[r].key == steps[a].k
      else r == steps[a].d && r !in s.inLookup && states[b].pc[t].AbortLocked?
  {
    hide Inv, Enabled, Apply, AddsRight, GoesRight;
    CarriesUntil(h, states, steps, a, b, t);
    AnswersAreRight(h, states, steps, b, t);
  }
}
