/** How long a session revoked by another replica can still be answered Active:
    the documented bound, the runs that break it, and exactly when one can.
*/
module SessionStaleness {
  import opened Prelude
  import opened SessionProtocol
  import opened SessionSafety
  import opened SessionTheorems

  ghost predicate DeadSince(s: State, project: Project, sid: Sid, k: Instant) {
    var key := KeyOf(s.cfg, project, sid);
    k < |s.moments| && key in s.moments[k].store && !s.moments[k].store[key].Live?
  }

  /** No finished lookup read the row before k and filled the cache after k. */
  ghost predicate NoStraddle(s: State, project: Project, sid: Sid, k: Instant) {
    forall b <- s.answers | b.sid == sid && b.project == project && !b.cached && b.outcome.Some? && b.readAt < k ::
      b.end <= k
  }

  /** Without a drop the bound is ttl after the revocation, provided no lookup
      straddles it; with a straddling lookup it is ttl after that lookup's fill. */
  lemma ReplicaStalenessBound(cfg: Config, s: State, a: Answer, k: Instant)
    requires Reachable(cfg, s) && a in s.answers && DeadSince(s, a.project, a.sid, k)
    requires k <= a.begin && a.outcome == Some(Active)
    ensures a.begin < |s.moments| && a.cached && a.readAt < k && a.filledAt < |s.moments|
    ensures s.moments[a.begin].now < s.moments[a.filledAt].now + cfg.ttl
    ensures NoStraddle(s, a.project, a.sid, k) ==> s.moments[a.begin].now < s.moments[k].now + cfg.ttl
  {
    ReachableInv(cfg, s);
    EveryAnswerIsBacked(cfg, s, a);
    ActiveReadIsEarlier(s, a.project, a.sid, k, a.readAt);
    if NoStraddle(s, a.project, a.sid, k) {
      var b :| b in s.answers && Filler(b, a);
      assert s.moments[b.end].now <= s.moments[k].now;
    }
  }

  // ------------------------------------------------------------ continued runs

  /** Some steps lead from s to s'. */
  ghost predicate Continues(s: State, s': State) {
    exists steps: seq<Step> :: Legal(s, steps) && s' == Exec(s, steps)
  }

  lemma {:induction false} ExecAppend(s: State, steps: seq<Step>, step: Step)
    requires Legal(s, steps) && Enabled(Exec(s, steps), step)
    ensures Legal(s, steps + [step]) && Exec(s, steps + [step]) == Apply(Exec(s, steps), step)
    decreases |steps|
  {
    if steps == [] {
      assert Legal(Apply(s, step), (steps + [step])[1..]);
    } else {
      assert (steps + [step])[1..] == steps[1..] + [step];
      ExecAppend(Apply(s, steps[0]), steps[1..], step);
    }
  }

  lemma ContinuesHere(s: State)
    ensures Continues(s, s)
  {
    assert Legal(s, []) && Exec(s, []) == s;
  }

  lemma ContinuesStep(s: State, s1: State, step: Step)
    requires Continues(s, s1) && Enabled(s1, step)
    ensures Continues(s, Apply(s1, step))
  {
    var steps: seq<Step> :| Legal(s, steps) && s1 == Exec(s, steps);
    ExecAppend(s, steps, step);
  }

  lemma {:induction false} ExecConcat(s: State, a: seq<Step>, b: seq<Step>)
    requires Legal(s, a) && Legal(Exec(s, a), b)
    ensures Legal(s, a + b) && Exec(s, a + b) == Exec(Exec(s, a), b)
    decreases |a|
  {
    if a == [] {
      assert a + b == b;
    } else {
      assert (a + b)[1..] == a[1..] + b;
      ExecConcat(Apply(s, a[0]), a[1..], b);
    }
  }

  lemma ReachableContinues(cfg: Config, s: State, s': State)
    requires Reachable(cfg, s) && Continues(s, s')
    ensures Reachable(cfg, s')
  {
    var now: nat, store: Store, a: seq<Step> :| Legal(Init(cfg, now, store), a) && s == Exec(Init(cfg, now, store), a);
    var b: seq<Step> :| Legal(s, b) && s' == Exec(s, b);
    ExecConcat(Init(cfg, now, store), a, b);
    assert Legal(Init(cfg, now, store), a + b);
  }

  lemma ReachableStep(cfg: Config, s: State, step: Step)
    requires Reachable(cfg, s) && Enabled(s, step)
    ensures Reachable(cfg, Apply(s, step))
  {
    ContinuesHere(s);
    ContinuesStep(s, s, step);
    ReachableContinues(cfg, s, Apply(s, step));
  }

  lemma ContinuesOnward(s: State, s1: State, s2: State)
    requires Continues(s, s1) && Continues(s1, s2)
    ensures Continues(s, s2)
  {
    var a: seq<Step> :| Legal(s, a) && s1 == Exec(s, a);
    var b: seq<Step> :| Legal(s1, b) && s2 == Exec(s1, b);
    ExecConcat(s, a, b);
  }

  // ------------------------------------------------- what a lookup can be told

  /** The lookup that has read the row and will fill entry i as its next step. */
  function Pending(s: State, i: nat): Option<Thread>
    requires i < |s.heap|
  {
    var h := s.heap[i].holder;
    if h.Some? && h.value in s.threads && s.threads[h.value].Lookup?
       && s.threads[h.value].pc.Filling? && s.threads[h.value].pc.e == i
    then Some(s.threads[h.value]) else None
  }

  /** The mapped entry of sid is about to say Active in this project or, with no fill under
      way, does so now and past the given time. */
  ghost predicate HoldsActive(s: State, sid: Sid, project: Project, when: nat) {
    && sid in s.entries && s.entries[sid] < |s.heap| && |s.moments| > 0
    && var e := s.heap[s.entries[sid]];
       match Pending(s, s.entries[sid])
       case Some(l) => l.project == project && l.pc.st == Active
       case None => e.project == project && StateFromEntry(e) == Active && e.deadline > Last(s).now && e.deadline > when
  }

  /** A lookup of sid begun after s, at that time or later, is answered Active. */
  ghost predicate NewActive(s: State, s': State, a: Answer, sid: Sid, project: Project, when: nat) {
    && a in s'.answers && a.sid == sid && a.project == project && a.outcome == Some(Active)
    && s.moments <= s'.moments && |s.moments| <= a.begin < |s'.moments| && s'.moments[a.begin].now >= when
  }

  /** Some continuation of the run does so. */
  ghost predicate CanAnswerActive(s: State, sid: Sid, project: Project, when: nat) {
    exists s': State, a: Answer :: Continues(s, s') && NewActive(s, s', a, sid, project, when)
  }

  lemma CanAnswerOnward(s: State, s1: State, sid: Sid, project: Project, when: nat)
    requires Continues(s, s1) && s.moments <= s1.moments && CanAnswerActive(s1, sid, project, when)
    ensures CanAnswerActive(s, sid, project, when)
  {
    var s': State, a: Answer :| Continues(s1, s') && NewActive(s1, s', a, sid, project, when);
    ContinuesOnward(s, s1, s');
    assert NewActive(s, s', a, sid, project, when);
  }

  // ------------------------------------------------- an entry that is answered

  /** Waiting d and then beginning a lookup that finds an entry in the map. */
  lemma WarmStart(s: State, t: Tid, d: nat, sid: Sid, project: Project) returns (s': State)
    requires Inv(s) && t !in s.threads && sid in s.entries && s.cfg.ttl > 0
    ensures Continues(s, s') && s'.heap == s.heap && s'.answers == s.answers && s'.cfg == s.cfg
    ensures |s'.moments| == |s.moments| + 3 && s.moments == s'.moments[..|s.moments|]
    ensures t in s'.threads && s'.threads[t] == Lookup(sid, project, |s.moments| + 1, FastLock(s.entries[sid]))
    ensures s'.moments[|s.moments| + 1].now == Last(s).now + d
  {
    ContinuesHere(s);
    ContinuesStep(s, s, Tick(d));
    var s1 := Apply(s, Tick(d));
    ContinuesStep(s, s1, BeginLookup(t, sid, project));
    var s2 := Apply(s1, BeginLookup(t, sid, project));
    ContinuesStep(s, s2, Load(t));
    s' := Apply(s2, Load(t));
  }

  /** A lookup that finds a free entry fresh at its start answers from it. */
  lemma WarmLookup(s: State, t: Tid, d: nat, sid: Sid, project: Project) returns (s': State)
    requires Inv(s) && t !in s.threads && sid in s.entries && s.cfg.ttl > 0
    requires s.entries[sid] < |s.heap|
    requires var e := s.heap[s.entries[sid]]; e.holder.None? && Fresh(e, project, Last(s).now + d)
    ensures Continues(s, s') && |s'.answers| == |s.answers| + 1 && s.moments <= s'.moments
    ensures var a := s'.answers[|s.answers|];
            && a.sid == sid && a.project == project && a.begin == |s.moments| + 1 < |s'.moments|
            && a.outcome == Some(StateFromEntry(s.heap[s.entries[sid]]))
            && s'.moments[a.begin].now == Last(s).now + d
  {
    var s3 := WarmStart(s, t, d, sid, project);
    ContinuesStep(s, s3, Lock(t));
    var s4 := Apply(s3, Lock(t));
    ContinuesStep(s, s4, Check(t));
    s' := Apply(s4, Check(t));
  }

  lemma {:induction false} UnusedTid(used: set<Tid>) returns (t: Tid)
    ensures t !in used && forall u <- used :: u < t
    decreases |used|
  {
    if used == {} {
      return 0;
    }
    var u :| u in used;
    var v := UnusedTid(used - {u});
    assert forall w <- used :: w == u || w in used - {u};
    return if u < v then v else u + 1;
  }

  function Later(now: nat, when: nat): nat { if when <= now then 0 else when - now }

  /** A free entry that says Active past the given time is answered from. */
  lemma FreeEntryAnswers(s: State, sid: Sid, project: Project, when: nat)
    requires Inv(s) && HoldsActive(s, sid, project, when) && s.heap[s.entries[sid]].holder.None?
    ensures CanAnswerActive(s, sid, project, when)
  {
    assert EntryOk(s, s.heap[s.entries[sid]]);
    var t := UnusedTid(s.threads.Keys);
    var s' := WarmLookup(s, t, Later(Last(s).now, when), sid, project);
    assert NewActive(s, s', s'.answers[|s.answers|], sid, project, when);
  }

  /** Waiting d and then filling the entry leaves it free and saying what was read. */
  lemma LateFill(s: State, t: Tid, d: nat) returns (s': State)
    requires Inv(s) && t in s.threads && s.threads[t].Lookup? && s.threads[t].pc.Filling?
    ensures Continues(s, s') && s.moments <= s'.moments && |s'.moments| > 0 && Last(s').now == Last(s).now + d
    ensures s'.entries == s.entries && |s'.heap| == |s.heap| && s.threads[t].pc.e < |s.heap| && s.cfg.ttl > 0
    ensures var e := s'.heap[s.threads[t].pc.e];
            && e.holder.None? && e.project == s.threads[t].project && StateFromEntry(e) == s.threads[t].pc.st
            && e.deadline == Last(s).now + d + s.cfg.ttl
  {
    assert LookupOk(s, t, s.threads[t]);
    ContinuesHere(s);
    ContinuesStep(s, s, Tick(d));
    var s1 := Apply(s, Tick(d));
    ContinuesStep(s, s1, Fill(t));
    s' := Apply(s1, Fill(t));
  }

  /** A fill under way can wait until the given time, and is then answered from. */
  lemma PendingFillAnswers(cfg: Config, s: State, sid: Sid, project: Project, when: nat)
    requires Reachable(cfg, s) && HoldsActive(s, sid, project, when) && Pending(s, s.entries[sid]).Some?
    ensures CanAnswerActive(s, sid, project, when)
  {
    ReachableInv(cfg, s);
    var s' := LateFill(s, s.heap[s.entries[sid]].holder.value, Later(Last(s).now, when));
    ReachableContinues(cfg, s, s');
    ReachableInv(cfg, s');
    FreeEntryAnswers(s', sid, project, when);
    CanAnswerOnward(s, s', sid, project, when);
  }

  /** A held lock is held by a lookup that is at the entry. */
  ghost predicate Locks(s: State) {
    forall i | 0 <= i < |s.heap| && s.heap[i].holder.Some? :: HeldBy(s, i, s.heap[i].holder.value)
  }

  predicate HeldBy(s: State, i: nat, t: Tid) {
    t in s.threads && s.threads[t].Lookup? && s.threads[t].pc.Holds() && s.threads[t].pc.e == i
  }

  lemma StepLocks(s: State, step: Step, i: nat)
    requires Locks(s) && Enabled(s, step) && i < |Apply(s, step).heap| && Apply(s, step).heap[i].holder.Some?
    ensures HeldBy(Apply(s, step), i, Apply(s, step).heap[i].holder.value)
  {
    assert i < |s.heap| && s.heap[i].holder.Some? ==> HeldBy(s, i, s.heap[i].holder.value);
  }

  lemma {:induction false} RunLocks(s: State, steps: seq<Step>)
    requires Locks(s) && Legal(s, steps)
    ensures Locks(Exec(s, steps))
    decreases |steps|
  {
    if steps != [] {
      var s' := Apply(s, steps[0]);
      forall i | 0 <= i < |s'.heap| && s'.heap[i].holder.Some? ensures HeldBy(s', i, s'.heap[i].holder.value) {
        StepLocks(s, steps[0], i);
      }
      RunLocks(s', steps[1..]);
    }
  }

  lemma ReachableLocks(cfg: Config, s: State)
    requires Reachable(cfg, s)
    ensures Locks(s)
  {
    var now: nat, store: Store, steps: seq<Step> :| Legal(Init(cfg, now, store), steps)
      && s == Exec(Init(cfg, now, store), steps);
    RunLocks(Init(cfg, now, store), steps);
  }

  /** Nothing but the lock of entry i has changed about what a lookup finds there. */
  ghost predicate Freed(s: State, s': State, i: nat) {
    && Continues(s, s') && 0 < |s.moments| <= |s'.moments| && s.moments <= s'.moments && Last(s').now == Last(s).now
    && s'.entries == s.entries && i < |s.heap| == |s'.heap| && s'.heap[i] == s.heap[i].(holder := None)
  }

  lemma ReadFails(s: State, t: Tid, s1: State, i: nat)
    requires Inv(s) && Continues(s, s1) && Enabled(s1, Read(t, true)) && s1.threads[t].pc.e == i
    requires s.moments <= s1.moments && Last(s1).now == Last(s).now && s1.entries == s.entries
    requires i < |s.heap| == |s1.heap| && s1.heap[i] == s.heap[i]
    ensures Freed(s, Apply(s1, Read(t, true)), i)
  {
    ContinuesStep(s, s1, Read(t, true));
  }

  /** A lookup that holds the lock and has not read can let go of it without a change. */
  lemma LockIsFreed(cfg: Config, s: State, i: nat) returns (s': State)
    requires Reachable(cfg, s) && Inv(s) && i < |s.heap| && s.heap[i].holder.Some? && Pending(s, i).None?
    ensures Freed(s, s', i)
  {
    ReachableLocks(cfg, s);
    var t := s.heap[i].holder.value;
    assert HeldBy(s, i, t) && s.threads[t].begin < |s.moments|;
    ContinuesHere(s);
    var pc := s.threads[t].pc;
    if pc.FastCheck? {
      ContinuesStep(s, s, Check(t));
      s' := Apply(s, Check(t));
    } else if pc.Reading? {
      ReadFails(s, t, s, i);
      s' := Apply(s, Read(t, true));
    } else {
      ContinuesStep(s, s, Recheck(t));
      s' := Apply(s, Recheck(t));
      if !Fresh(s.heap[i], s.threads[t].project, Last(s).now) {
        ReadFails(s, t, s', i);
        s' := Apply(s', Read(t, true));
      }
    }
  }

  /** Whatever is going on, an entry that says or is about to say Active can be answered from. */
  lemma HeldActiveAnswers(cfg: Config, s: State, sid: Sid, project: Project, when: nat)
    requires Reachable(cfg, s) && HoldsActive(s, sid, project, when)
    ensures CanAnswerActive(s, sid, project, when)
  {
    ReachableInv(cfg, s);
    var i := s.entries[sid];
    if Pending(s, i).Some? {
      PendingFillAnswers(cfg, s, sid, project, when);
    } else if s.heap[i].holder.None? {
      FreeEntryAnswers(s, sid, project, when);
    } else {
      var s1 := LockIsFreed(cfg, s, i);
      ReachableContinues(cfg, s, s1);
      ReachableInv(cfg, s1);
      FreeEntryAnswers(s1, sid, project, when);
      CanAnswerOnward(s, s1, sid, project, when);
    }
  }

  // ------------------------------------------------------- and nothing else is

  predicate SamePayload(e: Entry, e': Entry) {
    && e'.project == e.project && e'.rec == e.rec && e'.missing == e.missing && e'.deadline == e.deadline
    && e'.readAt == e.readAt
  }

  /** Entry i is as it was at s0, and so is the lookup that was about to fill it. */
  ghost predicate Unfilled(s0: State, s: State, i: nat)
    requires i < |s.heap|
  {
    && i < |s0.heap| && SamePayload(s0.heap[i], s.heap[i])
    && (Pending(s0, i).Some? ==> s.heap[i].holder == s0.heap[i].holder && Pending(s, i) == Pending(s0, i))
  }

  /** Entry i says what the lookup about to fill it at s0 had read. */
  ghost predicate FilledAsPending(s0: State, s: State, i: nat)
    requires i < |s.heap|
  {
    && i < |s0.heap| && Pending(s0, i).Some?
    && s.heap[i].project == Pending(s0, i).value.project && StateFromEntry(s.heap[i]) == Pending(s0, i).value.pc.st
  }

  ghost predicate EntrySince(s0: State, s: State, i: nat)
    requires i < |s.heap|
  {
    s.heap[i].deadline == 0 || |s0.moments| <= s.heap[i].readAt || Unfilled(s0, s, i) || FilledAsPending(s0, s, i)
  }

  /** An entry that was mapped for x at s0, or was made since. */
  predicate InMap(s0: State, x: Sid, i: nat) { |s0.heap| <= i || (x in s0.entries && i == s0.entries[x]) }

  ghost predicate ThreadSince(s0: State, t: Tid, l: Thread) {
    l.Lookup? ==>
      && (|s0.moments| <= l.begin && l.pc.HasEntry() ==> InMap(s0, l.sid, l.pc.e))
      && (l.pc.Filling? ==> |s0.moments| <= l.pc.readAt || (t in s0.threads && s0.threads[t] == l))
  }

  /** The answer is what the entry mapped at s0 said or was about to say. */
  ghost predicate FromMapped(s0: State, s: State, a: Answer) {
    && a.sid in s0.entries && s0.entries[a.sid] < |s0.heap| && a.begin < |s.moments|
    && var e := s0.heap[s0.entries[a.sid]];
       match Pending(s0, s0.entries[a.sid])
       case Some(l) => l.project == a.project && a.outcome == Some(l.pc.st)
       case None =>
         e.project == a.project && a.outcome == Some(StateFromEntry(e)) && e.deadline > s.moments[a.begin].now
  }

  ghost predicate AnswerSince(s0: State, s: State, a: Answer) {
    |s0.moments| <= a.begin && a.cached && a.outcome.Some? ==> |s0.moments| <= a.readAt || FromMapped(s0, s, a)
  }

  ghost predicate Since(s0: State, s: State) {
    && s0.moments <= s.moments && |s0.heap| <= |s.heap|
    && (forall i | 0 <= i < |s.heap| :: EntrySince(s0, s, i))
    && (forall x <- s.entries :: InMap(s0, x, s.entries[x]))
    && (forall t <- s.threads :: ThreadSince(s0, t, s.threads[t]))
    && (forall k | 0 <= k < |s.answers| :: AnswerSince(s0, s, s.answers[k]))
  }

  lemma FillSince(s0: State, s: State, t: Tid)
    requires Since(s0, s) && Inv(s0) && Enabled(s, Fill(t))
    ensures EntrySince(s0, Apply(s, Fill(t)), s.threads[t].pc.e)
  {
  }

  /** A step that does not fill entry i leaves the lookup about to fill it where it is. */
  lemma UnfilledStays(s0: State, s: State, step: Step, i: nat)
    requires Inv(s) && Enabled(s, step) && i < |s.heap| && Unfilled(s0, s, i)
    requires !(step.Fill? && i == s.threads[step.t].pc.e)
    ensures Unfilled(s0, Apply(s, step), i)
  {
    StepEntryFrame(s, step, i);
    if Pending(s, i).Some? {
      PendingStays(s, step, i);
    }
  }

  lemma PendingStays(s: State, step: Step, i: nat)
    requires Inv(s) && Enabled(s, step) && i < |s.heap| && Pending(s, i).Some?
    requires !(step.Fill? && i == s.threads[step.t].pc.e)
    ensures Apply(s, step).heap[i].holder == s.heap[i].holder && Pending(Apply(s, step), i) == Pending(s, i)
  {
    var t := s.heap[i].holder.value;
    if (step.Check? || step.Recheck? || step.Read? || step.Fill? || step.Lock?) && step.t != t {
      assert LookupOk(s, step.t, s.threads[step.t]);
    }
  }

  lemma StepEntrySince(s0: State, s: State, step: Step, i: nat)
    requires Since(s0, s) && Inv(s0) && Inv(s) && Enabled(s, step) && i < |Apply(s, step).heap|
    ensures EntrySince(s0, Apply(s, step), i)
  {
    if i < |s.heap| {
      assert EntrySince(s0, s, i);
      if step.Fill? && i == s.threads[step.t].pc.e {
        FillSince(s0, s, step.t);
      } else {
        StepEntryFrame(s, step, i);
        if Unfilled(s0, s, i) {
          UnfilledStays(s0, s, step, i);
        }
      }
    }
  }

  lemma StepMapSince(s0: State, s: State, step: Step, x: Sid)
    requires Since(s0, s) && Enabled(s, step) && x in Apply(s, step).entries
    ensures InMap(s0, x, Apply(s, step).entries[x])
  {
    assert x in s.entries ==> InMap(s0, x, s.entries[x]);
  }

  lemma StepThreadSince(s0: State, s: State, step: Step, t: Tid)
    requires Since(s0, s) && Enabled(s, step) && t in Apply(s, step).threads
    ensures ThreadSince(s0, t, Apply(s, step).threads[t])
  {
    var l' := Apply(s, step).threads[t];
    if l'.Lookup? {
      if l'.pc.HasEntry() {
        StepPlace(s, step, t);
        if l'.sid in Apply(s, step).entries {
          StepMapSince(s0, s, step, l'.sid);
        }
      }
      assert t in s.threads ==> ThreadSince(s0, t, s.threads[t]);
    }
  }

  lemma HitSince(s0: State, s: State, step: Step)
    requires Since(s0, s) && Inv(s) && Enabled(s, step) && (step.Check? || step.Recheck?)
    requires |Apply(s, step).answers| == |s.answers| + 1
    ensures AnswerSince(s0, Apply(s, step), Apply(s, step).answers[|s.answers|])
  {
    var l := s.threads[step.t];
    assert ThreadSince(s0, step.t, l) && LookupOk(s, step.t, l) && EntrySince(s0, s, l.pc.e);
    assert s.moments[l.begin].now <= Last(s).now;
    assert Apply(s, step).moments[l.begin] == s.moments[l.begin];
  }

  lemma StepAnswerSince(s0: State, s: State, step: Step, k: nat)
    requires Since(s0, s) && Inv(s) && Enabled(s, step) && k < |Apply(s, step).answers|
    ensures AnswerSince(s0, Apply(s, step), Apply(s, step).answers[k])
  {
    var s' := Apply(s, step);
    StepExtends(s, step);
    if k < |s.answers| {
      assert AnswerSince(s0, s, s.answers[k]) && s'.answers[k] == s.answers[k] && Backed(s, s.answers[k]);
    } else if step.Check? || step.Recheck? {
      HitSince(s0, s, step);
    }
  }

  lemma StepSince(s0: State, s: State, step: Step)
    requires Since(s0, s) && Inv(s0) && Inv(s) && Enabled(s, step)
    ensures Since(s0, Apply(s, step))
  {
    var s' := Apply(s, step);
    StepExtends(s, step);
    forall i | 0 <= i < |s'.heap| ensures EntrySince(s0, s', i) {
      StepEntrySince(s0, s, step, i);
    }
    forall x <- s'.entries ensures InMap(s0, x, s'.entries[x]) {
      StepMapSince(s0, s, step, x);
    }
    forall t <- s'.threads ensures ThreadSince(s0, t, s'.threads[t]) {
      StepThreadSince(s0, s, step, t);
    }
    forall k | 0 <= k < |s'.answers| ensures AnswerSince(s0, s', s'.answers[k]) {
      StepAnswerSince(s0, s, step, k);
    }
  }

  lemma {:induction false} RunSince(s0: State, s: State, steps: seq<Step>)
    requires Since(s0, s) && Inv(s0) && Inv(s) && Legal(s, steps)
    ensures Since(s0, Exec(s, steps))
    decreases |steps|
  {
    if steps != [] {
      StepSince(s0, s, steps[0]);
      StepKeepsInv(s, steps[0]);
      RunSince(s0, Apply(s, steps[0]), steps[1..]);
    }
  }

  lemma SinceItself(s: State)
    requires Inv(s)
    ensures Since(s, s)
  {
    forall i | 0 <= i < |s.heap| ensures EntrySince(s, s, i) {
      assert Unfilled(s, s, i);
    }
    forall t <- s.threads ensures ThreadSince(s, t, s.threads[t]) {
      assert s.threads[t].begin < |s.moments|;
    }
    forall k | 0 <= k < |s.answers| ensures AnswerSince(s, s, s.answers[k]) {
      assert Backed(s, s.answers[k]);
    }
  }

  lemma ActiveAnswerIsHeld(cfg: Config, s: State, s': State, a: Answer, sid: Sid, project: Project, k: Instant,
      when: nat)
    requires Reachable(cfg, s) && DeadSince(s, project, sid, k)
    requires Continues(s, s') && NewActive(s, s', a, sid, project, when)
    ensures HoldsActive(s, sid, project, when)
  {
    ReachableInv(cfg, s);
    ReachableContinues(cfg, s, s');
    ReachableInv(cfg, s');
    var steps: seq<Step> :| Legal(s, steps) && s' == Exec(s, steps);
    SinceItself(s);
    RunSince(s, s, steps);
    assert s'.moments[k] == s.moments[k];
    ReplicaStalenessBound(cfg, s', a, k);
    var j :| 0 <= j < |s'.answers| && s'.answers[j] == a;
    assert AnswerSince(s, s', s'.answers[j]);
    assert s'.moments[|s.moments| - 1].now <= s'.moments[a.begin].now;
  }

  /** In every reachable state, with the row revoked since moment k: some continuation answers
      Active to a lookup begun from now on, at the given time or later, exactly when the
      mapped entry is about to say Active or says so past that time. */
  lemma ActiveAnswerIff(cfg: Config, s: State, sid: Sid, project: Project, k: Instant, when: nat)
    requires Reachable(cfg, s) && DeadSince(s, project, sid, k)
    ensures CanAnswerActive(s, sid, project, when) <==> HoldsActive(s, sid, project, when)
  {
    if HoldsActive(s, sid, project, when) {
      HeldActiveAnswers(cfg, s, sid, project, when);
    }
    if s': State, a: Answer :| Continues(s, s') && NewActive(s, s', a, sid, project, when) {
      ActiveAnswerIsHeld(cfg, s, s', a, sid, project, k, when);
    }
  }

  /** The documented bound for other replicas, ttl after the revocation, can be exceeded from
      here on exactly when the entry is being filled from an Active read or outlives it. */
  lemma LateAnswerIff(cfg: Config, s: State, sid: Sid, project: Project, k: Instant)
    requires Reachable(cfg, s) && DeadSince(s, project, sid, k) && cfg.ttl > 0
    ensures var bound := s.moments[k].now + cfg.ttl;
            CanAnswerActive(s, sid, project, bound) <==> HoldsActive(s, sid, project, bound)
  {
    ActiveAnswerIff(cfg, s, sid, project, k, s.moments[k].now + cfg.ttl);
  }

  /** A successful revoke in this process is seen by every lookup begun from here on exactly
      when the mapped entry neither says nor is about to say Active. */
  lemma RevokeIsSeenIff(cfg: Config, s: State, r: Revocation, sid: Sid, project: Project)
    requires Reachable(cfg, s) && RevokedRow(s, r, project, sid)
    ensures (forall s': State, a: Answer | Continues(s, s') && a in s'.answers && |s.moments| <= a.begin
                                           && a.sid == sid && a.project == project :: a.outcome != Some(Active))
            <==> !HoldsActive(s, sid, project, 0)
  {
    ReachableInv(cfg, s);
    var j :| 0 <= j < |s.revokes| && s.revokes[j] == r;
    assert RevocationOk(s, s.revokes[j]);
    ActiveAnswerIff(cfg, s, sid, project, r.at, 0);
    forall s': State, a: Answer | Continues(s, s') && a in s'.answers && |s.moments| <= a.begin
                                  && a.sid == sid && a.project == project && a.outcome == Some(Active)
      ensures NewActive(s, s', a, sid, project, 0)
    {
      ContinuesExtends(cfg, s, s', a);
    }
  }

  lemma ContinuesExtends(cfg: Config, s: State, s': State, a: Answer)
    requires Reachable(cfg, s) && Continues(s, s') && a in s'.answers
    ensures s.moments <= s'.moments && a.begin < |s'.moments|
  {
    ReachableInv(cfg, s);
    ReachableContinues(cfg, s, s');
    ReachableInv(cfg, s');
    var steps: seq<Step> :| Legal(s, steps) && s' == Exec(s, steps);
    SinceItself(s);
    RunSince(s, s, steps);
    var j :| 0 <= j < |s'.answers| && s'.answers[j] == a;
    assert Backed(s', s'.answers[j]);
  }

  // ------------------------------------------------------- runs that break both

  /** A lookup that found the map empty and the row live, beside whatever else is going on. */
  ghost predicate Missed(cfg: Config, s: State, sid: Sid, project: Project) {
    && Reachable(cfg, s) && s.cfg == cfg && cfg.ttl > 0 && s.entries == map[] && s.heap == []
    && LookupAt(s, 0) && s.threads[0].sid == sid && s.threads[0].project == project && s.threads[0].pc.SlowLoad?
    && Last(s) == Moment(0, map[KeyOf(cfg, project, sid) := Live])
  }

  lemma MissedMap(cfg: Config, sid: Sid, project: Project) returns (s: State)
    requires cfg.ttl > 0
    ensures Missed(cfg, s, sid, project) && |s.moments| == 3 && s.threads.Keys == {0}
  {
    var s0 := Init(cfg, 0, map[KeyOf(cfg, project, sid) := Live]);
    assert Legal(s0, []) && Exec(s0, []) == s0;
    ReachableStep(cfg, s0, BeginLookup(0, sid, project));
    var s1 := Apply(s0, BeginLookup(0, sid, project));
    ReachableStep(cfg, s1, Load(0));
    s := Apply(s1, Load(0));
  }

  /** The same lookup holding the lock of the new, empty entry. */
  lemma LockedEmpty(cfg: Config, s: State, sid: Sid, project: Project) returns (s': State)
    requires Missed(cfg, s, sid, project)
    ensures Reachable(cfg, s') && s'.cfg == cfg && |s'.moments| == |s.moments| + 2 && Last(s') == Last(s)
    ensures s'.entries == map[sid := 0] && |s'.heap| == 1
    ensures s'.heap[0] == NewEntry(sid, |s.moments|).(holder := Some(0))
    ensures s'.threads == s.threads[0 := s.threads[0].(pc := SlowCheck(0))]
  {
    ReachableStep(cfg, s, LoadOrStore(0));
    var s1 := Apply(s, LoadOrStore(0));
    ReachableStep(cfg, s1, Lock(0));
    s' := Apply(s1, Lock(0));
  }

  /** The same lookup once it has read the live row and not yet filled the entry. */
  lemma ReadPending(cfg: Config, s: State, sid: Sid, project: Project) returns (s': State)
    requires Missed(cfg, s, sid, project)
    ensures Reachable(cfg, s') && s'.cfg == cfg && |s'.moments| == |s.moments| + 4 && Last(s') == Last(s)
    ensures s'.threads == s.threads[0 := s.threads[0].(pc := Filling(0, Active, |s.moments| + 3))]
    ensures s'.entries == map[sid := 0] && |s'.heap| == 1 && s'.heap[0].holder == Some(0)
  {
    var s1 := LockedEmpty(cfg, s, sid, project);
    ReachableStep(cfg, s1, Recheck(0));
    var s2 := Apply(s1, Recheck(0));
    ReachableStep(cfg, s2, Read(0, false));
    s' := Apply(s2, Read(0, false));
  }

  /** For every positive ttl some run answers Active ttl or more after another replica
      revoked the row: the row is revoked while a lookup has read it and not filled. */
  lemma ReplicaBoundCanFail(cfg: Config, sid: Sid, project: Project)
    requires cfg.ttl > 0
    ensures exists s: State, k: Instant ::
              && Reachable(cfg, s) && DeadSince(s, project, sid, k)
              && CanAnswerActive(s, sid, project, s.moments[k].now + cfg.ttl)
  {
    var s := MissedMap(cfg, sid, project);
    var s1 := ReadPending(cfg, s, sid, project);
    var dead := map[KeyOf(cfg, project, sid) := Dead];
    assert Enabled(s1, OtherWriter(dead));
    ReachableStep(cfg, s1, OtherWriter(dead));
    var s2, k := Apply(s1, OtherWriter(dead)), |s1.moments|;
    assert DeadSince(s2, project, sid, k);
    LateAnswerIff(cfg, s2, sid, project, k);
  }

  /** A revoke of the session drops nothing from the empty map and has yet to write. */
  lemma DroppedNothing(cfg: Config, sid: Sid, project: Project) returns (s: State)
    requires cfg.ttl > 0
    ensures Missed(cfg, s, sid, project) && 1 in s.threads
    ensures s.threads[1] == Revoker({}, Some(KeyOf(cfg, project, sid)), 3)
  {
    var s0 := MissedMap(cfg, sid, project);
    ReachableStep(cfg, s0, BeginRevoke(1, project, sid));
    var s1 := Apply(s0, BeginRevoke(1, project, sid));
    ReachableStep(cfg, s1, Drop(1, sid));
    s := Apply(s1, Drop(1, sid));
  }

  /** For every positive ttl some run answers Active to a lookup begun after a successful revoke
      in the same process: the lookup misses the map, the revoke drops nothing, the lookup
      reads the row, and the revoke writes it before the lookup fills. */
  lemma RevokeCanGoUnseen(cfg: Config, sid: Sid, project: Project)
    requires cfg.ttl > 0
    ensures exists s: State, r: Revocation ::
              Reachable(cfg, s) && RevokedRow(s, r, project, sid) && CanAnswerActive(s, sid, project, 0)
  {
    var s := DroppedNothing(cfg, sid, project);
    var s1 := ReadPending(cfg, s, sid, project);
    var step := Write(1, {KeyOf(cfg, project, sid)}, true);
    ReachableStep(cfg, s1, step);
    var s2, r := Apply(s1, step), Revocation({KeyOf(cfg, project, sid)}, 3, |s1.moments|);
    assert s2.revokes[|s1.revokes|] == r;
    assert RevokedRow(s2, r, project, sid);
    ActiveAnswerIff(cfg, s2, sid, project, r.at, 0);
  }
}
