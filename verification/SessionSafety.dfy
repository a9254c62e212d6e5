/** Whole-run safety of the session cache protocol: every answer is backed by a
    store read, and no answer rests on a read older than an invalidation that
    was over when its lookup began.
*/
module SessionSafety {
  import opened Prelude
  import opened SessionProtocol

  // -------------------------------------------------------------- invariant

  /** The clock never goes back and rows never move back. */
  ghost predicate Clock(s: State) {
    && |s.moments| > 0
    && (forall i, j | 0 <= i <= j < |s.moments| :: s.moments[i].now <= s.moments[j].now)
    && (forall i, j | 0 <= i <= j < |s.moments| :: Forward(s.moments[i].store, s.moments[j].store))
  }

  ghost predicate LookupOk(s: State, t: Tid, l: Thread)
    requires l.Lookup?
  {
    && (l.pc.Strict? <==> s.cfg.ttl <= 0)
    && (l.pc.HasEntry() ==> l.pc.e < |s.heap| && s.heap[l.pc.e].sid == l.sid)
    && (l.pc.Holds() ==> s.heap[l.pc.e].holder == Some(t))
    && (l.pc.Filling? ==>
          && l.begin < l.pc.readAt < |s.moments|
          && s.heap[l.pc.e].born < l.pc.readAt
          && l.pc.st == ReadStore(s.cfg, s.moments[l.pc.readAt].store, l.project, l.sid))
  }

  ghost predicate RevokerOk(s: State, r: Thread)
    requires r.Revoker?
  {
    forall x: Sid | x !in r.todo && (r.single.Some? ==> x == r.single.value.sid) :: Dropped(s, x, r.begin, |s.moments|)
  }

  ghost predicate Threads(s: State) {
    forall t <- s.threads ::
      && s.threads[t].begin < |s.moments|
      && (s.threads[t].Lookup? ==> LookupOk(s, t, s.threads[t]))
      && (s.threads[t].Revoker? ==> RevokerOk(s, s.threads[t]))
  }

  /** The lookup that filled e, as it answered. */
  function FillerAnswer(e: Entry): Answer {
    Answer(e.sid, e.project, e.fillerBegin, e.filledAt, Some(StateFromEntry(e)), false, e.readAt, e.filledAt)
  }

  ghost predicate EntryOk(s: State, e: Entry) {
    && e.born < |s.moments|
    && (e.deadline > 0 ==>
          && s.cfg.ttl > 0
          && e.fillerBegin < e.readAt <= e.filledAt < |s.moments|
          && e.born < e.readAt
          && e.deadline == s.moments[e.filledAt].now + s.cfg.ttl
          && StateFromEntry(e) == ReadStore(s.cfg, s.moments[e.readAt].store, e.project, e.sid)
          && FillerAnswer(e) in s.answers)
  }

  ghost predicate Heap(s: State) {
    && (forall x <- s.entries :: s.entries[x] < |s.heap| && s.heap[s.entries[x]].sid == x)
    && (forall i | 0 <= i < |s.heap| :: EntryOk(s, s.heap[i]))
  }

  /** Nothing a fenced lookup can reach was born before the fence. */
  ghost predicate FenceOk(s: State, f: Fence) {
    && f.at < |s.moments|
    && (forall x <- s.entries | f.Covers(x) && s.entries[x] < |s.heap| :: f.at < s.heap[s.entries[x]].born)
    && (forall t <- s.threads | Behind(s.threads[t], f) && s.threads[t].pc.e < |s.heap| ::
          f.at < s.heap[s.threads[t].pc.e].born)
  }

  predicate Behind(l: Thread, f: Fence) {
    l.Lookup? && l.pc.HasEntry() && f.Covers(l.sid) && f.at < l.begin
  }

  /** The claim about one answer: which store read it rests on, and how old that read may be. */
  ghost predicate Backed(s: State, a: Answer) {
    && a.begin < a.end < |s.moments|
    && (a.outcome.Some? ==>
          && a.readAt < |s.moments|
          && a.outcome.value == ReadStore(s.cfg, s.moments[a.readAt].store, a.project, a.sid)
          && if a.cached
             then && s.cfg.ttl > 0
                  && a.readAt <= a.filledAt < a.end
                  && s.moments[a.begin].now < s.moments[a.filledAt].now + s.cfg.ttl
                  && FilledBy(s, a)
             else a.begin < a.readAt <= a.end)
  }

  /** A finished lookup of the same sid and project read at a.readAt and filled at a.filledAt. */
  ghost predicate FilledBy(s: State, a: Answer) {
    exists k :: 0 <= k < |s.answers| && Filler(s.answers[k], a)
  }

  predicate Filler(b: Answer, a: Answer) {
    && b.sid == a.sid && b.project == a.project && !b.cached && b.outcome == a.outcome
    && b.begin < b.readAt == a.readAt <= b.end == a.filledAt
  }

  ghost predicate Fenced(s: State, a: Answer) {
    forall k | 0 <= k < |s.fences| && s.fences[k].Covers(a.sid) && s.fences[k].at < a.begin && a.outcome.Some? ::
      s.fences[k].at < a.readAt
  }

  ghost predicate RevocationOk(s: State, r: Revocation) {
    && r.begin < r.at < |s.moments|
    && (forall k <- r.targets :: Dropped(s, k.sid, r.begin, r.at))
    && (forall k <- r.targets | k in s.moments[r.at].store :: !s.moments[r.at].store[k].Live?)
  }

  ghost predicate History(s: State) {
    && (forall k | 0 <= k < |s.fences| :: FenceOk(s, s.fences[k]))
    && (forall k | 0 <= k < |s.answers| :: Backed(s, s.answers[k]) && Fenced(s, s.answers[k]))
    && (forall k | 0 <= k < |s.revokes| :: RevocationOk(s, s.revokes[k]))
  }

  ghost predicate Inv(s: State) {
    Clock(s) && Threads(s) && Heap(s) && History(s)
  }

  // ------------------------------------------------------- what a step keeps

  /** What every step does to the past: nothing. */
  ghost predicate Extends(s: State, s': State) {
    && s'.cfg == s.cfg
    && |s'.moments| == |s.moments| + 1 && s.moments == s'.moments[..|s.moments|]
    && s.answers <= s'.answers && s.fences <= s'.fences
    && |s.heap| <= |s'.heap|
    && (forall i | 0 <= i < |s.heap| :: s'.heap[i].sid == s.heap[i].sid && s'.heap[i].born == s.heap[i].born)
  }

  lemma StepExtends(s: State, step: Step)
    requires Enabled(s, step)
    ensures Extends(s, Apply(s, step))
  {
  }

  lemma StepForward(s: State, step: Step)
    requires Enabled(s, step)
    ensures var s' := Apply(s, step);
            && |s'.moments| == |s.moments| + 1 && s.moments == s'.moments[..|s.moments|]
            && Last(s).now <= Last(s').now && Forward(Last(s).store, Last(s').store)
  {
  }

  lemma StepClock(s: State, step: Step)
    requires Clock(s) && Enabled(s, step)
    ensures Clock(Apply(s, step))
  {
    var ms := Apply(s, step).moments;
    StepForward(s, step);
    forall i, j | 0 <= i <= j < |ms|
      ensures ms[i].now <= ms[j].now && Forward(ms[i].store, ms[j].store)
    {
      if j == |s.moments| && i < j {
        assert ms[i] == s.moments[i];
        assert Forward(s.moments[i].store, Last(s).store);
      } else if j < |s.moments| {
        assert ms[i] == s.moments[i] && ms[j] == s.moments[j];
      }
    }
  }

  /** Outside a fill, a step touches only the lock of an entry. */
  lemma StepEntryFrame(s: State, step: Step, i: nat)
    requires Enabled(s, step) && i < |s.heap|
    requires !(step.Fill? && i == s.threads[step.t].pc.e)
    ensures var e := Apply(s, step).heap[i]; e == s.heap[i].(holder := e.holder)
  {
  }

  /** How a thread came to a place with an entry: it was there, or it has just loaded the map. */
  lemma StepPlace(s: State, step: Step, t: Tid)
    requires Enabled(s, step) && t in Apply(s, step).threads
    requires Apply(s, step).threads[t].Lookup? && Apply(s, step).threads[t].pc.HasEntry()
    ensures t in s.threads && s.threads[t].Lookup?
    ensures var s' := Apply(s, step); var l, l' := s.threads[t], s'.threads[t];
            && l'.sid == l.sid && l'.project == l.project && l'.begin == l.begin
            && (|| (l.pc.HasEntry() && l.pc.e == l'.pc.e)
                || (l.sid in s'.entries && s'.entries[l.sid] == l'.pc.e))
            && (l'.pc.Reading? ==> l == l' || (step == Recheck(t) && l.pc == SlowCheck(l'.pc.e)))
  {
  }

  lemma EntryKept(s: State, s': State, e: Entry, holder: Option<Tid>)
    requires Extends(s, s') && EntryOk(s, e)
    ensures EntryOk(s', e.(holder := holder))
  {
  }

  lemma FillEntryOk(s: State, step: Step)
    requires Clock(s) && Threads(s) && Heap(s) && Enabled(s, step) && step.Fill?
    ensures var s' := Apply(s, step); EntryOk(s', s'.heap[s.threads[step.t].pc.e])
  {
  }

  lemma StepHeap(s: State, step: Step)
    requires Clock(s) && Threads(s) && Heap(s) && Enabled(s, step)
    ensures Heap(Apply(s, step))
  {
    var s' := Apply(s, step);
    StepExtends(s, step);
    forall i | 0 <= i < |s'.heap|
      ensures EntryOk(s', s'.heap[i])
    {
      if i == |s.heap| {
      } else if step.Fill? && i == s.threads[step.t].pc.e {
        FillEntryOk(s, step);
      } else {
        StepEntryFrame(s, step, i);
        EntryKept(s, s', s.heap[i], s'.heap[i].holder);
      }
    }
    StepEntries(s, step);
  }

  lemma StepEntries(s: State, step: Step)
    requires Heap(s) && Enabled(s, step)
    ensures var s' := Apply(s, step);
            forall x <- s'.entries :: s'.entries[x] < |s'.heap| && s'.heap[s'.entries[x]].sid == x
  {
  }

  /** A thread that does not take the step keeps its place and its lock. */
  lemma StepOther(s: State, step: Step, t: Tid)
    requires Threads(s) && Enabled(s, step) && t in Apply(s, step).threads && t in s.threads
    requires Apply(s, step).threads[t] == s.threads[t] && s.threads[t].Lookup?
    ensures LookupOk(Apply(s, step), t, s.threads[t])
  {
    var s' := Apply(s, step);
    var l := s.threads[t];
    StepExtends(s, step);
    assert LookupOk(s, t, l);
    if l.pc.Holds() {
      StepHolder(s, step, t, l.pc.e);
    }
  }

  lemma StepHolder(s: State, step: Step, t: Tid, e: nat)
    requires Threads(s) && Enabled(s, step) && t in Apply(s, step).threads && t in s.threads
    requires Apply(s, step).threads[t] == s.threads[t] && s.threads[t].Lookup?
    requires s.threads[t].pc.Holds() && s.threads[t].pc.e == e < |s.heap| && s.heap[e].holder == Some(t)
    ensures Apply(s, step).heap[e].holder == Some(t)
  {
    match step
    case Check(u) => assert LookupOk(s, u, s.threads[u]);
    case Recheck(u) => assert LookupOk(s, u, s.threads[u]);
    case Read(u, _) => assert LookupOk(s, u, s.threads[u]);
    case Fill(u) => assert LookupOk(s, u, s.threads[u]);
    case _ =>
  }

  /** The thread that takes the step, when it is still running afterwards. */
  lemma StepSelf(s: State, step: Step, t: Tid)
    requires Clock(s) && Threads(s) && Heap(s) && Enabled(s, step) && t in Apply(s, step).threads
    requires t !in s.threads || Apply(s, step).threads[t] != s.threads[t]
    requires Apply(s, step).threads[t].Lookup?
    ensures LookupOk(Apply(s, step), t, Apply(s, step).threads[t])
  {
    var s' := Apply(s, step);
    StepExtends(s, step);
    if t in s.threads {
      assert LookupOk(s, t, s.threads[t]);
      if step.Read? {
        assert EntryOk(s, s.heap[s.threads[t].pc.e]);
      }
    }
  }

  lemma StepBegin(s: State, step: Step)
    requires Threads(s) && Enabled(s, step)
    ensures var s' := Apply(s, step); forall t <- s'.threads :: s'.threads[t].begin < |s'.moments|
  {
  }

  lemma StepThreads(s: State, step: Step)
    requires Inv(s) && Enabled(s, step)
    ensures Threads(Apply(s, step))
  {
    var s' := Apply(s, step);
    StepBegin(s, step);
    forall t <- s'.threads
      ensures s'.threads[t].Lookup? ==> LookupOk(s', t, s'.threads[t])
      ensures s'.threads[t].Revoker? ==> RevokerOk(s', s'.threads[t])
    {
      if s'.threads[t].Revoker? {
        StepRevoker(s, step, t);
      } else if t in s.threads && s'.threads[t] == s.threads[t] {
        StepOther(s, step, t);
      } else {
        StepSelf(s, step, t);
      }
    }
  }

  lemma StepRevoker(s: State, step: Step, t: Tid)
    requires Inv(s) && Enabled(s, step)
    requires t in Apply(s, step).threads && Apply(s, step).threads[t].Revoker?
    ensures RevokerOk(Apply(s, step), Apply(s, step).threads[t])
  {
    var s' := Apply(s, step);
    StepExtends(s, step);
    var r := s'.threads[t];
    forall x: Sid | x !in r.todo && (r.single.Some? ==> x == r.single.value.sid)
      ensures Dropped(s', x, r.begin, |s'.moments|)
    {
      if t !in s.threads {
        assert s'.fences[|s.fences|].Covers(x);
      } else if x in s.threads[t].todo && step.Drop? {
        assert s'.fences[|s.fences|].Covers(x);
      } else {
        DroppedKept(s, s', x, r.begin, |s.moments|);
      }
    }
  }

  lemma DroppedKept(s: State, s': State, x: Sid, from: Instant, to: Instant)
    requires Extends(s, s') && Dropped(s, x, from, to)
    ensures Dropped(s', x, from, to)
  {
  }

  lemma StepFenceEntries(s: State, step: Step, f: Fence)
    requires Heap(s) && FenceOk(s, f) && Enabled(s, step)
    ensures var s' := Apply(s, step);
            forall x <- s'.entries | f.Covers(x) && s'.entries[x] < |s'.heap| :: f.at < s'.heap[s'.entries[x]].born
  {
  }

  lemma StepFenceThreads(s: State, step: Step, f: Fence, t: Tid)
    requires Threads(s) && Heap(s) && FenceOk(s, f) && Enabled(s, step)
    requires var s' := Apply(s, step); t in s'.threads && Behind(s'.threads[t], f) && s'.threads[t].pc.e < |s'.heap|
    ensures var s' := Apply(s, step); f.at < s'.heap[s'.threads[t].pc.e].born
  {
    StepExtends(s, step);
    var s' := Apply(s, step);
    if t in s.threads {
      if s'.threads[t] == s.threads[t] {
        assert LookupOk(s, t, s.threads[t]);
        assert Behind(s.threads[t], f);
      } else if step.Load? || step.LoadOrStore? {
        var x := s.threads[t].sid;
        if x in s.entries {
          assert f.Covers(x);
        }
      } else {
        assert LookupOk(s, t, s.threads[t]);
        assert Behind(s.threads[t], f);
      }
    }
  }

  lemma StepFences(s: State, step: Step)
    requires Inv(s) && Enabled(s, step)
    ensures var s' := Apply(s, step); forall k | 0 <= k < |s'.fences| :: FenceOk(s', s'.fences[k])
  {
    var s' := Apply(s, step);
    StepExtends(s, step);
    forall k | 0 <= k < |s'.fences|
      ensures FenceOk(s', s'.fences[k])
    {
      if k < |s.fences| {
        assert s'.fences[k] == s.fences[k];
        StepFenceEntries(s, step, s.fences[k]);
        forall t <- s'.threads | Behind(s'.threads[t], s'.fences[k]) && s'.threads[t].pc.e < |s'.heap|
          ensures s'.fences[k].at < s'.heap[s'.threads[t].pc.e].born
        {
          StepFenceThreads(s, step, s.fences[k], t);
        }
      } else {
        NewFence(s, step);
      }
    }
  }

  lemma NewFence(s: State, step: Step)
    requires Threads(s) && Enabled(s, step) && |Apply(s, step).fences| > |s.fences|
    ensures var s' := Apply(s, step);
            |s'.fences| == |s.fences| + 1 && FenceOk(s', s'.fences[|s.fences|])
  {
  }

  lemma BackedKept(s: State, s': State, a: Answer)
    requires Extends(s, s') && Backed(s, a)
    ensures Backed(s', a)
  {
  }

  /** A hit is backed by the fill it found in the entry. */
  lemma HitBacked(s: State, s': State, t: Tid, a: Answer, start: nat)
    requires Inv(s) && Extends(s, s') && AtEntry(s, t)
    requires var l := s.threads[t]; var e := s.heap[l.pc.e];
             a == HitAnswer(l, e, |s.moments|) && Fresh(e, l.project, start) && s.moments[l.begin].now <= start
    ensures Backed(s', a) && Fenced(s, a)
  {
  }

  /** The answer a step adds, if any. */
  lemma StepNewAnswer(s: State, step: Step)
    requires Inv(s) && Enabled(s, step) && |Apply(s, step).answers| > |s.answers|
    ensures var s' := Apply(s, step);
            && |s'.answers| == |s.answers| + 1 && s'.fences == s.fences
            && Backed(s', s'.answers[|s.answers|]) && Fenced(s, s'.answers[|s.answers|])
  {
    var s' := Apply(s, step);
    StepExtends(s, step);
    var a := s'.answers[|s.answers|];
    var l := s.threads[step.t];
    assert LookupOk(s, step.t, l);
    if a.cached {
      HitBacked(s, s', step.t, a, if step.Check? then s.moments[l.begin].now else Last(s).now);
    }
  }

  lemma FencedKept(s: State, s': State, a: Answer)
    requires Extends(s, s') && Backed(s, a) && Fenced(s, a)
    requires forall k | |s.fences| <= k < |s'.fences| :: s'.fences[k].at >= |s.moments|
    ensures Fenced(s', a)
  {
  }

  lemma StepAnswers(s: State, step: Step)
    requires Inv(s) && Enabled(s, step)
    ensures var s' := Apply(s, step);
            forall k | 0 <= k < |s'.answers| :: Backed(s', s'.answers[k]) && Fenced(s', s'.answers[k])
  {
    var s' := Apply(s, step);
    StepExtends(s, step);
    StepFenceTimes(s, step);
    forall k | 0 <= k < |s'.answers|
      ensures Backed(s', s'.answers[k]) && Fenced(s', s'.answers[k])
    {
      if k < |s.answers| {
        assert s'.answers[k] == s.answers[k];
        assert Backed(s, s.answers[k]) && Fenced(s, s.answers[k]);
        BackedKept(s, s', s.answers[k]);
        FencedKept(s, s', s.answers[k]);
      } else {
        StepNewAnswer(s, step);
        assert s'.fences == s.fences;
      }
    }
  }

  lemma StepFenceTimes(s: State, step: Step)
    requires Enabled(s, step)
    ensures var s' := Apply(s, step); forall k | |s.fences| <= k < |s'.fences| :: s'.fences[k].at >= |s.moments|
  {
  }

  lemma StepRevocations(s: State, step: Step)
    requires Inv(s) && Enabled(s, step)
    ensures var s' := Apply(s, step); forall k | 0 <= k < |s'.revokes| :: RevocationOk(s', s'.revokes[k])
  {
    var s' := Apply(s, step);
    StepExtends(s, step);
    forall k | 0 <= k < |s'.revokes|
      ensures RevocationOk(s', s'.revokes[k])
    {
      var r := s'.revokes[k];
      forall key <- r.targets
        ensures Dropped(s', key.sid, r.begin, r.at)
      {
        if k < |s.revokes| {
          assert RevocationOk(s, s.revokes[k]);
          DroppedKept(s, s', key.sid, r.begin, r.at);
        } else {
          assert RevokerOk(s, s.threads[step.t]);
          DroppedKept(s, s', key.sid, r.begin, r.at);
        }
      }
      if k < |s.revokes| {
        assert RevocationOk(s, s.revokes[k]);
      }
    }
  }

  lemma StepKeepsInv(s: State, step: Step)
    requires Inv(s) && Enabled(s, step)
    ensures Inv(Apply(s, step))
  {
    StepClock(s, step);
    StepHeap(s, step);
    StepThreads(s, step);
    StepFences(s, step);
    StepAnswers(s, step);
    StepRevocations(s, step);
  }

  lemma {:induction false} RunKeepsInv(s: State, steps: seq<Step>)
    requires Inv(s) && Legal(s, steps)
    ensures Inv(Exec(s, steps))
    decreases |steps|
  {
    if steps != [] {
      StepKeepsInv(s, steps[0]);
      RunKeepsInv(Apply(s, steps[0]), steps[1..]);
    }
  }

  lemma ReachableInv(cfg: Config, s: State)
    requires Reachable(cfg, s)
    ensures Inv(s) && s.cfg == cfg
  {
    var now: nat, store: Store, steps: seq<Step> :|
      Legal(Init(cfg, now, store), steps) && s == Exec(Init(cfg, now, store), steps);
    RunKeepsInv(Init(cfg, now, store), steps);
    ConfigFixed(Init(cfg, now, store), steps);
  }

  lemma {:induction false} ConfigFixed(s: State, steps: seq<Step>)
    requires Legal(s, steps)
    ensures Exec(s, steps).cfg == s.cfg
    decreases |steps|
  {
    if steps != [] {
      StepExtends(s, steps[0]);
      ConfigFixed(Apply(s, steps[0]), steps[1..]);
    }
  }
}
