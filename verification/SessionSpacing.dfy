/** How often the cache reads the store: between a fill and the next read of the
    same sid and project at least ttl passes, however many lookups run at once,
    unless the sid was dropped or another project's lookup refilled the entry.
*/
module SessionSpacing {
  import opened SessionProtocol
  import opened SessionSafety

  /** A Drop of x took effect in (from, to). */
  ghost predicate DroppedBetween(s: State, x: Sid, from: Instant, to: Instant) {
    exists k :: 0 <= k < |s.fences| && s.fences[k].One? && s.fences[k].sid == x && from < s.fences[k].at < to
  }

  /** A lookup of another project filled an entry of the same sid in (from, to). */
  ghost predicate RefilledBetween(s: State, x: Sid, project: Project, from: Instant, to: Instant) {
    exists k :: 0 <= k < |s.fills| && SidOf(s, s.fills[k].e) == x && s.fills[k].project != project
                && from < s.fills[k].at < to
  }

  function SidOf(s: State, e: nat): Sid { if e < |s.heap| then s.heap[e].sid else "" }

  /** The map still holds e for x unless a Drop since from took it out. */
  ghost predicate Rooted(s: State, x: Sid, e: nat, from: Instant) {
    DroppedBetween(s, x, from, |s.moments|) || (x in s.entries && s.entries[x] == e)
  }

  /** What a fill leaves in its entry until another project's fill replaces it. */
  ghost predicate FillKept(s: State, f: Filled) {
    && f.e < |s.heap| && f.begin < f.at < |s.moments|
    && Rooted(s, s.heap[f.e].sid, f.e, f.begin)
    && (|| RefilledBetween(s, s.heap[f.e].sid, f.project, f.at, |s.moments|)
        || (s.heap[f.e].project == f.project && s.heap[f.e].deadline >= s.moments[f.at].now + s.cfg.ttl))
  }

  ghost predicate LookupKept(s: State, l: Thread)
    requires l.Lookup?
  {
    && (l.pc.HasEntry() ==> l.pc.e < |s.heap| && Rooted(s, l.sid, l.pc.e, l.begin))
    && (l.pc.Reading? ==> |s.moments| > 0 && !Fresh(s.heap[l.pc.e], l.project, Last(s).now))
  }

  function Earlier(i: Instant, j: Instant): Instant { if i <= j then i else j }

  predicate FetchOk(s: State, r: StoreRead) {
    r.e < |s.heap| && r.begin < r.at < |s.moments|
  }

  /** The claim about one fill and one later read. */
  ghost predicate Apart(s: State, f: Filled, r: StoreRead) {
    && FetchOk(s, r) && f.at < |s.moments|
    && (SidOf(s, f.e) == SidOf(s, r.e) && f.project == r.project && f.at < r.at ==>
          || DroppedBetween(s, SidOf(s, r.e), Earlier(f.begin, r.begin), r.at)
          || RefilledBetween(s, SidOf(s, r.e), r.project, f.at, r.at)
          || s.moments[f.at].now + s.cfg.ttl <= s.moments[r.at].now)
  }

  ghost predicate Spacing(s: State) {
    && (forall k | 0 <= k < |s.fills| :: FillKept(s, s.fills[k]))
    && (forall t <- s.threads | s.threads[t].Lookup? :: LookupKept(s, s.threads[t]))
    && (forall k | 0 <= k < |s.fetches| :: FetchOk(s, s.fetches[k]))
    && (forall j, k | 0 <= j < |s.fills| && 0 <= k < |s.fetches| :: Apart(s, s.fills[j], s.fetches[k]))
  }

  ghost predicate Past(s: State, s': State) {
    Extends(s, s') && s.fills <= s'.fills && s.fetches <= s'.fetches
  }

  lemma StepPast(s: State, step: Step)
    requires Enabled(s, step)
    ensures Past(s, Apply(s, step))
  {
  }

  lemma DroppedStays(s: State, s': State, x: Sid, from: Instant, to: Instant, to': Instant)
    requires Past(s, s') && DroppedBetween(s, x, from, to) && to <= to'
    ensures DroppedBetween(s', x, from, to')
  {
  }

  lemma RefilledStays(s: State, s': State, x: Sid, project: Project, from: Instant, to: Instant, to': Instant)
    requires Past(s, s') && RefilledBetween(s, x, project, from, to) && to <= to'
    requires forall k | 0 <= k < |s.fills| :: s.fills[k].e < |s.heap|
    ensures RefilledBetween(s', x, project, from, to')
  {
  }

  /** Only a Drop takes an entry out of the map. */
  lemma EntryStays(s: State, step: Step, x: Sid)
    requires Enabled(s, step) && x in s.entries
    ensures var s' := Apply(s, step);
            || (x in s'.entries && s'.entries[x] == s.entries[x])
            || (|s'.fences| == |s.fences| + 1 && s'.fences[|s.fences|] == One(x, |s.moments|))
  {
  }

  lemma RootedStays(s: State, step: Step, x: Sid, e: nat, from: Instant)
    requires Enabled(s, step) && Rooted(s, x, e, from) && from < |s.moments|
    ensures Rooted(Apply(s, step), x, e, from)
  {
    var s' := Apply(s, step);
    StepPast(s, step);
    if DroppedBetween(s, x, from, |s.moments|) {
      DroppedStays(s, s', x, from, |s.moments|, |s'.moments|);
    } else {
      EntryStays(s, step, x);
    }
  }

  lemma FillStays(s: State, step: Step, f: Filled)
    requires Inv(s) && Spacing(s) && Enabled(s, step) && FillKept(s, f)
    ensures FillKept(Apply(s, step), f)
  {
    var s' := Apply(s, step);
    StepPast(s, step);
    var x := s.heap[f.e].sid;
    RootedStays(s, step, x, f.e, f.begin);
    if RefilledBetween(s, x, f.project, f.at, |s.moments|) {
      RefilledStays(s, s', x, f.project, f.at, |s.moments|, |s'.moments|);
    } else if step.Fill? && s.threads[step.t].pc.e == f.e {
      var l := s.threads[step.t];
      assert LookupOk(s, step.t, l);
      var g := s'.fills[|s.fills|];
      assert g.e == f.e && g.at == |s.moments| && SidOf(s', g.e) == x;
      assert s.moments[f.at].now <= Last(s).now;
    } else {
      StepEntryFrame(s, step, f.e);
    }
  }

  lemma NewFillKept(s: State, step: Step)
    requires Inv(s) && Spacing(s) && Enabled(s, step) && step.Fill?
    ensures var s' := Apply(s, step); |s'.fills| == |s.fills| + 1 && FillKept(s', s'.fills[|s.fills|])
  {
  }

  lemma StepFills(s: State, step: Step)
    requires Inv(s) && Spacing(s) && Enabled(s, step)
    ensures var s' := Apply(s, step); forall k | 0 <= k < |s'.fills| :: FillKept(s', s'.fills[k])
  {
    var s' := Apply(s, step);
    StepPast(s, step);
    forall k | 0 <= k < |s'.fills|
      ensures FillKept(s', s'.fills[k])
    {
      if k < |s.fills| {
        assert s'.fills[k] == s.fills[k];
        FillStays(s, step, s.fills[k]);
      } else {
        NewFillKept(s, step);
      }
    }
  }

  /** A reader keeps its entry stale until it fills it: it holds the lock and time only moves on. */
  lemma ReadingStaysStale(s: State, step: Step, t: Tid, l: Thread)
    requires Threads(s) && Enabled(s, step) && t in s.threads && l == s.threads[t] && l.Lookup? && LookupKept(s, l)
    requires l.pc.Reading? && t in Apply(s, step).threads && Apply(s, step).threads[t] == l
    ensures var s' := Apply(s, step);
            l.pc.e < |s'.heap| && !Fresh(s'.heap[l.pc.e], l.project, Last(s').now)
  {
    assert LookupOk(s, t, l);
    if step.Fill? {
      assert LookupOk(s, step.t, s.threads[step.t]);
    }
    StepEntryFrame(s, step, l.pc.e);
    LastNow(s, step);
  }

  lemma LastNow(s: State, step: Step)
    requires Enabled(s, step)
    ensures Last(s).now <= Last(Apply(s, step)).now
  {
  }

  lemma StepLookups(s: State, step: Step, t: Tid)
    requires Inv(s) && Spacing(s) && Enabled(s, step) && t in Apply(s, step).threads
    requires Apply(s, step).threads[t].Lookup?
    ensures LookupKept(Apply(s, step), Apply(s, step).threads[t])
  {
    var s' := Apply(s, step);
    var l' := s'.threads[t];
    if l'.pc.HasEntry() {
      StepPlace(s, step, t);
      var l := s.threads[t];
      StepThreads(s, step);
      assert LookupOk(s', t, l');
      if l.pc.HasEntry() && l.pc.e == l'.pc.e {
        assert LookupKept(s, l);
        RootedStays(s, step, l.sid, l.pc.e, l.begin);
      }
      if l'.pc.Reading? {
        if l == l' {
          ReadingStaysStale(s, step, t, l);
        } else {
          StepEntryFrame(s, step, l.pc.e);
        }
      }
    }
  }

  lemma ApartStays(s: State, s': State, f: Filled, r: StoreRead)
    requires Past(s, s') && Spacing(s) && Apart(s, f, r) && f.e < |s.heap|
    ensures Apart(s', f, r)
  {
  }

  /** A new read against an earlier fill. */
  lemma NewReadApart(s: State, step: Step, f: Filled)
    requires Inv(s) && Spacing(s) && Enabled(s, step) && step.Read? && FillKept(s, f)
    ensures var s' := Apply(s, step); |s'.fetches| == |s.fetches| + 1 && Apart(s', f, s'.fetches[|s.fetches|])
  {
    var s' := Apply(s, step);
    StepPast(s, step);
    var l := s.threads[step.t];
    assert LookupOk(s, step.t, l) && LookupKept(s, l);
    var r := s'.fetches[|s.fetches|];
    var x := l.sid;
    if SidOf(s, f.e) == x && f.project == r.project {
      if DroppedBetween(s, x, l.begin, |s.moments|) {
        DroppedStays(s, s', x, l.begin, |s.moments|, r.at);
        WidenDrop(s', x, l.begin, Earlier(f.begin, r.begin), r.at);
      } else if DroppedBetween(s, x, f.begin, |s.moments|) {
        DroppedStays(s, s', x, f.begin, |s.moments|, r.at);
        WidenDrop(s', x, f.begin, Earlier(f.begin, r.begin), r.at);
      } else if RefilledBetween(s, x, f.project, f.at, |s.moments|) {
        assert forall k | 0 <= k < |s.fills| :: FillKept(s, s.fills[k]);
        RefilledStays(s, s', x, f.project, f.at, |s.moments|, r.at);
      }
    }
  }

  lemma WidenDrop(s: State, x: Sid, from: Instant, from': Instant, to: Instant)
    requires DroppedBetween(s, x, from, to) && from' <= from
    ensures DroppedBetween(s, x, from', to)
  {
  }

  lemma OldPairApart(s: State, step: Step, j: nat, k: nat)
    requires Inv(s) && Spacing(s) && Enabled(s, step) && j < |s.fills| && k < |s.fetches|
    ensures Apart(Apply(s, step), s.fills[j], s.fetches[k])
  {
    StepPast(s, step);
    assert FillKept(s, s.fills[j]);
    ApartStays(s, Apply(s, step), s.fills[j], s.fetches[k]);
  }

  /** What a step adds to the fills and reads. */
  lemma StepLists(s: State, step: Step)
    requires Enabled(s, step)
    ensures var s' := Apply(s, step);
            && s.fills <= s'.fills && s.fetches <= s'.fetches
            && (s'.fills == s.fills || s'.fetches == s.fetches)
            && (s'.fetches != s.fetches ==> step.Read? && |s'.fetches| == |s.fetches| + 1)
            && forall j | |s.fills| <= j < |s'.fills| :: s'.fills[j].at == |s.moments|
  {
  }

  lemma StepApart(s: State, step: Step, j: nat, k: nat)
    requires Inv(s) && Spacing(s) && Enabled(s, step)
    requires j < |Apply(s, step).fills| && k < |Apply(s, step).fetches|
    ensures var s' := Apply(s, step); Apart(s', s'.fills[j], s'.fetches[k])
  {
    StepLists(s, step);
    if j < |s.fills| && k < |s.fetches| {
      OldPairApart(s, step, j, k);
    } else if k < |s.fetches| {
      assert FetchOk(s, s.fetches[k]);
    } else {
      assert FillKept(s, s.fills[j]);
      NewReadApart(s, step, s.fills[j]);
    }
  }

  lemma StepFetches(s: State, step: Step)
    requires Inv(s) && Spacing(s) && Enabled(s, step)
    ensures var s' := Apply(s, step); forall k | 0 <= k < |s'.fetches| :: FetchOk(s', s'.fetches[k])
  {
  }

  lemma StepKeepsSpacing(s: State, step: Step)
    requires Inv(s) && Spacing(s) && Enabled(s, step)
    ensures Spacing(Apply(s, step))
  {
    var s' := Apply(s, step);
    StepFills(s, step);
    StepFetches(s, step);
    forall t <- s'.threads | s'.threads[t].Lookup?
      ensures LookupKept(s', s'.threads[t])
    {
      StepLookups(s, step, t);
    }
    forall j, k | 0 <= j < |s'.fills| && 0 <= k < |s'.fetches|
      ensures Apart(s', s'.fills[j], s'.fetches[k])
    {
      StepApart(s, step, j, k);
    }
  }

  lemma {:induction false} RunKeepsSpacing(s: State, steps: seq<Step>)
    requires Inv(s) && Spacing(s) && Legal(s, steps)
    ensures Spacing(Exec(s, steps))
    decreases |steps|
  {
    if steps != [] {
      StepKeepsInv(s, steps[0]);
      StepKeepsSpacing(s, steps[0]);
      RunKeepsSpacing(Apply(s, steps[0]), steps[1..]);
    }
  }

  /** In every reachable state, a read of a sid and project is at least ttl after
      any earlier fill of them, unless between the two a Drop of the sid took
      effect (counting from the start of the earlier of the two lookups, so that
      both saw one entry) or another project's lookup refilled the entry. */
  lemma ReadsAreSpaced(cfg: Config, s: State, f: Filled, r: StoreRead)
    requires Reachable(cfg, s) && f in s.fills && r in s.fetches
    requires SidOf(s, f.e) == SidOf(s, r.e) && f.project == r.project && f.at < r.at
    requires !DroppedBetween(s, SidOf(s, r.e), Earlier(f.begin, r.begin), r.at)
    requires !RefilledBetween(s, SidOf(s, r.e), r.project, f.at, r.at)
    ensures f.at < |s.moments| && r.at < |s.moments|
    ensures s.moments[f.at].now + cfg.ttl <= s.moments[r.at].now
  {
    ReachableInv(cfg, s);
    var now: nat, store: Store, steps: seq<Step> :|
      Legal(Init(cfg, now, store), steps) && s == Exec(Init(cfg, now, store), steps);
    RunKeepsSpacing(Init(cfg, now, store), steps);
    var j :| 0 <= j < |s.fills| && s.fills[j] == f;
    var k :| 0 <= k < |s.fetches| && s.fetches[k] == r;
    assert Apart(s, s.fills[j], s.fetches[k]);
  }
}
