/** One sweep cycle: every due deletion is attempted with its own cutoff, whatever
    the others do, and each attempt is accounted for exactly once.
*/
module Sweeper {
  import opened Retention

  datatype Outcome = Swept | NotImplemented | Failed

  /** A repository deletion: what is swept, and the instant it is swept up to. */
  datatype Sweep = Sweep(kind: string, beforeMs: int)

  const ACCOUNTS := "pending_deletion_users"
  const AUDIT := "audit_events"
  const DEVICES := "attested_devices"
  const ANONYMOUS := "anonymous_users"

  /** The account purge and the audit sweep have no quiet "not implemented" case. */
  predicate MaySkip(kind: string) { kind != ACCOUNTS && kind != AUDIT }

  /** Counters, the skip notices logged so far, and the calls made. */
  datatype Ledger = Ledger(
    runs: multiset<string>, errors: multiset<string>, skips: multiset<string>,
    skipLogged: set<string>, notices: seq<string>, calls: seq<Sweep>)

  function Record(l: Ledger, s: Sweep, o: Outcome): Ledger {
    var l' := l.(calls := l.calls + [s]);
    if o.Swept? then l'.(runs := l.runs + multiset{s.kind})
    else if o.NotImplemented? && MaySkip(s.kind) then
      l'.(skips := l.skips + multiset{s.kind},
          notices := if s.kind in l.skipLogged then l.notices else l.notices + [s.kind],
          skipLogged := l.skipLogged + {s.kind})
    else l'.(errors := l.errors + multiset{s.kind})
  }

  function RecordAll(l: Ledger, due: seq<Sweep>, outcome: Sweep -> Outcome): Ledger
    decreases |due|
  {
    if due == [] then l else RecordAll(Record(l, due[0], outcome(due[0])), due[1..], outcome)
  }

  lemma {:induction false} RecordAllConcat(l: Ledger, a: seq<Sweep>, b: seq<Sweep>, outcome: Sweep -> Outcome)
    ensures RecordAll(l, a + b, outcome) == RecordAll(RecordAll(l, a, outcome), b, outcome)
    decreases |a|
  {
    if a == [] {
      assert a + b == b;
    } else {
      assert (a + b)[1..] == a[1..] + b;
      RecordAllConcat(Record(l, a[0], outcome(a[0])), a[1..], b, outcome);
    }
  }

  lemma RecordThree(l: Ledger, a: seq<Sweep>, b: seq<Sweep>, c: seq<Sweep>, outcome: Sweep -> Outcome)
    ensures RecordAll(l, a + b + c, outcome) == RecordAll(RecordAll(RecordAll(l, a, outcome), b, outcome), c, outcome)
  {
    RecordAllConcat(l, a, b, outcome);
    RecordAllConcat(l, a + b, c, outcome);
  }

  /** The expiry targets share one cutoff. */
  function Expiring(targets: seq<string>, beforeMs: int): seq<Sweep> {
    seq(|targets|, i requires 0 <= i < |targets| => Sweep(targets[i], beforeMs))
  }

  /** A retention step is due only while its window is positive, at its own cutoff. */
  function Retained(kind: string, days: int, nowNs: int): seq<Sweep> {
    if days <= 0 then [] else [Sweep(kind, CutoffMs(nowNs, days))]
  }

  datatype Plan = Plan(targets: seq<string>, purges: bool, graceNs: int, auditDays: int, deviceDays: int,
      anonymousDays: int)

  function Purge(p: Plan, nowNs: int): seq<Sweep> { if p.purges then [Sweep(ACCOUNTS, UnixMilli(nowNs))] else [] }

  function Windows(p: Plan, nowNs: int): seq<Sweep> {
    Retained(AUDIT, p.auditDays, nowNs) + Retained(DEVICES, p.deviceDays, nowNs)
    + Retained(ANONYMOUS, p.anonymousDays, nowNs)
  }

  /** What a cycle that reads the clock at startNs and again at nowNs has to attempt. */
  function Due(p: Plan, startNs: int, nowNs: int): seq<Sweep> {
    Expiring(p.targets, UnixMilli(startNs - p.graceNs)) + Purge(p, nowNs) + Windows(p, nowNs)
  }

  /** The ledger after the three phases of a cycle. */
  function AfterCycle(l: Ledger, p: Plan, startNs: int, nowNs: int, outcome: Sweep -> Outcome): Ledger {
    var l1 := RecordAll(l, Expiring(p.targets, UnixMilli(startNs - p.graceNs)), outcome);
    RecordAll(RecordAll(l1, Purge(p, nowNs), outcome), Windows(p, nowNs), outcome)
  }

  // ---------------------------------------------------------- over any cycles

  function Kinds(m: multiset<string>): set<string> { set x | x in m }

  ghost predicate Balanced(l: Ledger) {
    && |l.calls| == |l.runs| + |l.errors| + |l.skips|
    && l.skipLogged == Kinds(l.skips)
    && multiset(l.notices) == multiset(l.skipLogged)
  }

  lemma RecordKeepsBalance(l: Ledger, s: Sweep, o: Outcome)
    requires Balanced(l)
    ensures Balanced(Record(l, s, o))
  {
  }

  /** Every attempt is counted once, as a run, an error or a skip; a kind is
      announced as skipped exactly once, on its first skip, however many follow. */
  lemma {:induction false} LedgerBalances(l: Ledger, due: seq<Sweep>, outcome: Sweep -> Outcome)
    requires Balanced(l)
    ensures Balanced(RecordAll(l, due, outcome))
    ensures RecordAll(l, due, outcome).calls == l.calls + due
    decreases |due|
  {
    if due != [] {
      RecordKeepsBalance(l, due[0], outcome(due[0]));
      LedgerBalances(Record(l, due[0], outcome(due[0])), due[1..], outcome);
    }
  }

  /** A cycle attempts all that is due, in order, whatever fails on the way. */
  lemma CycleRecordsDue(l: Ledger, p: Plan, startNs: int, nowNs: int, outcome: Sweep -> Outcome)
    requires Balanced(l)
    ensures var l' := AfterCycle(l, p, startNs, nowNs, outcome);
            Balanced(l') && l'.calls == l.calls + Due(p, startNs, nowNs)
  {
    ThreePhases(l, Expiring(p.targets, UnixMilli(startNs - p.graceNs)), Purge(p, nowNs), Windows(p, nowNs), outcome);
  }

  lemma ThreePhases(l: Ledger, a: seq<Sweep>, b: seq<Sweep>, c: seq<Sweep>, outcome: Sweep -> Outcome)
    requires Balanced(l)
    ensures var l' := RecordAll(RecordAll(RecordAll(l, a, outcome), b, outcome), c, outcome);
            Balanced(l') && l'.calls == l.calls + (a + b + c)
  {
    var l1 := Phase(l, a, outcome);
    var l2 := Phase(l1, b, outcome);
    var l3 := Phase(l2, c, outcome);
    Regroup(l.calls, a, b, c);
  }

  lemma Phase(l: Ledger, due: seq<Sweep>, outcome: Sweep -> Outcome) returns (l': Ledger)
    requires Balanced(l)
    ensures l' == RecordAll(l, due, outcome) && Balanced(l') && l'.calls == l.calls + due
  {
    l' := RecordAll(l, due, outcome);
    LedgerBalances(l, due, outcome);
  }

  lemma Regroup(s: seq<Sweep>, a: seq<Sweep>, b: seq<Sweep>, c: seq<Sweep>)
    ensures s + a + b + c == s + (a + b + c)
  {
  }

  // ------------------------------------------------------------------ in place

  class GcSweeper {
    const plan: Plan
    var ledger: Ledger

    constructor (plan: Plan)
      ensures this.plan == plan && Balanced(ledger) && ledger.calls == []
    {
      this.plan := plan;
      this.ledger := Ledger(multiset{}, multiset{}, multiset{}, {}, [], []);
    }

    method Attempt(s: Sweep, o: Outcome)
      modifies this`ledger
      ensures ledger == Record(old(ledger), s, o)
    {
      ledger := ledger.(calls := ledger.calls + [s]);
      if o.NotImplemented? && MaySkip(s.kind) {
        LogSkipOnce(s.kind);
        return;
      }
      if !o.Swept? {
        ledger := ledger.(errors := ledger.errors + multiset{s.kind});
        return;
      }
      ledger := ledger.(runs := ledger.runs + multiset{s.kind});
    }

    method LogSkipOnce(kind: string)
      modifies this`ledger
      ensures var l := old(ledger);
              ledger == l.(skips := l.skips + multiset{kind},
                           notices := if kind in l.skipLogged then l.notices else l.notices + [kind],
                           skipLogged := l.skipLogged + {kind})
    {
      ledger := ledger.(skips := ledger.skips + multiset{kind});
      if kind in ledger.skipLogged {
        assert ledger.skipLogged + {kind} == ledger.skipLogged;
        return;
      }
      ledger := ledger.(skipLogged := ledger.skipLogged + {kind}, notices := ledger.notices + [kind]);
    }

    method SweepRetention(kind: string, days: int, nowNs: int, outcome: Sweep -> Outcome)
      modifies this`ledger
      ensures ledger == RecordAll(old(ledger), Retained(kind, days, nowNs), outcome)
    {
      if days <= 0 {
        return;
      }
      var s := Sweep(kind, CutoffMs(nowNs, days));
      assert [s][1..] == [];
      Attempt(s, outcome(s));
    }

    method PurgeAccounts(nowNs: int, outcome: Sweep -> Outcome)
      modifies this`ledger
      ensures ledger == RecordAll(old(ledger), Purge(plan, nowNs), outcome)
    {
      if plan.purges {
        var s := Sweep(ACCOUNTS, UnixMilli(nowNs));
        assert [s][1..] == [];
        Attempt(s, outcome(s));
      }
    }

    /** The loop never stops at a failure. */
    method SweepTargets(beforeMs: int, outcome: Sweep -> Outcome)
      modifies this`ledger
      ensures ledger == RecordAll(old(ledger), Expiring(plan.targets, beforeMs), outcome)
    {
      ghost var l0, expiring := ledger, Expiring(plan.targets, beforeMs);
      for i := 0 to |plan.targets|
        invariant ledger == RecordAll(l0, expiring[..i], outcome)
      {
        var s := Sweep(plan.targets[i], beforeMs);
        assert expiring[..i + 1] == expiring[..i] + [s];
        assert [s][1..] == [];
        RecordAllConcat(l0, expiring[..i], [s], outcome);
        Attempt(s, outcome(s));
      }
      assert expiring[..|plan.targets|] == expiring;
    }

    method SweepWindows(nowNs: int, outcome: Sweep -> Outcome)
      modifies this`ledger
      ensures ledger == RecordAll(old(ledger), Windows(plan, nowNs), outcome)
    {
      RecordThree(ledger, Retained(AUDIT, plan.auditDays, nowNs), Retained(DEVICES, plan.deviceDays, nowNs),
                  Retained(ANONYMOUS, plan.anonymousDays, nowNs), outcome);
      SweepRetention(AUDIT, plan.auditDays, nowNs, outcome);
      SweepRetention(DEVICES, plan.deviceDays, nowNs, outcome);
      SweepRetention(ANONYMOUS, plan.anonymousDays, nowNs, outcome);
    }

    /** A cycle leaves the ledger CycleRecordsDue speaks of: all that is due was attempted. */
    method RunOnce(startNs: int, nowNs: int, outcome: Sweep -> Outcome)
      modifies this`ledger
      ensures ledger == AfterCycle(old(ledger), plan, startNs, nowNs, outcome)
    {
      SweepTargets(UnixMilli(startNs - plan.graceNs), outcome);
      PurgeAccounts(nowNs, outcome);
      SweepWindows(nowNs, outcome);
    }
  }

  /** End to end: with an accepted configuration whose window covers the lifetime as the
      issuer computes it, every anonymous sweep a cycle attempts spares whoever still
      holds a live refresh token. */
  lemma CyclesSpareLiveUsers(v: Setting, c: Config, p: Plan, startNs: int, nowNs: int, s: Sweep, lastMs: int)
    requires p.anonymousDays == Loaded(v, c).anonymousDays && ANONYMOUS !in p.targets
    ensures && ValidAnonymous(Loaded(v, c)) && Wrap(c.refreshSeconds * 1000) <= p.anonymousDays * DAY_MS
            && s in Due(p, startNs, nowNs) && s.kind == ANONYMOUS && Instants(nowNs, lastMs) && lastMs < s.beforeMs
            ==> TokenExpiryMs(lastMs, c.refreshSeconds) < UnixMilli(nowNs)
  {
    if s in Due(p, startNs, nowNs) && s.kind == ANONYMOUS {
      assert s in Retained(ANONYMOUS, p.anonymousDays, nowNs);
      AnonymousRetentionIsSafe(v, c);
    }
  }

  /** The audit window is the one Validate does not cap: any value is as acceptable as any
      other, the audit sweep is cut off where intended exactly up to 106751 days, and one
      day more sweeps up to an instant in the future. */
  lemma AuditCutoffIff(c: Config, p: Plan, startNs: int, nowNs: int)
    requires p.auditDays == c.auditDays && 0 < c.auditDays < TWO63 && AUDIT !in p.targets
    ensures forall days :: ValidAnonymous(c.(auditDays := days)) == ValidAnonymous(c)
                           && ValidAssurance(c.(auditDays := days)) == ValidAssurance(c)
    ensures Sweep(AUDIT, CutoffMs(nowNs, c.auditDays)) in Due(p, startNs, nowNs)
    ensures (forall s <- Due(p, startNs, nowNs) | s.kind == AUDIT ::
               s.beforeMs == UnixMilli(nowNs) - c.auditDays * DAY_MS)
            <==> c.auditDays <= MAX_EXACT_DAYS
    ensures c.auditDays == MAX_EXACT_DAYS + 1 ==>
              forall s <- Due(p, startNs, nowNs) | s.kind == AUDIT :: s.beforeMs > UnixMilli(nowNs)
  {
    var audit := Sweep(AUDIT, CutoffMs(nowNs, c.auditDays));
    AuditIsDue(p, startNs, nowNs);
    CutoffExact(nowNs, c.auditDays);
    CutoffInverts(nowNs);
  }

  lemma AuditIsDue(p: Plan, startNs: int, nowNs: int)
    requires p.auditDays > 0 && AUDIT !in p.targets
    ensures forall s :: s in Due(p, startNs, nowNs) && s.kind == AUDIT <==>
            s == Sweep(AUDIT, CutoffMs(nowNs, p.auditDays))
  {
  }
}
