/** The bounded fixed-window limiter: the pure effect of one Allow, whole call
    sequences, and the class that runs it in place.
*/
module RateLimiter {
  import opened Prelude

  datatype WindowCount = WindowCount(start: int, count: nat)
  type Counts = map<string, WindowCount>

  /** Times are milliseconds. limit <= 0 disables the limiter. */
  datatype Policy = Policy(windowMs: int, limit: int, maxSize: nat)

  predicate LiveAt(p: Policy, wc: WindowCount, now: int) {
    now - wc.start < p.windowMs
  }

  function LiveOnly(p: Policy, c: Counts, now: int): Counts {
    map k | k in c && LiveAt(p, c[k], now) :: c[k]
  }

  /** One call; victim is the key map iteration happens to yield if a live key must go. */
  datatype Call = Call(key: string, now: int, victim: string)

  predicate Unlimited(p: Policy, call: Call) { p.limit <= 0 || call.key == "" }

  predicate OpensWindow(p: Policy, c: Counts, call: Call) {
    !Unlimited(p, call) && !(call.key in c && LiveAt(p, c[call.key], call.now))
  }

  /** The call throws out a key whose window is still open. */
  predicate DropsLive(p: Policy, c: Counts, call: Call) {
    OpensWindow(p, c, call) && |c| >= p.maxSize && |LiveOnly(p, c, call.now)| >= p.maxSize
  }

  predicate CallOk(p: Policy, c: Counts, call: Call) {
    DropsLive(p, c, call) ==> call.victim in LiveOnly(p, c, call.now)
  }

  /** What eviction leaves: nothing changes below the cap; above it expired keys
      go, and if that is not enough the victim too. */
  function Evicted(p: Policy, c: Counts, now: int, victim: string): Counts {
    if |c| < p.maxSize then c
    else
      var kept := LiveOnly(p, c, now);
      if |kept| < p.maxSize then kept else kept - {victim}
  }

  function Answer(p: Policy, c: Counts, call: Call): bool {
    Unlimited(p, call) || OpensWindow(p, c, call) || c[call.key].count < p.limit
  }

  function After(p: Policy, c: Counts, call: Call): Counts {
    if Unlimited(p, call) then c
    else if OpensWindow(p, c, call) then Evicted(p, c, call.now, call.victim)[call.key := WindowCount(call.now, 1)]
    else if c[call.key].count >= p.limit then c
    else c[call.key := WindowCount(c[call.key].start, c[call.key].count + 1)]
  }

  // ------------------------------------------------------------------- runs

  ghost predicate Legal(p: Policy, c: Counts, calls: seq<Call>)
    decreases |calls|
  {
    calls == [] || (CallOk(p, c, calls[0]) && Legal(p, After(p, c, calls[0]), calls[1..]))
  }

  /** The clock does not go back. */
  predicate Ordered(calls: seq<Call>) {
    forall i, j | 0 <= i <= j < |calls| :: calls[i].now <= calls[j].now
  }

  predicate InOrder(calls: seq<Call>, t: int) {
    Ordered(calls) && forall i | 0 <= i < |calls| :: t <= calls[i].now
  }

  function Answers(p: Policy, c: Counts, calls: seq<Call>): seq<bool>
    decreases |calls|
  {
    if calls == [] then [] else [Answer(p, c, calls[0])] + Answers(p, After(p, c, calls[0]), calls[1..])
  }

  function Final(p: Policy, c: Counts, calls: seq<Call>): Counts
    decreases |calls|
  {
    if calls == [] then c else Final(p, After(p, c, calls[0]), calls[1..])
  }

  // -------------------------------------------- bounds that need no clock

  /** Size within the cap, every stored count in 1..limit. */
  ghost predicate Valid(p: Policy, c: Counts) {
    |c| <= p.maxSize && forall k <- c :: 1 <= c[k].count <= p.limit
  }

  lemma MapUpdateSize(c: Counts, k: string, v: WindowCount)
    ensures |c[k := v]| == if k in c then |c| else |c| + 1
  {
  }

  lemma SubmapSize(c: Counts, d: Counts)
    requires c.Keys <= d.Keys
    ensures |c| <= |d| && (c.Keys != d.Keys ==> |c| < |d|)
  {
    assert d.Keys == c.Keys + (d.Keys - c.Keys);
    assert |c.Keys| == |c| && |d.Keys| == |d|;
  }

  /** A window is only opened after eviction has made room. */
  lemma EvictionMakesRoom(p: Policy, c: Counts, call: Call)
    requires p.maxSize > 0 && |c| <= p.maxSize && OpensWindow(p, c, call) && CallOk(p, c, call)
    ensures |Evicted(p, c, call.now, call.victim)[call.key := WindowCount(call.now, 1)]| <= p.maxSize
  {
    var kept := LiveOnly(p, c, call.now);
    SubmapSize(kept, c);
    if |c| >= p.maxSize && |kept| >= p.maxSize {
      SubmapSize(kept - {call.victim}, kept);
    }
    MapUpdateSize(Evicted(p, c, call.now, call.victim), call.key, WindowCount(call.now, 1));
  }

  /** The size cap and the count range hold after every call, at any times at all. */
  lemma {:induction false} RunStaysValid(p: Policy, c: Counts, calls: seq<Call>)
    requires p.maxSize > 0 && Valid(p, c) && Legal(p, c, calls)
    ensures Valid(p, Final(p, c, calls))
    decreases |calls|
  {
    if calls != [] {
      StepStaysValid(p, c, calls[0]);
      RunStaysValid(p, After(p, c, calls[0]), calls[1..]);
    }
  }

  lemma StepStaysValid(p: Policy, c: Counts, call: Call)
    requires p.maxSize > 0 && Valid(p, c) && CallOk(p, c, call)
    ensures Valid(p, After(p, c, call))
  {
    if OpensWindow(p, c, call) {
      EvictionMakesRoom(p, c, call);
    } else if !Unlimited(p, call) {
      MapUpdateSize(c, call.key, WindowCount(c[call.key].start, c[call.key].count + 1));
    }
  }

  /** Windows are not aligned to the clock: each starts at a call for its own key. */
  lemma {:induction false} WindowsStartAtCalls(p: Policy, c: Counts, calls: seq<Call>, key: string)
    requires key in Final(p, c, calls)
    ensures var start := Final(p, c, calls)[key].start;
            || (key in c && c[key].start == start)
            || exists i | 0 <= i < |calls| :: calls[i].key == key && calls[i].now == start
    decreases |calls|
  {
    if calls != [] {
      var next, rest := After(p, c, calls[0]), calls[1..];
      WindowsStartAtCalls(p, next, rest, key);
      var start := Final(p, c, calls)[key].start;
      if i :| 0 <= i < |rest| && rest[i].key == key && rest[i].now == start {
        assert calls[i + 1] == rest[i];
      }
    }
  }

  // ------------------------------------- refinement of an unbounded limiter

  /** The same limiter without a size cap: it never forgets a key. */
  function AfterUncapped(p: Policy, u: Counts, call: Call): Counts {
    if Unlimited(p, call) then u
    else if OpensWindow(p, u, call) then u[call.key := WindowCount(call.now, 1)]
    else if u[call.key].count >= p.limit then u
    else u[call.key := WindowCount(u[call.key].start, u[call.key].count + 1)]
  }

  function AnswersUncapped(p: Policy, u: Counts, calls: seq<Call>): seq<bool>
    decreases |calls|
  {
    if calls == [] then [] else [Answer(p, u, calls[0])] + AnswersUncapped(p, AfterUncapped(p, u, calls[0]), calls[1..])
  }

  /** Whenever the uncapped limiter opens a window, fewer than maxSize windows are open. */
  ghost predicate Roomy(p: Policy, u: Counts, calls: seq<Call>)
    decreases |calls|
  {
    calls == [] ||
    (&& (OpensWindow(p, u, calls[0]) ==> |LiveOnly(p, u, calls[0].now)| < p.maxSize)
     && Roomy(p, AfterUncapped(p, u, calls[0]), calls[1..]))
  }

  /** The two limiters hold the same open windows at t. */
  ghost predicate Agree(p: Policy, c: Counts, u: Counts, t: int) {
    LiveOnly(p, c, t) == LiveOnly(p, u, t)
  }

  lemma AgreeLater(p: Policy, c: Counts, u: Counts, t: int, t': int)
    requires Agree(p, c, u, t) && t <= t'
    ensures Agree(p, c, u, t')
  {
    var lc, lu := LiveOnly(p, c, t), LiveOnly(p, u, t);
    assert LiveOnly(p, c, t') == LiveOnly(p, lc, t');
    assert LiveOnly(p, u, t') == LiveOnly(p, lu, t');
  }

  lemma AgreeSameKey(p: Policy, c: Counts, u: Counts, call: Call)
    requires Agree(p, c, u, call.now)
    ensures OpensWindow(p, c, call) == OpensWindow(p, u, call)
    ensures !OpensWindow(p, u, call) && !Unlimited(p, call) ==> c[call.key] == u[call.key]
    ensures Answer(p, c, call) == Answer(p, u, call)
  {
    var k := call.key;
    assert k in LiveOnly(p, c, call.now) <==> k in LiveOnly(p, u, call.now);
    if k in LiveOnly(p, c, call.now) {
      assert LiveOnly(p, c, call.now)[k] == LiveOnly(p, u, call.now)[k];
    }
  }

  lemma LiveUpdate(p: Policy, c: Counts, k: string, v: WindowCount, t: int)
    ensures LiveOnly(p, c[k := v], t) == if LiveAt(p, v, t) then LiveOnly(p, c, t)[k := v] else LiveOnly(p, c, t) - {k}
  {
  }

  lemma AgreeStep(p: Policy, c: Counts, u: Counts, call: Call)
    requires Agree(p, c, u, call.now)
    requires OpensWindow(p, u, call) ==> |LiveOnly(p, u, call.now)| < p.maxSize
    ensures Agree(p, After(p, c, call), AfterUncapped(p, u, call), call.now)
  {
    AgreeSameKey(p, c, u, call);
    if OpensWindow(p, u, call) {
      var kept := Evicted(p, c, call.now, call.victim);
      assert LiveOnly(p, kept, call.now) == LiveOnly(p, c, call.now);
      LiveUpdate(p, kept, call.key, WindowCount(call.now, 1), call.now);
      LiveUpdate(p, u, call.key, WindowCount(call.now, 1), call.now);
    } else if !Unlimited(p, call) && u[call.key].count < p.limit {
      var v := WindowCount(u[call.key].start, u[call.key].count + 1);
      LiveUpdate(p, c, call.key, v, call.now);
      LiveUpdate(p, u, call.key, v, call.now);
    }
  }

  /** With a clock that does not go back and room for the open windows, the cap
      is invisible: the answers are those of a limiter that never evicts. */
  lemma {:induction false} CappedRefinesUncapped(p: Policy, c: Counts, u: Counts, calls: seq<Call>, t: int)
    requires Agree(p, c, u, t) && InOrder(calls, t) && Roomy(p, u, calls)
    ensures Answers(p, c, calls) == AnswersUncapped(p, u, calls)
    decreases |calls|
  {
    if calls != [] {
      var call := calls[0];
      AgreeLater(p, c, u, t, call.now);
      AgreeSameKey(p, c, u, call);
      AgreeStep(p, c, u, call);
      CappedRefinesUncapped(p, After(p, c, call), AfterUncapped(p, u, call), calls[1..], call.now);
    }
  }

  // ------------------------------------------------------- sliding interval

  /** Calls for key admitted at times in [lo, hi). */
  function Admitted(p: Policy, c: Counts, calls: seq<Call>, key: string, lo: int, hi: int): nat
    decreases |calls|
  {
    if calls == [] then 0
    else
      Bit(calls[0].key == key && lo <= calls[0].now < hi && Answer(p, c, calls[0]))
      + Admitted(p, After(p, c, calls[0]), calls[1..], key, lo, hi)
  }

  /** Times key was thrown out with its window still open, at times in [lo, hi). */
  function Losses(p: Policy, c: Counts, calls: seq<Call>, key: string, lo: int, hi: int): nat
    decreases |calls|
  {
    if calls == [] then 0
    else
      Bit(DropsLive(p, c, calls[0]) && calls[0].victim == key && lo <= calls[0].now < hi)
      + Losses(p, After(p, c, calls[0]), calls[1..], key, lo, hi)
  }

  /** The most a key can still be admitted in [lo, lo + window) from time now on:
      what is left of its open window, and one more window if that one opened
      before lo. */
  function Budget(p: Policy, c: Counts, key: string, lo: int, now: int): int {
    if key in c && LiveAt(p, c[key], now)
    then p.limit - c[key].count + (if c[key].start < lo then p.limit else 0)
    else p.limit
  }

  lemma BudgetLater(p: Policy, c: Counts, key: string, lo: int, now: int, now': int)
    requires p.limit > 0 && Valid(p, c) && now <= now' < lo + p.windowMs
    ensures Budget(p, c, key, lo, now') <= Budget(p, c, key, lo, now)
  {
  }

  /** The allowance of one fresh budget for a call that throws key out live. */
  function Waived(p: Policy, c: Counts, call: Call, key: string): int {
    if DropsLive(p, c, call) && call.victim == key then p.limit else 0
  }

  /** limit for each loss, summed along the run. */
  function Allowance(p: Policy, c: Counts, calls: seq<Call>, key: string, lo: int, hi: int): int
    decreases |calls|
  {
    if calls == [] then 0
    else
      (if lo <= calls[0].now < hi then Waived(p, c, calls[0], key) else 0)
      + Allowance(p, After(p, c, calls[0]), calls[1..], key, lo, hi)
  }

  lemma Tally(limit: int, hit: bool, rest: nat, sum: int)
    requires sum == limit * rest
    ensures (if hit then limit else 0) + sum == limit * (Bit(hit) + rest)
  {
  }

  lemma LossesStep(p: Policy, c: Counts, calls: seq<Call>, key: string, lo: int, hi: int) returns (hit: bool)
    requires calls != []
    ensures var next := After(p, c, calls[0]);
            && Losses(p, c, calls, key, lo, hi) == Bit(hit) + Losses(p, next, calls[1..], key, lo, hi)
            && Allowance(p, c, calls, key, lo, hi)
               == (if hit then p.limit else 0) + Allowance(p, next, calls[1..], key, lo, hi)
  {
    hit := DropsLive(p, c, calls[0]) && calls[0].victim == key && lo <= calls[0].now < hi;
  }

  lemma {:induction false} AllowanceIsLosses(p: Policy, c: Counts, calls: seq<Call>, key: string, lo: int, hi: int)
    ensures Allowance(p, c, calls, key, lo, hi) == p.limit * Losses(p, c, calls, key, lo, hi)
    decreases |calls|
  {
    if calls != [] {
      var next := After(p, c, calls[0]);
      AllowanceIsLosses(p, next, calls[1..], key, lo, hi);
      var hit := LossesStep(p, c, calls, key, lo, hi);
      Tally(p.limit, hit, Losses(p, next, calls[1..], key, lo, hi), Allowance(p, next, calls[1..], key, lo, hi));
    }
  }

  /** One call pays for what it admits, up to one fresh budget per loss. */
  lemma BudgetStep(p: Policy, c: Counts, call: Call, key: string, lo: int)
    requires p.limit > 0 && p.maxSize > 0 && Valid(p, c) && CallOk(p, c, call) && key != ""
    requires lo <= call.now < lo + p.windowMs
    ensures Bit(call.key == key && Answer(p, c, call)) + Budget(p, After(p, c, call), key, lo, call.now)
            <= Budget(p, c, key, lo, call.now) + Waived(p, c, call, key)
  {
  }

  /** No call at or after hi is counted. */
  lemma {:induction false} NoneLater(p: Policy, c: Counts, calls: seq<Call>, key: string, lo: int, hi: int)
    requires forall i | 0 <= i < |calls| :: hi <= calls[i].now
    ensures Admitted(p, c, calls, key, lo, hi) == 0
    decreases |calls|
  {
    if calls != [] {
      NoneLater(p, After(p, c, calls[0]), calls[1..], key, lo, hi);
    }
  }

  lemma {:induction false} AllowanceNotNegative(p: Policy, c: Counts, calls: seq<Call>, key: string, lo: int, hi: int)
    requires p.limit > 0
    ensures Allowance(p, c, calls, key, lo, hi) >= 0
    decreases |calls|
  {
    if calls != [] {
      AllowanceNotNegative(p, After(p, c, calls[0]), calls[1..], key, lo, hi);
    }
  }

  /** What a run admits is paid from the budget and the allowances. */
  lemma {:induction false} BudgetBounds(p: Policy, c: Counts, calls: seq<Call>, key: string, lo: int, now: int)
    requires p.limit > 0 && p.maxSize > 0 && Valid(p, c) && Legal(p, c, calls) && key != ""
    requires lo <= now < lo + p.windowMs && InOrder(calls, now)
    ensures var hi := lo + p.windowMs;
            Admitted(p, c, calls, key, lo, hi) <= Budget(p, c, key, lo, now) + Allowance(p, c, calls, key, lo, hi)
    decreases |calls|
  {
    var hi := lo + p.windowMs;
    if calls == [] {
    } else if calls[0].now >= hi {
      NoneLater(p, c, calls, key, lo, hi);
      AllowanceNotNegative(p, c, calls, key, lo, hi);
    } else {
      var call := calls[0];
      StepStaysValid(p, c, call);
      BudgetLater(p, c, key, lo, now, call.now);
      BudgetStep(p, c, call, key, lo);
      BudgetBounds(p, After(p, c, call), calls[1..], key, lo, call.now);
    }
  }

  /** The calls from the first one at or after lo. */
  function From(calls: seq<Call>, lo: int): seq<Call> {
    if calls != [] && calls[0].now < lo then From(calls[1..], lo) else calls
  }

  /** The state the limiter is in when it gets to them. */
  function StateAt(p: Policy, c: Counts, calls: seq<Call>, lo: int): Counts
    decreases |calls|
  {
    if calls != [] && calls[0].now < lo then StateAt(p, After(p, c, calls[0]), calls[1..], lo) else c
  }

  lemma {:induction false} SkipEarly(p: Policy, c: Counts, calls: seq<Call>, key: string, lo: int, hi: int)
    requires p.maxSize > 0 && Valid(p, c) && Legal(p, c, calls) && Ordered(calls)
    ensures var c', rest := StateAt(p, c, calls, lo), From(calls, lo);
            && Valid(p, c') && Legal(p, c', rest) && InOrder(rest, lo)
            && Admitted(p, c, calls, key, lo, hi) == Admitted(p, c', rest, key, lo, hi)
            && Losses(p, c, calls, key, lo, hi) == Losses(p, c', rest, key, lo, hi)
    decreases |calls|
  {
    if calls != [] && calls[0].now < lo {
      StepStaysValid(p, c, calls[0]);
      SkipEarly(p, After(p, c, calls[0]), calls[1..], key, lo, hi);
    }
  }

  /** The same from lo on, for windows of any length. */
  lemma BudgetFrom(p: Policy, c: Counts, calls: seq<Call>, key: string, lo: int)
    requires p.limit > 0 && p.maxSize > 0 && Valid(p, c) && Legal(p, c, calls) && key != "" && InOrder(calls, lo)
    ensures var hi := lo + p.windowMs;
            Admitted(p, c, calls, key, lo, hi) <= Budget(p, c, key, lo, lo) + Allowance(p, c, calls, key, lo, hi)
  {
    if p.windowMs > 0 {
      BudgetBounds(p, c, calls, key, lo, lo);
    } else {
      NoneLater(p, c, calls, key, lo, lo + p.windowMs);
      AllowanceNotNegative(p, c, calls, key, lo, lo + p.windowMs);
    }
  }

  lemma BudgetAtMost(p: Policy, c: Counts, key: string, lo: int)
    requires p.limit > 0 && Valid(p, c)
    ensures Budget(p, c, key, lo, lo) <= 2 * p.limit - 1
    ensures !(key in c && LiveAt(p, c[key], lo)) ==> Budget(p, c, key, lo, lo) == p.limit
  {
  }

  /** Any interval of one window's length admits a key at most 2 * limit - 1 times,
      plus limit for each time the key was thrown out live inside the interval. */
  lemma SlidingBound(p: Policy, c: Counts, calls: seq<Call>, key: string, lo: int)
    requires p.limit > 0 && p.maxSize > 0 && Valid(p, c) && Legal(p, c, calls) && key != "" && Ordered(calls)
    ensures var hi := lo + p.windowMs;
            Admitted(p, c, calls, key, lo, hi) <= 2 * p.limit - 1 + p.limit * Losses(p, c, calls, key, lo, hi)
  {
    var hi := lo + p.windowMs;
    SkipEarly(p, c, calls, key, lo, hi);
    var c', rest := StateAt(p, c, calls, lo), From(calls, lo);
    BudgetFrom(p, c', rest, key, lo);
    BudgetAtMost(p, c', key, lo);
    AllowanceIsLosses(p, c', rest, key, lo, hi);
  }

  /** A window that opens at now admits at most limit, plus limit per live loss. */
  lemma WindowBound(p: Policy, c: Counts, calls: seq<Call>, key: string, now: int)
    requires p.limit > 0 && p.maxSize > 0 && Valid(p, c) && Legal(p, c, calls) && key != "" && InOrder(calls, now)
    requires !(key in c && LiveAt(p, c[key], now))
    ensures var hi := now + p.windowMs;
            Admitted(p, c, calls, key, now, hi) <= p.limit + p.limit * Losses(p, c, calls, key, now, hi)
  {
    BudgetFrom(p, c, calls, key, now);
    BudgetAtMost(p, c, key, now);
    AllowanceIsLosses(p, c, calls, key, now, now + p.windowMs);
  }

  // ------------------------------------------------------------ retry later

  /** Calls for other keys leave a window alone or throw it out. */
  lemma {:induction false} OthersKeepOrDrop(p: Policy, c: Counts, calls: seq<Call>, key: string)
    requires forall i | 0 <= i < |calls| :: calls[i].key != key
    ensures var c' := Final(p, c, calls); key in c' ==> key in c && c'[key] == c[key]
    decreases |calls|
  {
    if calls != [] {
      OthersKeepOrDrop(p, After(p, c, calls[0]), calls[1..], key);
    }
  }

  /** A refused caller whose key nobody else uses is admitted again exactly when its window was
      thrown out or is over: one window after it started, which may be after the caller's
      own reading. A window that had started by then is over one window after the reading. */
  lemma RefusedIsAdmittedIff(p: Policy, c: Counts, call: Call, between: seq<Call>, again: Call)
    requires !Answer(p, c, call) && again.key == call.key
    requires forall i | 0 <= i < |between| :: between[i].key != call.key
    ensures var c' := Final(p, After(p, c, call), between);
            Answer(p, c', again) <==> again.key !in c' || again.now >= c[call.key].start + p.windowMs
    ensures c[call.key].start <= call.now && again.now >= call.now + p.windowMs ==>
              Answer(p, Final(p, After(p, c, call), between), again)
  {
    OthersKeepOrDrop(p, After(p, c, call), between, call.key);
  }

  // --------------------------------------------------------------- in place

  class FixedWindowLimiter {
    const policy: Policy
    var counts: Counts

    constructor (windowMs: int, limit: int, maxSize: int)
      ensures policy == Policy(windowMs, limit, if maxSize <= 0 then 100_000 else maxSize)
      ensures counts == map[] && Valid(policy, counts) && policy.maxSize > 0
    {
      policy := Policy(windowMs, limit, if maxSize <= 0 then 100_000 else maxSize);
      counts := map[];
    }

    method Allow(key: string, now: int) returns (ok: bool, ghost victim: string)
      requires policy.maxSize > 0 && Valid(policy, counts)
      modifies this`counts
      ensures Valid(policy, counts)
      ensures var call := Call(key, now, victim);
              && CallOk(policy, old(counts), call)
              && counts == After(policy, old(counts), call) && ok == Answer(policy, old(counts), call)
    {
      victim := "";
      if policy.limit <= 0 || key == "" {
        return true, victim;
      }
      if key !in counts || now - counts[key].start >= policy.windowMs {
        if |counts| >= policy.maxSize {
          victim := EvictLocked(now);
        }
        counts := counts[key := WindowCount(now, 1)];
        StepStaysValid(policy, old(counts), Call(key, now, victim));
        return true, victim;
      }
      var wc := counts[key];
      if wc.count >= policy.limit {
        return false, victim;
      }
      counts := counts[key := WindowCount(wc.start, wc.count + 1)];
      StepStaysValid(policy, old(counts), Call(key, now, victim));
      return true, victim;
    }

    method EvictLocked(now: int) returns (ghost victim: string)
      requires |counts| >= policy.maxSize > 0
      modifies this`counts
      ensures counts == Evicted(policy, old(counts), now, victim)
      ensures |LiveOnly(policy, old(counts), now)| >= policy.maxSize ==> victim in LiveOnly(policy, old(counts), now)
    {
      victim := "";
      var todo := counts.Keys;
      while todo != {}
        invariant todo <= old(counts).Keys
        invariant counts.Keys == set k <- old(counts).Keys | k in todo || LiveAt(policy, old(counts)[k], now)
        invariant forall k <- counts :: counts[k] == old(counts)[k]
        decreases todo
      {
        var k :| k in todo;
        if now - counts[k].start >= policy.windowMs {
          counts := counts - {k};
        }
        todo := todo - {k};
      }
      assert counts == LiveOnly(policy, old(counts), now);
      if |counts| < policy.maxSize {
        return victim;
      }
      var k :| k in counts;
      victim := k;
      counts := counts - {k};
    }
  }
}
