/** The limiter when calls are served out of clock order: the time is read before
    the lock is taken, so a call can be served after one with a later reading.

    Windows still start at least one window apart. A late call spends from a window
    that opened after its own reading, so more windows can meet one interval.
*/
module LateCalls {
  import opened Prelude
  import opened RateLimiter

  /** No call is served more than d behind the latest reading served before it. */
  predicate Late(calls: seq<Call>, d: nat) {
    forall i, j | 0 <= i < j < |calls| :: calls[i].now - d <= calls[j].now
  }

  /** Nor more than d behind m. */
  predicate WithinReach(calls: seq<Call>, m: int, d: nat) {
    Late(calls, d) && forall i | 0 <= i < |calls| :: m - d <= calls[i].now
  }

  function Latest(m: int, now: int): int { if m < now then now else m }

  lemma ReachTail(calls: seq<Call>, m: int, d: nat)
    requires WithinReach(calls, m, d) && calls != []
    ensures WithinReach(calls[1..], Latest(m, calls[0].now), d)
  {
  }

  /** Order is lateness zero. */
  lemma OrderedIsLateByNone(calls: seq<Call>)
    ensures Ordered(calls) <==> Late(calls, 0)
  {
  }

  // ------------------------------------------------------------------- losses

  /** The call throws key out while a call late by d could still belong to its window. */
  predicate LosesLate(p: Policy, c: Counts, call: Call, key: string, d: nat) {
    key in c && key !in After(p, c, call) && call.now - c[key].start < p.windowMs + d
  }

  function LateLosses(p: Policy, c: Counts, calls: seq<Call>, key: string, d: nat, lo: int, hi: int): nat
    decreases |calls|
  {
    if calls == [] then 0
    else
      Bit(LosesLate(p, c, calls[0], key, d) && lo <= calls[0].now < hi)
      + LateLosses(p, After(p, c, calls[0]), calls[1..], key, d, lo, hi)
  }

  // ------------------------------------------------------------------ windows

  /** How many starts a window apart fit from y on, before end. */
  function Starts(w: int, y: int, end: int): nat
    requires w > 0
    decreases end - y
  {
    if y >= end then 0 else 1 + Starts(w, y + w, end)
  }

  lemma {:induction false} StartsFall(w: int, y: int, y': int, end: int)
    requires w > 0 && y <= y'
    ensures Starts(w, y', end) <= Starts(w, y, end)
    decreases end - y
  {
    if y' < end {
      StartsFall(w, y + w, y' + w, end);
    }
  }

  lemma {:induction false} StartsCount(w: int, y: int, end: int)
    requires w > 0 && y < end
    ensures Starts(w, y, end) == (end - 1 - y) / w + 1
    decreases end - y
  {
    if y + w < end {
      StartsCount(w, y + w, end);
      OneLess(end - 1 - y, w);
    } else {
      assert (end - 1 - y) / w == 0;
    }
  }

  lemma QuotientIs(a: int, w: int, q: int)
    requires w > 0 && w * q <= a < w * q + w
    ensures a / w == q
  {
    var r := a / w;
    assert w * r <= a < w * r + w;
    if r < q {
      TimesMono(r + 1, q, w);
    } else if q < r {
      TimesMono(q + 1, r, w);
    }
  }

  lemma OneLess(a: int, w: int)
    requires w > 0
    ensures a / w == (a - w) / w + 1
  {
    var q := (a - w) / w;
    assert w * q <= a - w < w * q + w;
    OneMore(q, w);
    QuotientIs(a, w, q + 1);
  }

  /** Windows that a call with a reading in [lo, lo + window) can spend from. */
  function Reachable(p: Policy, d: nat): nat
    requires p.windowMs > 0
  {
    (2 * p.windowMs + d - 2) / p.windowMs + 1
  }

  /** What such windows admit at most: the starts are a window apart, so at most one of them
      is itself admitted in the interval. */
  function Bound(p: Policy, d: nat): int
    requires p.windowMs > 0
  {
    Reachable(p, d) * (p.limit - 1) + 1
  }

  // ---------------------------------------------------------------- potential

  /** The first and the last start, exclusive, of a window that matters to the interval. */
  function First(p: Policy, lo: int): int { lo - p.windowMs + 1 }

  function End(p: Policy, lo: int, d: nat): int { lo + p.windowMs + d }

  function AtLeast(x: int, y: int): int { if x < y then y else x }

  /** What windows that open at x or later can admit in the interval. */
  function Fresh(p: Policy, x: int, lo: int, d: nat): int
    requires p.windowMs > 0
  {
    Starts(p.windowMs, AtLeast(x, First(p, lo)), End(p, lo, d)) * (p.limit - 1) + Bit(x < lo + p.windowMs)
  }

  /** What can still be admitted, with m the latest reading served. */
  function Potential(p: Policy, c: Counts, key: string, lo: int, d: nat, m: int): int
    requires p.windowMs > 0
  {
    if key in c then
      (if First(p, lo) <= c[key].start < End(p, lo, d) then p.limit - c[key].count else 0)
      + Fresh(p, c[key].start + p.windowMs, lo, d)
    else Fresh(p, m - d, lo, d)
  }

  lemma TimesMono(a: int, b: int, k: int)
    requires a <= b && k >= 0
    ensures a * k <= b * k
  {
  }

  lemma FreshFalls(p: Policy, x: int, y: int, lo: int, d: nat)
    requires p.windowMs > 0 && p.limit > 0 && x <= y
    ensures 0 <= Fresh(p, y, lo, d) <= Fresh(p, x, lo, d)
  {
    var w, first, end := p.windowMs, First(p, lo), End(p, lo, d);
    StartsFall(w, AtLeast(x, first), AtLeast(y, first), end);
    TimesMono(Starts(w, AtLeast(y, first), end), Starts(w, AtLeast(x, first), end), p.limit - 1);
    TimesMono(0, Starts(w, AtLeast(y, first), end), p.limit - 1);
  }

  lemma FreshAtMost(p: Policy, x: int, lo: int, d: nat)
    requires p.windowMs > 0 && p.limit > 0
    ensures Fresh(p, x, lo, d) <= Bound(p, d)
  {
    var first := First(p, lo);
    StartsCount(p.windowMs, first, End(p, lo, d));
    assert Fresh(p, first, lo, d) == Bound(p, d);
    if x <= first {
      assert AtLeast(x, first) == first;
    } else {
      FreshFalls(p, first, x, lo, d);
    }
  }

  lemma PotentialAtMost(p: Policy, c: Counts, key: string, lo: int, d: nat, m: int)
    requires p.windowMs > 0 && p.limit > 0 && Valid(p, c)
    ensures 0 <= Potential(p, c, key, lo, d, m) <= Bound(p, d)
  {
    if key in c {
      var s := c[key].start;
      OpeningIsPaid(p, s, s, lo, d);
      FreshFalls(p, s + p.windowMs, s + p.windowMs, lo, d);
      FreshAtMost(p, s, lo, d);
    } else {
      FreshFalls(p, m - d, m - d, lo, d);
      FreshAtMost(p, m - d, lo, d);
    }
  }

  /** A window opened at t is paid for by what windows from x on could admit. */
  lemma OpeningIsPaid(p: Policy, x: int, t: int, lo: int, d: nat)
    requires p.windowMs > 0 && p.limit > 0 && x <= t
    ensures Bit(lo <= t < lo + p.windowMs) + (if First(p, lo) <= t < End(p, lo, d) then p.limit - 1 else 0)
            + Fresh(p, t + p.windowMs, lo, d) <= Fresh(p, x, lo, d)
  {
    var w, first, end := p.windowMs, First(p, lo), End(p, lo, d);
    FreshFalls(p, x, t, lo, d);
    if first <= t < end {
      assert Starts(w, t, end) == 1 + Starts(w, t + w, end);
      assert AtLeast(t, first) == t && AtLeast(t + w, first) == t + w;
      OneMore(Starts(w, t + w, end), p.limit - 1);
    } else {
      FreshSkips(p, t, lo, d);
    }
  }

  lemma OneMore(n: int, k: int)
    ensures (1 + n) * k == k + n * k
  {
  }

  lemma FreshSkips(p: Policy, t: int, lo: int, d: nat)
    requires p.windowMs > 0 && p.limit > 0 && !(First(p, lo) <= t < End(p, lo, d))
    ensures Bit(lo <= t < lo + p.windowMs) + Fresh(p, t + p.windowMs, lo, d) <= Fresh(p, t, lo, d)
  {
    FreshFalls(p, t, t + p.windowMs, lo, d);
  }

  // ---------------------------------------------------------------- one call

  /** A call for key is paid for by the potential. */
  lemma OwnCallIsPaid(p: Policy, c: Counts, call: Call, lo: int, d: nat, m: int)
    requires p.windowMs > 0 && p.limit > 0 && Valid(p, c) && call.key != "" && m - d <= call.now
    requires call.key in c ==> c[call.key].start <= m
    ensures Bit(lo <= call.now < lo + p.windowMs && Answer(p, c, call))
            + Potential(p, After(p, c, call), call.key, lo, d, Latest(m, call.now))
            <= Potential(p, c, call.key, lo, d, m)
  {
    var key, t := call.key, call.now;
    if OpensWindow(p, c, call) {
      var x := if key in c then c[key].start + p.windowMs else m - d;
      OpeningIsPaid(p, x, t, lo, d);
    }
  }

  lemma OtherKeepsWindow(p: Policy, c: Counts, call: Call, key: string)
    requires call.key != key && key in After(p, c, call)
    ensures key in c && After(p, c, call)[key] == c[key]
  {
  }

  /** A call for another key leaves the potential alone, or throws the window out late. */
  lemma OtherCallIsPaid(p: Policy, c: Counts, call: Call, key: string, lo: int, d: nat, m: int)
    requires p.windowMs > 0 && p.limit > 0 && Valid(p, c) && call.key != key
    ensures Potential(p, After(p, c, call), key, lo, d, Latest(m, call.now))
            <= Potential(p, c, key, lo, d, m) + (if LosesLate(p, c, call, key, d) then Bound(p, d) else 0)
  {
    var m' := Latest(m, call.now);
    if key in After(p, c, call) {
      OtherKeepsWindow(p, c, call, key);
    } else if key in c {
      PotentialAtMost(p, c, key, lo, d, m);
      FreshAtMost(p, m' - d, lo, d);
      if !LosesLate(p, c, call, key, d) {
        FreshFalls(p, c[key].start + p.windowMs, m' - d, lo, d);
      }
    } else {
      FreshFalls(p, m - d, m' - d, lo, d);
    }
  }

  lemma CallIsPaid(p: Policy, c: Counts, call: Call, key: string, lo: int, d: nat, m: int)
    requires p.windowMs > 0 && p.limit > 0 && Valid(p, c) && key != "" && m - d <= call.now
    requires key in c ==> c[key].start <= m
    ensures Bit(call.key == key && lo <= call.now < lo + p.windowMs && Answer(p, c, call))
            + Potential(p, After(p, c, call), key, lo, d, Latest(m, call.now))
            <= Potential(p, c, key, lo, d, m) + (if LosesLate(p, c, call, key, d) then Bound(p, d) else 0)
    ensures key in After(p, c, call) ==> After(p, c, call)[key].start <= Latest(m, call.now)
  {
    PotentialAtMost(p, c, key, lo, d, m);
    if call.key == key {
      OwnCallIsPaid(p, c, call, lo, d, m);
    } else {
      OtherCallIsPaid(p, c, call, key, lo, d, m);
      if key in After(p, c, call) {
        OtherKeepsWindow(p, c, call, key);
      }
    }
  }

  // ------------------------------------------------------------------- a run

  /** One bound for each loss, summed along the run. */
  function LateAllowance(p: Policy, c: Counts, calls: seq<Call>, key: string, d: nat, lo: int, hi: int): int
    requires p.windowMs > 0
    decreases |calls|
  {
    if calls == [] then 0
    else
      (if LosesLate(p, c, calls[0], key, d) && lo <= calls[0].now < hi then Bound(p, d) else 0)
      + LateAllowance(p, After(p, c, calls[0]), calls[1..], key, d, lo, hi)
  }

  lemma {:induction false} LateAllowanceIsLosses(p: Policy, c: Counts, calls: seq<Call>, key: string, d: nat,
      lo: int, hi: int)
    requires p.windowMs > 0
    ensures LateAllowance(p, c, calls, key, d, lo, hi) == Bound(p, d) * LateLosses(p, c, calls, key, d, lo, hi)
    decreases |calls|
  {
    if calls != [] {
      var next := After(p, c, calls[0]);
      LateAllowanceIsLosses(p, next, calls[1..], key, d, lo, hi);
      Tally(Bound(p, d), LosesLate(p, c, calls[0], key, d) && lo <= calls[0].now < hi,
            LateLosses(p, next, calls[1..], key, d, lo, hi), LateAllowance(p, next, calls[1..], key, d, lo, hi));
    }
  }

  lemma {:induction false} LateAllowanceNotNegative(p: Policy, c: Counts, calls: seq<Call>, key: string, d: nat,
      lo: int, hi: int)
    requires p.windowMs > 0 && p.limit > 0
    ensures LateAllowance(p, c, calls, key, d, lo, hi) >= 0
    decreases |calls|
  {
    TimesMono(0, Reachable(p, d), p.limit - 1);
    if calls != [] {
      LateAllowanceNotNegative(p, After(p, c, calls[0]), calls[1..], key, d, lo, hi);
    }
  }

  /** From the first reading at or after lo on, what is admitted is paid for. */
  lemma {:induction false} RunIsPaid(p: Policy, c: Counts, calls: seq<Call>, key: string, lo: int, d: nat, m: int)
    requires p.windowMs > 0 && p.limit > 0 && p.maxSize > 0 && Valid(p, c) && Legal(p, c, calls) && key != ""
    requires WithinReach(calls, m, d) && (key in c ==> c[key].start <= m)
    requires forall i | 0 <= i < |calls| :: lo - d <= calls[i].now
    ensures Admitted(p, c, calls, key, lo, lo + p.windowMs)
            <= Potential(p, c, key, lo, d, m) + LateAllowance(p, c, calls, key, d, lo - d, End(p, lo, d))
    decreases |calls|
  {
    PotentialAtMost(p, c, key, lo, d, m);
    if calls == [] {
    } else if calls[0].now >= End(p, lo, d) {
      NoneLater(p, c, calls, key, lo, lo + p.windowMs);
      LateAllowanceNotNegative(p, c, calls, key, d, lo - d, End(p, lo, d));
    } else {
      var call, m' := calls[0], Latest(m, calls[0].now);
      StepStaysValid(p, c, call);
      CallIsPaid(p, c, call, key, lo, d, m);
      ReachTail(calls, m, d);
      RunIsPaid(p, After(p, c, call), calls[1..], key, lo, d, m');
    }
  }

  /** With what is thrown out late paid for bound by bound. */
  lemma {:induction false} BoundFrom(p: Policy, c: Counts, calls: seq<Call>, key: string, lo: int, d: nat, m: int)
    requires p.windowMs > 0 && p.limit > 0 && p.maxSize > 0 && Valid(p, c) && Legal(p, c, calls) && key != ""
    requires WithinReach(calls, m, d) && (key in c ==> c[key].start <= m)
    ensures Admitted(p, c, calls, key, lo, lo + p.windowMs)
            <= Bound(p, d) + LateAllowance(p, c, calls, key, d, lo - d, End(p, lo, d))
    decreases |calls|
  {
    PotentialAtMost(p, c, key, lo, d, m);
    if calls == [] {
    } else if calls[0].now < lo {
      var call := calls[0];
      StepStaysValid(p, c, call);
      CallIsPaid(p, c, call, key, lo, d, m);
      ReachTail(calls, m, d);
      BoundFrom(p, After(p, c, call), calls[1..], key, lo, d, Latest(m, call.now));
    } else {
      RunIsPaid(p, c, calls, key, lo, d, m);
    }
  }

  /** With calls late by at most d, any interval of one window's length admits a key at most
      Bound(p, d) times, and as much again for each time the key was thrown out while a
      late call could still have spent from its window. m is the latest reading served before. */
  lemma LateBound(p: Policy, c: Counts, calls: seq<Call>, key: string, lo: int, d: nat, m: int)
    requires p.windowMs > 0 && p.limit > 0 && p.maxSize > 0 && Valid(p, c) && Legal(p, c, calls) && key != ""
    requires WithinReach(calls, m, d) && (key in c ==> c[key].start <= m)
    ensures Admitted(p, c, calls, key, lo, lo + p.windowMs)
            <= Bound(p, d) * (1 + LateLosses(p, c, calls, key, d, lo - d, lo + p.windowMs + d))
  {
    BoundFrom(p, c, calls, key, lo, d, m);
    LateAllowanceIsLosses(p, c, calls, key, d, lo - d, End(p, lo, d));
    OneMoreTimes(Bound(p, d), LateLosses(p, c, calls, key, d, lo - d, End(p, lo, d)));
  }

  lemma OneMoreTimes(k: int, n: int)
    ensures k * (1 + n) == k + k * n
  {
  }

  // ------------------------------------------------------------ it is attained

  /** n calls for one key at one instant. */
  function Burst(key: string, now: int, n: nat): seq<Call> { seq(n, _ => Call(key, now, key)) }

  lemma AdmittedFirst(p: Policy, c: Counts, call: Call, rest: seq<Call>, key: string, lo: int, hi: int)
    ensures Admitted(p, c, [call] + rest, key, lo, hi)
            == Bit(call.key == key && lo <= call.now < hi && Answer(p, c, call))
               + Admitted(p, After(p, c, call), rest, key, lo, hi)
  {
  }

  lemma SpendsOne(p: Policy, c: Counts, call: Call) returns (c': Counts)
    requires p.limit > 0 && call.key != "" && call.key in c && LiveAt(p, c[call.key], call.now)
            && c[call.key].count < p.limit
    ensures c' == c[call.key := WindowCount(c[call.key].start, c[call.key].count + 1)] == After(p, c, call)
    ensures Answer(p, c, call)
  {
    c' := c[call.key := WindowCount(c[call.key].start, c[call.key].count + 1)];
  }

  lemma CountsUp(c: Counts, key: string, s: int, a: nat, b: nat)
    ensures c[key := WindowCount(s, a)][key := WindowCount(s, b)] == c[key := WindowCount(s, b)]
  {
  }

  /** A burst into an open window is admitted while the count allows. */
  lemma {:induction false} BurstAdmitted(p: Policy, c: Counts, key: string, now: int, n: nat, rest: seq<Call>,
                                         lo: int, hi: int)
    requires p.limit > 0 && key != "" && key in c && LiveAt(p, c[key], now) && c[key].count + n <= p.limit
    requires lo <= now < hi
    ensures var c' := c[key := WindowCount(c[key].start, c[key].count + n)];
            Admitted(p, c, Burst(key, now, n) + rest, key, lo, hi) == n + Admitted(p, c', rest, key, lo, hi)
    decreases n
  {
    if n == 0 {
      assert Burst(key, now, n) + rest == rest;
      assert c[key := WindowCount(c[key].start, c[key].count)] == c;
    } else {
      var call, more := Call(key, now, key), Burst(key, now, n - 1) + rest;
      assert Burst(key, now, n) + rest == [call] + more;
      AdmittedFirst(p, c, call, more, key, lo, hi);
      var c1 := SpendsOne(p, c, call);
      BurstAdmitted(p, c1, key, now, n - 1, rest, lo, hi);
      CountsUp(c, key, c[key].start, c[key].count + 1, c[key].count + n);
    }
  }

  /** A limiter that serves one key never drops a live one. */
  lemma {:induction false} SoloKeepsWindows(p: Policy, c: Counts, calls: seq<Call>, key: string, lo: int, hi: int)
    requires p.maxSize > 0 && c.Keys <= {key} && forall i | 0 <= i < |calls| :: calls[i].key == key
    ensures Legal(p, c, calls) && Losses(p, c, calls, key, lo, hi) == 0
    decreases |calls|
  {
    if calls != [] {
      if OpensWindow(p, c, calls[0]) {
        assert LiveOnly(p, c, calls[0].now) == map[];
      }
      SoloKeepsWindows(p, After(p, c, calls[0]), calls[1..], key, lo, hi);
    }
  }

  /** When a window opened at s is spent: in the interval, and late if it opened after it. */
  function SpentAt(p: Policy, s: int, lo: int): int {
    if s < lo then lo else if s < lo + p.windowMs then s else lo + p.windowMs - 1
  }

  /** n windows in a row from s on, each opened and then spent to its limit. */
  function LateSpike(p: Policy, key: string, s: int, lo: int, n: nat): seq<Call>
    requires p.limit > 0
    decreases n
  {
    if n == 0 then []
    else
      [Call(key, s, key)]
      + (Burst(key, SpentAt(p, s, lo), p.limit - 1) + LateSpike(p, key, s + p.windowMs, lo, n - 1))
  }

  function Gain(p: Policy, s: int, lo: int, n: nat): int
    decreases n
  {
    if n == 0 then 0 else Bit(lo <= s < lo + p.windowMs) + (p.limit - 1) + Gain(p, s + p.windowMs, lo, n - 1)
  }

  lemma {:induction false} SpikeGains(p: Policy, c: Counts, key: string, s: int, lo: int, n: nat)
    requires p.windowMs > 0 && p.limit > 0 && p.maxSize > 0 && key != "" && First(p, lo) <= s
    requires c.Keys <= {key} && (key in c ==> c[key].start + p.windowMs <= s)
    ensures Admitted(p, c, LateSpike(p, key, s, lo, n), key, lo, lo + p.windowMs) == Gain(p, s, lo, n)
    decreases n
  {
    if n > 0 {
      var more := LateSpike(p, key, s + p.windowMs, lo, n - 1);
      var c' := WindowGains(p, c, key, s, lo, more);
      SpikeGains(p, c', key, s + p.windowMs, lo, n - 1);
    }
  }

  lemma WindowGains(p: Policy, c: Counts, key: string, s: int, lo: int, more: seq<Call>) returns (c': Counts)
    requires p.windowMs > 0 && p.limit > 0 && p.maxSize > 0 && key != "" && First(p, lo) <= s
    requires c.Keys <= {key} && (key in c ==> c[key].start + p.windowMs <= s)
    ensures c'.Keys == {key} && c'[key].start == s
    ensures var hi := lo + p.windowMs;
            Admitted(p, c, [Call(key, s, key)] + (Burst(key, SpentAt(p, s, lo), p.limit - 1) + more), key, lo, hi)
            == Bit(lo <= s < hi) + (p.limit - 1) + Admitted(p, c', more, key, lo, hi)
  {
    var hi, t, open := lo + p.windowMs, SpentAt(p, s, lo), Call(key, s, key);
    var c1 := After(p, c, open);
    OpenedAlone(p, c, key, s);
    AdmittedFirst(p, c, open, Burst(key, t, p.limit - 1) + more, key, lo, hi);
    BurstAdmitted(p, c1, key, t, p.limit - 1, more, lo, hi);
    c' := c1[key := WindowCount(s, p.limit)];
  }

  lemma OpenedAlone(p: Policy, c: Counts, key: string, s: int)
    requires p.windowMs > 0 && p.limit > 0 && p.maxSize > 0 && key != ""
    requires c.Keys <= {key} && (key in c ==> c[key].start + p.windowMs <= s)
    ensures var call := Call(key, s, key);
            OpensWindow(p, c, call) && After(p, c, call).Keys == {key} && After(p, c, call)[key] == WindowCount(s, 1)
  {
  }

  lemma {:induction false} GainAfter(p: Policy, s: int, lo: int, n: nat)
    requires p.windowMs > 0 && lo + p.windowMs <= s
    ensures Gain(p, s, lo, n) == n * (p.limit - 1)
    decreases n
  {
    if n > 0 {
      GainAfter(p, s + p.windowMs, lo, n - 1);
      OneMore(n - 1, p.limit - 1);
    }
  }

  /** Exactly one of the starts falls into the interval. */
  lemma GainIsBound(p: Policy, lo: int, d: nat)
    requires p.windowMs > 0 && p.limit > 0
    ensures Gain(p, First(p, lo), lo, Reachable(p, d)) == Bound(p, d)
  {
    var w, n, k := p.windowMs, Reachable(p, d), p.limit - 1;
    ReachableAtLeast(p, d);
    if w == 1 {
      GainAfter(p, lo + w, lo, n - 1);
      OneMore(n - 1, k);
    } else {
      GainAfter(p, lo + 1 + w, lo, n - 2);
      OneMore(n - 2, k);
      OneMore(n - 1, k);
    }
  }

  lemma ReachableAtLeast(p: Policy, d: nat)
    requires p.windowMs > 0
    ensures Reachable(p, d) >= 1 && (p.windowMs >= 2 ==> Reachable(p, d) >= 2)
    ensures p.windowMs >= 2 && d <= 1 ==> Reachable(p, d) == 2
    ensures p.windowMs >= 2 && d >= 2 ==> Reachable(p, d) >= 3
  {
  }

  /** The least reading in a spike from s on. */
  function Least(p: Policy, s: int, lo: int): int { if s < lo + p.windowMs then s else lo + p.windowMs - 1 }

  lemma {:induction false} SpikeIsLate(p: Policy, key: string, s: int, lo: int, n: nat, d: nat)
    requires p.windowMs > 0 && p.limit > 0 && First(p, lo) <= s && n <= Starts(p.windowMs, s, End(p, lo, d))
    ensures Late(LateSpike(p, key, s, lo, n), d)
    ensures forall i | 0 <= i < |LateSpike(p, key, s, lo, n)| ::
              LateSpike(p, key, s, lo, n)[i].key == key && Least(p, s, lo) <= LateSpike(p, key, s, lo, n)[i].now
    decreases n
  {
    if n > 0 {
      var tail := LateSpike(p, key, s + p.windowMs, lo, n - 1);
      var head := [Call(key, s, key)] + Burst(key, SpentAt(p, s, lo), p.limit - 1);
      assert LateSpike(p, key, s, lo, n) == head + tail;
      SpikeIsLate(p, key, s + p.windowMs, lo, n - 1, d);
      HeadIsLate(p, key, s, lo, d);
      LateConcat(head, tail, d, s + p.windowMs);
    }
  }

  lemma HeadIsLate(p: Policy, key: string, s: int, lo: int, d: nat)
    requires p.windowMs > 0 && p.limit > 0 && First(p, lo) <= s < End(p, lo, d)
    ensures var head := [Call(key, s, key)] + Burst(key, SpentAt(p, s, lo), p.limit - 1);
            && Late(head, d)
            && forall i | 0 <= i < |head| ::
                 head[i].key == key && Least(p, s, lo) <= head[i].now <= s + p.windowMs
  {
  }

  lemma LateConcat(a: seq<Call>, b: seq<Call>, d: nat, m: int)
    requires Late(a, d) && Late(b, d)
    requires (forall i | 0 <= i < |a| :: a[i].now <= m) && (forall i | 0 <= i < |b| :: m - d <= b[i].now)
    ensures Late(a + b, d)
  {
  }

  lemma {:induction false} SoloLosesNone(p: Policy, c: Counts, calls: seq<Call>, key: string, d: nat, lo: int, hi: int)
    requires forall i | 0 <= i < |calls| :: calls[i].key == key
    ensures LateLosses(p, c, calls, key, d, lo, hi) == 0
    decreases |calls|
  {
    if calls != [] {
      SoloLosesNone(p, After(p, c, calls[0]), calls[1..], key, d, lo, hi);
    }
  }

  /** For every lateness, window and limit some run on a new limiter, with nothing thrown out,
      is admitted exactly that often. */
  lemma LateBoundIsAttained(p: Policy, key: string, lo: int, d: nat)
    requires p.windowMs > 0 && p.limit > 0 && p.maxSize > 0 && key != ""
    ensures var calls := LateSpike(p, key, First(p, lo), lo, Reachable(p, d));
            && Legal(p, map[], calls) && Late(calls, d)
            && LateLosses(p, map[], calls, key, d, lo - d, lo + p.windowMs + d) == 0
            && Admitted(p, map[], calls, key, lo, lo + p.windowMs) == Bound(p, d)
  {
    var s, n := First(p, lo), Reachable(p, d);
    StartsCount(p.windowMs, s, End(p, lo, d));
    SpikeIsLate(p, key, s, lo, n, d);
    var calls := LateSpike(p, key, s, lo, n);
    SoloKeepsWindows(p, map[], calls, key, lo, lo + p.windowMs);
    SoloLosesNone(p, map[], calls, key, d, lo - d, lo + p.windowMs + d);
    SpikeGains(p, map[], key, s, lo, n);
    GainIsBound(p, lo, d);
  }

  /** In clock order the bound is twice the limit less one, and is attained. */
  lemma SlidingBoundIsAttained(p: Policy, key: string, lo: int)
    requires p.limit > 0 && p.maxSize > 0 && p.windowMs >= 2 && key != ""
    ensures var calls := LateSpike(p, key, First(p, lo), lo, 2);
            && Legal(p, map[], calls) && Ordered(calls) && Losses(p, map[], calls, key, lo, lo + p.windowMs) == 0
            && Admitted(p, map[], calls, key, lo, lo + p.windowMs) == 2 * p.limit - 1
  {
    var calls := LateSpike(p, key, First(p, lo), lo, 2);
    ReachableAtLeast(p, 0);
    StartsCount(p.windowMs, First(p, lo), End(p, lo, 0));
    SpikeIsLate(p, key, First(p, lo), lo, 2, 0);
    OrderedIsLateByNone(calls);
    SoloKeepsWindows(p, map[], calls, key, lo, lo + p.windowMs);
    LateBoundIsAttained(p, key, lo, 0);
  }

  /** A run on a new limiter, late by at most d, that throws key out of no window it could spend from. */
  ghost predicate Lossless(p: Policy, calls: seq<Call>, key: string, lo: int, d: nat) {
    && key != "" && Legal(p, map[], calls) && Late(calls, d)
    && LateLosses(p, map[], calls, key, d, lo - d, lo + p.windowMs + d) == 0
  }

  ghost predicate TwoBudgets(p: Policy, d: nat) {
    forall calls: seq<Call>, key: string, lo: int | Lossless(p, calls, key, lo, d) ::
      Admitted(p, map[], calls, key, lo, lo + p.windowMs) <= 2 * p.limit - 1
  }

  lemma BoundOfTwo(p: Policy, d: nat)
    requires p.windowMs >= 2 && p.limit > 0
    ensures Bound(p, d) <= 2 * p.limit - 1 <==> d <= 1 || p.limit == 1
  {
    ReachableAtLeast(p, d);
    if d >= 2 {
      TimesMono(3, Reachable(p, d), p.limit - 1);
    }
  }

  lemma LosslessBound(p: Policy, calls: seq<Call>, key: string, lo: int, d: nat)
    requires p.windowMs > 0 && p.limit > 0 && p.maxSize > 0 && Lossless(p, calls, key, lo, d)
    ensures Admitted(p, map[], calls, key, lo, lo + p.windowMs) <= Bound(p, d)
  {
    LateBound(p, map[], calls, key, lo, d, if calls == [] then 0 else calls[0].now);
  }

  lemma LosslessAttained(p: Policy, d: nat) returns (calls: seq<Call>)
    requires p.windowMs > 0 && p.limit > 0 && p.maxSize > 0
    ensures Lossless(p, calls, "k", 0, d) && Admitted(p, map[], calls, "k", 0, 0 + p.windowMs) == Bound(p, d)
  {
    calls := LateSpike(p, "k", First(p, 0), 0, Reachable(p, d));
    LateBoundIsAttained(p, "k", 0, d);
  }

  /** The bound of calls in clock order survives lateness exactly up to one millisecond, or
      with a limit of one. */
  lemma TwoBudgetsIff(p: Policy, d: nat)
    requires p.windowMs >= 2 && p.limit > 0 && p.maxSize > 0
    ensures TwoBudgets(p, d) <==> d <= 1 || p.limit == 1
  {
    BoundOfTwo(p, d);
    if d <= 1 || p.limit == 1 {
      forall calls: seq<Call>, key: string, lo: int | Lossless(p, calls, key, lo, d)
        ensures Admitted(p, map[], calls, key, lo, lo + p.windowMs) <= 2 * p.limit - 1
      {
        LosslessBound(p, calls, key, lo, d);
      }
    } else {
      var calls := LosslessAttained(p, d);
    }
  }
}
