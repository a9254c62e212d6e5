/** Which limiter a request is charged to, on both transports: the path matcher,
    the bucket key, the gRPC bridge's table, and the budget the two share.
*/
module PathLimits {
  import opened Prelude
  import opened LateCalls
  import opened RateLimiter
  import opened Text

  /** limiter names a limiter instance; None is a nil limiter. */
  datatype PathLimit = PathLimit(prefix: string, limiter: Option<nat>, tag: string, header: string)

  // ------------------------------------------------------------ the matcher

  predicate Usable(pl: PathLimit) { pl.limiter.Some? && pl.prefix != "" }

  predicate EndsInSlash(s: string) { s != "" && s[|s| - 1] == '/' }

  /** Whole segments: the prefix's segments begin the path's, and a prefix that
      ends in a slash asks for at least one segment more. */
  predicate CoversSegments(prefix: string, path: string) {
    var ps, ss := Split(prefix, '/'), Split(path, '/');
    if EndsInSlash(prefix) then ps[..|ps| - 1] <= ss && |ps| <= |ss| else ps <= ss
  }

  lemma SlashSegments(prefix: string, path: string)
    requires EndsInSlash(prefix)
    ensures prefix <= path <==> CoversSegments(prefix, path)
  {
    var base := prefix[..|prefix| - 1];
    assert prefix == base + ['/'] + "";
    SplitConcat(base, "", '/');
    var ps, ss := Split(prefix, '/'), Split(path, '/');
    assert ps[..|ps| - 1] == Split(base, '/');
    SplitPrefix(base, path, '/');
    if prefix <= path {
      assert path == base + ['/'] + path[|prefix|..];
      SplitConcat(base, path[|prefix|..], '/');
    }
  }

  /** The textual test the code makes is the segment test. */
  lemma TextIsSegments(prefix: string, path: string)
    requires prefix != ""
    ensures (&& prefix <= path
             && (|prefix| == |path| || EndsInSlash(prefix) || path[|prefix|] == '/'))
            <==> CoversSegments(prefix, path)
  {
    if EndsInSlash(prefix) {
      SlashSegments(prefix, path);
    } else {
      SplitPrefix(prefix, path, '/');
    }
  }

  predicate Selects(pl: PathLimit, path: string) { Usable(pl) && CoversSegments(pl.prefix, path) }

  function Select(limits: seq<PathLimit>, path: string): Option<PathLimit> {
    if limits == [] then None
    else if Selects(limits[0], path) then Some(limits[0])
    else Select(limits[1..], path)
  }

  /** MatchPathLimit finds the first usable entry whose segments begin the path's. */
  method MatchPathLimit(limits: seq<PathLimit>, path: string) returns (found: Option<PathLimit>)
    ensures found == Select(limits, path)
    ensures found.None? ==> forall pl <- limits :: !Selects(pl, path)
    ensures found.Some? ==> exists i :: 0 <= i < |limits| && limits[i] == found.value && Selects(limits[i], path)
                                        && forall j | 0 <= j < i :: !Selects(limits[j], path)
  {
    for i := 0 to |limits|
      invariant forall j | 0 <= j < i :: !Selects(limits[j], path)
      invariant Select(limits, path) == Select(limits[i..], path)
    {
      var pl := limits[i];
      assert limits[i..][1..] == limits[i + 1..];
      if pl.limiter.None? || pl.prefix == "" {
        continue;
      }
      TextIsSegments(pl.prefix, path);
      if pl.prefix <= path {
        var suffix := path[|pl.prefix|..];
        if suffix == "" || EndsInSlash(pl.prefix) || suffix[0] == '/' {
          return Some(pl);
        }
      }
    }
    return None;
  }

  // ------------------------------------------------------------- bucket keys

  function BucketKey(tag: string, ip: string): string { tag + ['|'] + ip }

  /** Tags without '|' keep the buckets of distinct (tag, ip) pairs apart. */
  lemma BucketKeysApart(tag: string, ip: string, tag': string, ip': string)
    requires '|' !in tag && '|' !in tag'
    ensures BucketKey(tag, ip) == BucketKey(tag', ip') <==> tag == tag' && ip == ip'
  {
    var k, k' := BucketKey(tag, ip), BucketKey(tag', ip');
    assert k[|tag|] == '|' && k'[|tag'|] == '|';
    assert |tag| < |tag'| ==> k'[|tag|] == tag'[|tag|];
    assert |tag'| < |tag| ==> k[|tag'|] == tag[|tag'|];
    assert tag == k[..|tag|] && tag' == k'[..|tag'|];
    assert ip == k[|tag| + 1..] && ip' == k'[|tag'| + 1..];
  }

  /** With a '|' in a tag two pairs can share a bucket. */
  lemma BucketKeysCanMeet()
    ensures BucketKey("a", "b|c") == BucketKey("a|b", "c")
  {
  }

  // ------------------------------------------------------------- retry-after

  /** int(math.Ceil(seconds)), at least 1. */
  function RetryAfterSeconds(seconds: real): (s: nat)
    ensures s >= 1 && s as real >= seconds
    ensures s > 1 ==> (s - 1) as real < seconds
  {
    var ceil := -(-seconds).Floor;
    if ceil < 1 then 1 else ceil
  }

  /** seconds is the window as a floating-point number of seconds: off by less than a
      millisecond, where a 64-bit float of a 64-bit duration is off by two microseconds at most. */
  predicate SecondsOf(windowNs: int, seconds: real) {
    -1_000_000.0 < seconds * 1_000_000_000.0 - windowNs as real < 1_000_000.0
  }

  /** Duration.Milliseconds: truncation toward zero. */
  function Milliseconds(ns: int): int {
    if ns >= 0 then ns / 1_000_000 else -((-ns) / 1_000_000)
  }

  /** However the conversion rounds, the advertised seconds cover the window's milliseconds. */
  lemma AdvertisedCoversWindow(windowNs: int, seconds: real)
    requires SecondsOf(windowNs, seconds)
    ensures Milliseconds(windowNs) <= 1000 * RetryAfterSeconds(seconds)
  {
  }

  /** A refused caller that waits the advertised time, if nobody else spent its key meanwhile, is
      admitted exactly when its window was thrown out or has ended by then. So it is whenever
      the window had started by the caller's own reading; other keys may do anything. */
  lemma RetryAfterSuffices(windowNs: int, seconds: real, limit: int, maxSize: nat, c: Counts, call: Call,
                           between: seq<Call>, again: Call)
    requires SecondsOf(windowNs, seconds)
    requires !Answer(Policy(Milliseconds(windowNs), limit, maxSize), c, call)
    requires forall i | 0 <= i < |between| :: between[i].key != call.key
    requires again.key == call.key && again.now >= call.now + 1000 * RetryAfterSeconds(seconds)
    ensures var p := Policy(Milliseconds(windowNs), limit, maxSize);
            var c' := Final(p, After(p, c, call), between);
            && (Answer(p, c', again) <==> again.key !in c' || again.now >= c[call.key].start + p.windowMs)
            && (c[call.key].start <= call.now ==> Answer(p, c', again))
  {
    AdvertisedCoversWindow(windowNs, seconds);
    RefusedIsAdmittedIff(Policy(Milliseconds(windowNs), limit, maxSize), c, call, between, again);
  }

  /** It can fail: the window opened at 5, a call read at 3 is refused, and so is its retry a second later. */
  lemma RetryCanComeEarly()
    ensures var p, c := Policy(1000, 1, 1), map["k" := WindowCount(5, 1)];
            && !Answer(p, c, Call("k", 3, "k")) && RetryAfterSeconds(1.0) == 1 && SecondsOf(1_000_000_000, 1.0)
            && !Answer(p, After(p, c, Call("k", 3, "k")), Call("k", 3 + 1000, "k"))
  {
  }

  // ------------------------------------------------- two transports, one budget

  type Headers = map<string, string>

  /** PathLimit.Counts: a limit that names a header counts only requests that carry it. */
  predicate Applies(pl: PathLimit, headers: Headers) {
    pl.header == "" || (pl.header in headers && headers[pl.header] != "")
  }

  /** The limiter and bucket a request spends from. */
  datatype Charge = Charge(limiter: nat, key: string)

  /** What a transport does with a request before it runs. */
  datatype Toll = Free | Spend(charge: Charge) | Unavailable

  function TollOf(pl: PathLimit, ip: string): Toll {
    if pl.limiter.None? || ip == "" then Free else Spend(Charge(pl.limiter.value, BucketKey(pl.tag, ip)))
  }

  /** RateLimitMiddleware: match the path on every request. */
  function HttpToll(limits: seq<PathLimit>, path: string, headers: Headers, ip: string): Toll {
    var pl := Select(limits, path);
    if pl.None? || !Applies(pl.value, headers) then Free else TollOf(pl.value, ip)
  }

  /** How the bridge guards a procedure: the directory lookup is throttled, an operator
      procedure only when it counts, a machine procedure is refused without a limit, and
      the rest are not limited. */
  datatype Guard = Directory | Operator | Machine | Unguarded

  /** The bridge's limits, looked up once when it is built. */
  method BuildTable(limits: seq<PathLimit>, procedures: seq<string>) returns (table: map<string, PathLimit>)
    ensures TableOf(limits, procedures, table)
  {
    table := map[];
    for i := 0 to |procedures|
      invariant TableOf(limits, procedures[..i], table)
    {
      var found := MatchPathLimit(limits, procedures[i]);
      if found.Some? {
        table := table[procedures[i] := found.value];
      }
    }
    assert procedures[..|procedures|] == procedures;
  }

  /** The table holds what the matcher selects for each of the procedures, and no more. */
  ghost predicate TableOf(limits: seq<PathLimit>, procedures: seq<string>, table: map<string, PathLimit>) {
    && (forall q :: q in table <==> q in procedures && Select(limits, q).Some?)
    && forall q <- table :: Some(table[q]) == Select(limits, q)
  }

  datatype Bridge = Bridge(guard: string -> Guard, table: map<string, PathLimit>)

  /** throttle, throttleTenantOperator and admitMachine. */
  function GrpcToll(b: Bridge, procedure: string, metadata: Headers, ip: string): Toll {
    var listed := procedure in b.table;
    match b.guard(procedure)
    case Directory => if listed then TollOf(b.table[procedure], ip) else Free
    case Operator => if listed && Applies(b.table[procedure], metadata) then TollOf(b.table[procedure], ip) else Free
    case Machine =>
      if !listed || b.table[procedure].limiter.None? then Unavailable else TollOf(b.table[procedure], ip)
    case Unguarded => Free
  }

  /** A bridge built from the same limits as the HTTP chain, for the procedures it guards. */
  ghost predicate BuiltFrom(b: Bridge, limits: seq<PathLimit>) {
    && (forall q <- b.table :: Some(b.table[q]) == Select(limits, q))
    && (forall q | !b.guard(q).Unguarded? && Select(limits, q).Some? :: q in b.table)
  }

  /** The bridge builds its table for the procedures it guards, so it is built from them. */
  lemma TableIsBuilt(b: Bridge, limits: seq<PathLimit>, procedures: seq<string>)
    requires TableOf(limits, procedures, b.table) && forall q :: q in procedures <==> !b.guard(q).Unguarded?
    ensures BuiltFrom(b, limits)
  {
  }

  lemma {:induction false} SelectedIsUsable(limits: seq<PathLimit>, path: string)
    ensures Select(limits, path).Some? ==> Usable(Select(limits, path).value)
  {
    if limits != [] {
      SelectedIsUsable(limits[1..], path);
    }
  }

  /** The two transports treat a call alike exactly when: no limit covers its path and it is
      no machine procedure; or the caller has no address; or it is an operator procedure, a
      directory or machine one that counts, or an unguarded one that does not count. */
  lemma TransportsAgreeIff(limits: seq<PathLimit>, b: Bridge, procedure: string, headers: Headers, ip: string)
    requires BuiltFrom(b, limits)
    ensures var pl := Select(limits, procedure); var guard := b.guard(procedure);
            GrpcToll(b, procedure, headers, ip) == HttpToll(limits, procedure, headers, ip) <==>
              if pl.None? then !guard.Machine?
              else ip == "" || guard.Operator? || (guard.Unguarded? <==> !Applies(pl.value, headers))
  {
    SelectedIsUsable(limits, procedure);
  }

  const LOGIN := "/identity.v1.IdentityService/PasswordLogin"

  /** A password login is limited on HTTP and, not guarded by the bridge, free on gRPC. */
  lemma LoginIsLimitedOnHttpOnly(b: Bridge, limiter: nat, headers: Headers, ip: string)
    requires b.guard(LOGIN).Unguarded? && ip != ""
    ensures var limits := [PathLimit(LOGIN, Some(limiter), "login", "")];
            && HttpToll(limits, LOGIN, headers, ip) == Spend(Charge(limiter, BucketKey("login", ip)))
            && GrpcToll(b, LOGIN, headers, ip) == Free
  {
  }

  /** A request of either transport at a time, with the victim its limiter would pick. */
  datatype Request =
    | Http(path: string, headers: Headers, ip: string, now: int, victim: string)
    | Grpc(procedure: string, headers: Headers, ip: string, now: int, victim: string)

  /** What both transports are configured with. */
  datatype Service = Service(limits: seq<PathLimit>, bridge: Bridge, policies: map<nat, Policy>)

  function TollFor(v: Service, r: Request): Toll {
    match r
    case Http(path, headers, ip, _, _) => HttpToll(v.limits, path, headers, ip)
    case Grpc(procedure, metadata, ip, _, _) => GrpcToll(v.bridge, procedure, metadata, ip)
  }

  /** The limiter instances and what they hold. */
  type Pool = map<nat, Counts>

  /** The request spends from a limiter that exists. */
  predicate Charged(v: Service, pool: Pool, r: Request) {
    var toll := TollFor(v, r);
    toll.Spend? && toll.charge.limiter in v.policies && toll.charge.limiter in pool
  }

  function CallOf(v: Service, r: Request): Call
    requires TollFor(v, r).Spend?
  {
    Call(TollFor(v, r).charge.key, r.now, r.victim)
  }

  predicate Admits(v: Service, pool: Pool, r: Request) {
    if Charged(v, pool, r) then
      var id := TollFor(v, r).charge.limiter;
      Answer(v.policies[id], pool[id], CallOf(v, r))
    else !TollFor(v, r).Unavailable?
  }

  function AfterRequest(v: Service, pool: Pool, r: Request): Pool {
    if Charged(v, pool, r) then
      var id := TollFor(v, r).charge.limiter;
      pool[id := After(v.policies[id], pool[id], CallOf(v, r))]
    else pool
  }

  predicate SpendsOn(v: Service, r: Request, id: nat) { TollFor(v, r).Spend? && TollFor(v, r).charge.limiter == id }

  /** The calls one limiter sees, in order. */
  function CallsOn(v: Service, reqs: seq<Request>, id: nat): seq<Call> {
    if reqs == [] then []
    else (if SpendsOn(v, reqs[0], id) then [CallOf(v, reqs[0])] else []) + CallsOn(v, reqs[1..], id)
  }

  /** Requests, on any transport, admitted from one bucket at times in [lo, hi). */
  function AdmittedFrom(v: Service, pool: Pool, reqs: seq<Request>, charge: Charge, lo: int, hi: int): nat
    decreases |reqs|
  {
    if reqs == [] then 0
    else
      Bit(TollFor(v, reqs[0]) == Spend(charge) && lo <= reqs[0].now < hi && Admits(v, pool, reqs[0]))
      + AdmittedFrom(v, AfterRequest(v, pool, reqs[0]), reqs[1..], charge, lo, hi)
  }

  /** A limiter's share of an interleaved run is a run of that limiter. */
  lemma {:induction false} PoolProjects(v: Service, pool: Pool, reqs: seq<Request>, charge: Charge, lo: int, hi: int)
    requires charge.limiter in v.policies && charge.limiter in pool
    ensures var id := charge.limiter;
            AdmittedFrom(v, pool, reqs, charge, lo, hi)
            == Admitted(v.policies[id], pool[id], CallsOn(v, reqs, id), charge.key, lo, hi)
    decreases |reqs|
  {
    if reqs != [] {
      var id, r := charge.limiter, reqs[0];
      PoolProjects(v, AfterRequest(v, pool, r), reqs[1..], charge, lo, hi);
      if SpendsOn(v, r, id) {
        assert CallsOn(v, reqs, id)[1..] == CallsOn(v, reqs[1..], id);
      } else {
        assert CallsOn(v, reqs, id) == CallsOn(v, reqs[1..], id);
      }
    }
  }

  /** The clock does not run backwards along the run. */
  ghost predicate Chronological(reqs: seq<Request>) {
    forall i, j | 0 <= i <= j < |reqs| :: reqs[i].now <= reqs[j].now
  }

  lemma {:induction false} CallsOnInOrder(v: Service, reqs: seq<Request>, id: nat, t: int)
    requires forall i | 0 <= i < |reqs| :: t <= reqs[i].now
    requires Chronological(reqs)
    ensures InOrder(CallsOn(v, reqs, id), t)
  {
    if reqs != [] {
      CallsOnInOrder(v, reqs[1..], id, reqs[0].now);
    }
  }

  lemma CallsOnOrdered(v: Service, reqs: seq<Request>, id: nat)
    requires Chronological(reqs)
    ensures Ordered(CallsOn(v, reqs, id))
  {
    if reqs != [] {
      CallsOnInOrder(v, reqs, id, reqs[0].now);
    }
  }

  /** However HTTP and gRPC requests interleave, one bucket admits at most
      2 * limit - 1 of them in any interval of one window's length, plus limit for
      each time the bucket was thrown out live. */
  lemma SharedBudget(v: Service, pool: Pool, reqs: seq<Request>, charge: Charge, lo: int)
    requires charge.limiter in v.policies && charge.limiter in pool && charge.key != ""
    requires Chronological(reqs)
    requires var p, c := v.policies[charge.limiter], pool[charge.limiter];
             p.limit > 0 && p.maxSize > 0 && Valid(p, c) && Legal(p, c, CallsOn(v, reqs, charge.limiter))
    ensures var p, c := v.policies[charge.limiter], pool[charge.limiter]; var hi := lo + p.windowMs;
            AdmittedFrom(v, pool, reqs, charge, lo, hi)
            <= 2 * p.limit - 1 + p.limit * Losses(p, c, CallsOn(v, reqs, charge.limiter), charge.key, lo, hi)
  {
    var p, c := v.policies[charge.limiter], pool[charge.limiter];
    PoolProjects(v, pool, reqs, charge, lo, lo + p.windowMs);
    CallsOnOrdered(v, reqs, charge.limiter);
    SlidingBound(p, c, CallsOn(v, reqs, charge.limiter), charge.key, lo);
  }

  // --------------------------------------------------------- served out of order

  /** No request reaches its limiter more than d behind the latest reading served before it. */
  ghost predicate Delayed(reqs: seq<Request>, d: nat) {
    forall i, j | 0 <= i < j < |reqs| :: reqs[i].now - d <= reqs[j].now
  }

  lemma {:induction false} CallsOnReach(v: Service, reqs: seq<Request>, id: nat, m: int, d: nat)
    requires Delayed(reqs, d) && forall i | 0 <= i < |reqs| :: m - d <= reqs[i].now
    ensures WithinReach(CallsOn(v, reqs, id), m, d)
  {
    if reqs != [] {
      CallsOnReach(v, reqs[1..], id, m, d);
      CallsOnReach(v, reqs[1..], id, reqs[0].now, d);
    }
  }

  /** However requests of both transports interleave, reach the lock late by up to d and throw out
      windows: one bucket admits at most the bound for d in any interval of one window's
      length, and as much again for each loss. m is the latest reading served before. */
  lemma LateSharedBudget(v: Service, pool: Pool, reqs: seq<Request>, charge: Charge, lo: int, d: nat, m: int)
    requires charge.limiter in v.policies && charge.limiter in pool && charge.key != ""
    requires Delayed(reqs, d) && forall i | 0 <= i < |reqs| :: m - d <= reqs[i].now
    requires var p, c := v.policies[charge.limiter], pool[charge.limiter];
             && p.windowMs > 0 && p.limit > 0 && p.maxSize > 0 && Valid(p, c)
             && Legal(p, c, CallsOn(v, reqs, charge.limiter)) && (charge.key in c ==> c[charge.key].start <= m)
    ensures var p, c := v.policies[charge.limiter], pool[charge.limiter]; var hi := lo + p.windowMs;
            AdmittedFrom(v, pool, reqs, charge, lo, hi)
            <= Bound(p, d) + LateAllowance(p, c, CallsOn(v, reqs, charge.limiter), charge.key, d, lo - d, hi + d)
  {
    var p, c := v.policies[charge.limiter], pool[charge.limiter];
    PoolProjects(v, pool, reqs, charge, lo, lo + p.windowMs);
    CallsOnReach(v, reqs, charge.limiter, m, d);
    BoundFrom(p, c, CallsOn(v, reqs, charge.limiter), charge.key, lo, d, m);
  }
}
