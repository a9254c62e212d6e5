/** Retention windows from the environment to the sweep: what Load makes of the
    variables, what Validate accepts, and the cutoff instant the sweeper computes
    from it in wrapping 64-bit nanosecond arithmetic.
*/
module Retention {
  const TWO63 := 0x8000_0000_0000_0000
  const TWO64 := 0x1_0000_0000_0000_0000
  const SECOND_NS := 1_000_000_000
  const DAY_SECONDS := 86_400
  const DAY_MS := 86_400_000
  const DAY_NS := 86_400_000_000_000

  /** The largest window whose nanoseconds fit in 64 bits. */
  const MAX_EXACT_DAYS := 106_751
  const MAX_RETENTION_DAYS := 10_000
  const DEFAULT_ANONYMOUS_DAYS := 30

  /** The largest count of seconds whose nanoseconds fit, and whose milliseconds fit. */
  const MAX_NS_SECONDS := 9_223_372_036
  const MAX_MS_SECONDS := 9_223_372_036_854_775

  // ------------------------------------------------------------ 64-bit integers

  /** Two's-complement wrap-around of a mathematical result. */
  function Wrap(x: int): (y: int)
    ensures -TWO63 <= y < TWO63
    ensures -TWO63 <= x < TWO63 ==> y == x
    ensures (x - y) % TWO64 == 0
  {
    (x + TWO63) % TWO64 - TWO63
  }

  predicate Int64(x: int) { -TWO63 <= x < TWO63 }

  /** Go's integer division: toward zero. */
  function Quotient(a: int, b: int): int
    requires b > 0
  {
    if a >= 0 then a / b else -((-a) / b)
  }

  // ----------------------------------------------------------------- the cutoff

  function UnixMilli(ns: int): int { ns / 1_000_000 }

  /** now.Add(-time.Duration(days) * 24h).UnixMilli(). */
  function CutoffMs(nowNs: int, days: int): int {
    UnixMilli(nowNs + Wrap(Wrap(-days) * DAY_NS))
  }

  /** The cutoff is the intended instant exactly up to 106751 days. */
  lemma CutoffExact(nowNs: int, days: int)
    requires 0 < days < TWO63
    ensures CutoffMs(nowNs, days) == UnixMilli(nowNs) - days * DAY_MS <==> days <= MAX_EXACT_DAYS
  {
  }

  /** Up to there a longer window reaches strictly further back, and always into the past. */
  lemma CutoffOrder(nowNs: int, days: int, longer: int)
    requires 0 < days < longer <= MAX_EXACT_DAYS
    ensures CutoffMs(nowNs, longer) < CutoffMs(nowNs, days) < UnixMilli(nowNs)
  {
  }

  /** One day more and the cutoff is in the future, at any time of day. */
  lemma CutoffInverts(nowNs: int)
    ensures CutoffMs(nowNs, MAX_EXACT_DAYS + 1) > UnixMilli(nowNs)
  {
  }

  // -------------------------------------------------------------- configuration

  /** GATEWAY_ANONYMOUS_RETENTION_DAYS as found: envInt falls back to the default
      on a malformed value as it does on an unset or blank one. */
  datatype Setting = Unset | Blank | Malformed | Number(n: int)

  datatype Config = Config(
    anonymousDays: int, refreshSeconds: int, requireAssurance: bool, assuranceEnabled: bool,
    deviceDays: int, challengeTtl: int, tokenTtl: int, webTokenTtl: int, auditDays: int)

  function EnvDays(v: Setting): int { if v.Number? then v.n else DEFAULT_ANONYMOUS_DAYS }

  /** Load: an unset or blank window is raised to outlive the refresh lifetime. */
  function Loaded(v: Setting, c: Config): Config {
    var days := EnvDays(v);
    var refreshDays := Quotient(c.refreshSeconds, DAY_SECONDS);
    var raised := (v.Unset? || v.Blank?) && days > 0 && days <= refreshDays;
    c.(anonymousDays := if raised then refreshDays + 1 else days)
  }

  predicate ValidAnonymous(c: Config) {
    && c.anonymousDays <= MAX_RETENTION_DAYS
    && !(c.requireAssurance && !c.assuranceEnabled)
    && (c.anonymousDays > 0 ==>
          Wrap(Wrap(c.anonymousDays * 24) * (3600 * SECOND_NS)) > Wrap(c.refreshSeconds * SECOND_NS))
  }

  predicate ValidAssurance(c: Config) {
    && c.deviceDays <= MAX_RETENTION_DAYS
    && (c.assuranceEnabled ==>
          && 0 < c.challengeTtl <= 3600
          && 0 < c.tokenTtl <= 86400
          && 0 <= c.webTokenTtl <= 86400
          && (c.deviceDays > 0 ==> Wrap(Wrap(Wrap(c.deviceDays * 24) * 60) * 60) > c.tokenTtl))
  }

  // ------------------------------------------------------------------- safety

  /** CreateRefreshToken's ExpiresAt for a token issued at ms. */
  function TokenExpiryMs(issuedMs: int, seconds: int): int { Wrap(issuedMs + Wrap(seconds * 1000)) }

  /** An instant of the 64-bit nanosecond clock, and an activity stamp up to it. */
  predicate Instants(nowNs: int, lastMs: int) { 0 <= nowNs < TWO63 && 0 <= lastMs <= UnixMilli(nowNs) }

  /** Whoever the sweep reaps held a refresh token that had already expired. */
  ghost predicate NeverReapsLive(days: int, seconds: int) {
    forall nowNs, lastMs | Instants(nowNs, lastMs) && lastMs < CutoffMs(nowNs, days) ::
      TokenExpiryMs(lastMs, seconds) < UnixMilli(nowNs)
  }

  /** A window never reaps a live holder exactly when it is no shorter than the lifetime
      in the wrapped milliseconds the issuer adds. */
  lemma NeverReapsLiveIff(days: int, seconds: int)
    requires 0 < days <= MAX_EXACT_DAYS
    ensures NeverReapsLive(days, seconds) <==> Wrap(seconds * 1000) <= days * DAY_MS
  {
    var e := Wrap(seconds * 1000);
    if e <= days * DAY_MS {
      forall nowNs, lastMs | Instants(nowNs, lastMs) && lastMs < CutoffMs(nowNs, days)
        ensures TokenExpiryMs(lastMs, seconds) < UnixMilli(nowNs)
      {
        CutoffExact(nowNs, days);
        assert Wrap(lastMs + e) == lastMs + e;
      }
    } else {
      var nowNs := (days * DAY_MS + 1) * 1_000_000;
      CutoffExact(nowNs, days);
      assert UnixMilli(nowNs) == days * DAY_MS + 1;
      assert Instants(nowNs, 0) && 0 < CutoffMs(nowNs, days);
      assert TokenExpiryMs(0, seconds) == e;
    }
  }

  lemma AnonymousCheck(c: Config)
    requires 0 < c.anonymousDays <= MAX_RETENTION_DAYS
    ensures Wrap(Wrap(c.anonymousDays * 24) * (3600 * SECOND_NS)) == c.anonymousDays * DAY_NS
  {
  }

  /** An accepted window keeps anonymous users while their refresh token lives exactly when
      the token's wrapped milliseconds do not exceed it. So it does for every lifetime whose
      nanoseconds fit, and for no longer one whose milliseconds fit. */
  lemma AnonymousRetentionIsSafe(v: Setting, c: Config)
    ensures var days := Loaded(v, c).anonymousDays;
            ValidAnonymous(Loaded(v, c)) && days > 0 ==>
            && (NeverReapsLive(days, c.refreshSeconds) <==> Wrap(c.refreshSeconds * 1000) <= days * DAY_MS)
            && (-MAX_NS_SECONDS <= c.refreshSeconds <= MAX_NS_SECONDS ==> NeverReapsLive(days, c.refreshSeconds))
            && (MAX_NS_SECONDS < c.refreshSeconds <= MAX_MS_SECONDS ==> !NeverReapsLive(days, c.refreshSeconds))
  {
    var l := Loaded(v, c);
    if ValidAnonymous(l) && l.anonymousDays > 0 {
      AnonymousCheck(l);
      NeverReapsLiveIff(l.anonymousDays, c.refreshSeconds);
      if -MAX_NS_SECONDS <= c.refreshSeconds <= MAX_NS_SECONDS {
        assert c.refreshSeconds * SECOND_NS < l.anonymousDays * DAY_NS;
      } else if MAX_NS_SECONDS < c.refreshSeconds <= MAX_MS_SECONDS {
        assert Wrap(c.refreshSeconds * 1000) == c.refreshSeconds * 1000;
      }
    }
  }

  /** An explicit window can be accepted past that point, and then is not safe. */
  lemma OverflowIsAccepted(c: Config)
    requires c.refreshSeconds == MAX_NS_SECONDS + 1 && !c.requireAssurance
    ensures ValidAnonymous(Loaded(Number(30), c)) && !NeverReapsLive(30, c.refreshSeconds)
  {
    assert Wrap(c.refreshSeconds * SECOND_NS) == c.refreshSeconds * SECOND_NS - TWO64;
    NeverReapsLiveIff(30, c.refreshSeconds);
    assert Wrap(c.refreshSeconds * 1000) == c.refreshSeconds * 1000;
  }

  /** With the variable unset or blank the window is accepted exactly when the day cap allows
      it and the lifetime's nanoseconds do not wrap to more than the default window; once
      accepted it is safe exactly when the lifetime's wrapped milliseconds do not exceed it. */
  lemma RaisedWindowAcceptedIff(v: Setting, c: Config)
    requires (v.Unset? || v.Blank?) && Int64(c.refreshSeconds)
    ensures var days := Loaded(v, c).anonymousDays;
            && (ValidAnonymous(Loaded(v, c)) <==>
                  && days <= MAX_RETENTION_DAYS && !(c.requireAssurance && !c.assuranceEnabled)
                  && (c.refreshSeconds >= -MAX_NS_SECONDS
                      || Wrap(c.refreshSeconds * SECOND_NS) < DEFAULT_ANONYMOUS_DAYS * DAY_NS))
            && (ValidAnonymous(Loaded(v, c)) ==>
                  (NeverReapsLive(days, c.refreshSeconds) <==> Wrap(c.refreshSeconds * 1000) <= days * DAY_MS))
            && (ValidAnonymous(Loaded(v, c)) && c.refreshSeconds >= -MAX_NS_SECONDS ==>
                NeverReapsLive(days, c.refreshSeconds))
  {
    var l := Loaded(v, c);
    if l.anonymousDays <= MAX_RETENTION_DAYS {
      AnonymousCheck(l);
      NeverReapsLiveIff(l.anonymousDays, c.refreshSeconds);
      assert c.refreshSeconds >= -MAX_NS_SECONDS ==> c.refreshSeconds < l.anonymousDays * DAY_SECONDS;
    }
  }

  /** Both can go wrong for a negative lifetime: one is refused by the lifetime check itself,
      and one is accepted though tokens then outlive the window. */
  lemma RaisedWindowCanFail(v: Setting, c: Config)
    requires (v.Unset? || v.Blank?) && !c.requireAssurance
    ensures c.refreshSeconds == -MAX_NS_SECONDS - 1 ==>
              Loaded(v, c).anonymousDays == DEFAULT_ANONYMOUS_DAYS && !ValidAnonymous(Loaded(v, c))
    ensures c.refreshSeconds == -MAX_MS_SECONDS - 1 ==>
              ValidAnonymous(Loaded(v, c)) && !NeverReapsLive(Loaded(v, c).anonymousDays, c.refreshSeconds)
  {
    if c.refreshSeconds == -MAX_MS_SECONDS - 1 {
      RaisedWindowAcceptedIff(v, c);
    }
  }

  /** Load means by "chosen" something else than envInt does exactly on malformed
      values: those take the default and are still not raised. */
  lemma ChosenDisagreesOnMalformed(v: Setting, c: Config)
    requires c.refreshSeconds >= DEFAULT_ANONYMOUS_DAYS * DAY_SECONDS
    ensures EnvDays(v) == DEFAULT_ANONYMOUS_DAYS && Loaded(v, c).anonymousDays == DEFAULT_ANONYMOUS_DAYS
            <==> v.Malformed? || v == Number(DEFAULT_ANONYMOUS_DAYS)
    ensures c.refreshSeconds <= MAX_NS_SECONDS ==> !ValidAnonymous(Loaded(Malformed, c))
  {
  }

  /** An accepted device window outlives the assurance token of its last use. */
  lemma DeviceRetentionIsSafe(c: Config)
    requires ValidAssurance(c) && c.assuranceEnabled && c.deviceDays > 0
    ensures NeverReapsLive(c.deviceDays, c.tokenTtl)
  {
    NeverReapsLiveIff(c.deviceDays, c.tokenTtl);
  }
}
