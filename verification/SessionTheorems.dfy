/** What the session cache promises its callers, over every reachable state of
    the protocol.
*/
module SessionTheorems {
  import opened Prelude
  import opened SessionProtocol
  import opened SessionSafety

  /** Every answer is the store's state, in the request's own project, at one
      read; a cached one was filled less than ttl before the lookup began. */
  lemma EveryAnswerIsBacked(cfg: Config, s: State, a: Answer)
    requires Reachable(cfg, s) && a in s.answers && a.outcome.Some?
    ensures a.begin < a.end < |s.moments| && a.readAt < |s.moments|
    ensures a.outcome.value == ReadStore(cfg, s.moments[a.readAt].store, a.project, a.sid)
    ensures !a.cached ==> a.begin < a.readAt <= a.end
    ensures a.cached ==>
              && a.readAt <= a.filledAt < a.end
              && s.moments[a.begin].now < s.moments[a.filledAt].now + cfg.ttl
              && exists b <- s.answers :: Filler(b, a)
  {
    ReachableInv(cfg, s);
    var k :| 0 <= k < |s.answers| && s.answers[k] == a;
    assert Backed(s, s.answers[k]);
    if a.cached {
      var j :| 0 <= j < |s.answers| && Filler(s.answers[j], a);
      assert s.answers[j] in s.answers;
    }
  }

  /** Strict mode: every answer is the store's state at a moment inside the call. */
  lemma StrictModeReadsThrough(cfg: Config, s: State, a: Answer)
    requires Reachable(cfg, s) && a in s.answers && a.outcome.Some? && cfg.ttl <= 0
    ensures a.begin < a.readAt <= a.end < |s.moments|
    ensures a.outcome.value == ReadStore(cfg, s.moments[a.readAt].store, a.project, a.sid)
  {
    ReachableInv(cfg, s);
    var k :| 0 <= k < |s.answers| && s.answers[k] == a;
    assert Backed(s, s.answers[k]);
  }

  /** A lookup that begins after its sid was dropped from the map never answers
      from a read made before the drop, whatever orphaned entries still fill. */
  lemma InvalidationIsAFence(cfg: Config, s: State, a: Answer, f: Fence)
    requires Reachable(cfg, s) && a in s.answers && a.outcome.Some?
    requires f in s.fences && f.Covers(a.sid) && f.at < a.begin
    ensures f.at < a.readAt
  {
    ReachableInv(cfg, s);
    var k :| 0 <= k < |s.answers| && s.answers[k] == a;
    var j :| 0 <= j < |s.fences| && s.fences[j] == f;
    assert Fenced(s, s.answers[k]);
  }

  /** A row that is present and not live at moment k is not live later, so an
      Active read of it was made before k. */
  lemma ActiveReadIsEarlier(s: State, project: Project, sid: Sid, k: Instant, r: Instant)
    requires Inv(s) && k < |s.moments| && r < |s.moments|
    requires var key := KeyOf(s.cfg, project, sid);
             key in s.moments[k].store && !s.moments[k].store[key].Live?
    requires ReadStore(s.cfg, s.moments[r].store, project, sid) == Active
    ensures r < k
  {
  }

  /** The row of a revoked session, from the write on. */
  ghost predicate RevokedRow(s: State, r: Revocation, project: Project, sid: Sid) {
    var key := KeyOf(s.cfg, project, sid);
    r in s.revokes && key in r.targets && r.at < |s.moments| && key in s.moments[r.at].store
  }

  /** What is left after a successful same-process revoke: an Active answer to a
      lookup that begins after the write can only come from a lookup of the same
      sid that overlapped the revoke and read between its drop and its write,
      and only for ttl after that lookup filled the cache. */
  lemma RevocationResidue(cfg: Config, s: State, r: Revocation, a: Answer)
    requires Reachable(cfg, s) && a in s.answers && RevokedRow(s, r, a.project, a.sid)
    requires r.at <= a.begin && a.outcome == Some(Active)
    ensures a.cached && r.begin < a.readAt < r.at
    ensures a.begin < |s.moments| && a.filledAt < |s.moments|
    ensures s.moments[a.begin].now < s.moments[a.filledAt].now + cfg.ttl
    ensures exists b <- s.answers :: Filler(b, a) && b.begin < r.at && r.begin < b.end
  {
    ReachableInv(cfg, s);
    EveryAnswerIsBacked(cfg, s, a);
    var k :| 0 <= k < |s.revokes| && s.revokes[k] == r;
    assert RevocationOk(s, s.revokes[k]);
    ActiveReadIsEarlier(s, a.project, a.sid, r.at, a.readAt);
    assert Dropped(s, a.sid, r.begin, r.at);
    var j :| 0 <= j < |s.fences| && s.fences[j].Covers(a.sid) && r.begin <= s.fences[j].at < r.at;
    InvalidationIsAFence(cfg, s, a, s.fences[j]);
  }

  /** Every finished lookup of sid ended before the revoke began or began after its write. */
  ghost predicate Quiet(s: State, r: Revocation, sid: Sid) {
    forall b <- s.answers | b.sid == sid :: b.end <= r.begin || r.at <= b.begin
  }

  /** A successful revoke that no lookup of the sid overlaps is seen by every
      later lookup: never Active, and Revoked while the row is kept. */
  lemma QuietRevocationIsSeen(cfg: Config, s: State, r: Revocation, a: Answer)
    requires Reachable(cfg, s) && a in s.answers && RevokedRow(s, r, a.project, a.sid)
    requires Quiet(s, r, a.sid) && r.at <= a.begin && a.outcome.Some?
    ensures a.outcome.value != Active
    ensures var last := s.moments[|s.moments| - 1].store; var key := KeyOf(cfg, a.project, a.sid);
            |s.moments| > 0 && key in last && (!last[key].Purged? ==> a.outcome.value == Revoked)
  {
    ReachableInv(cfg, s);
    EveryAnswerIsBacked(cfg, s, a);
    var k :| 0 <= k < |s.revokes| && s.revokes[k] == r;
    assert RevocationOk(s, s.revokes[k]);
    if a.cached {
      var b :| b in s.answers && Filler(b, a);
      assert Dropped(s, a.sid, r.begin, r.at);
      var j :| 0 <= j < |s.fences| && s.fences[j].Covers(a.sid) && r.begin <= s.fences[j].at < r.at;
      InvalidationIsAFence(cfg, s, a, s.fences[j]);
      assert r.at <= b.begin;
    }
    assert Forward(s.moments[r.at].store, s.moments[a.readAt].store);
    assert Forward(s.moments[a.readAt].store, s.moments[|s.moments| - 1].store);
  }
}
