/** The session cache and the revoking repository as one thread sees them: a
    mutable object that must agree with the plain store it fronts. The clock
    readings and the outcome of each store round trip are parameters.
*/
module SessionCache {
  import opened Prelude
  import opened SessionProtocol

  class Cache {
    const cfg: Config
    var store: Store
    var entries: map<Sid, Entry>
    var trips: nat

    constructor (cfg: Config, store: Store)
      ensures this.cfg == cfg && this.store == store && entries == map[] && trips == 0 && Coherent()
    {
      this.cfg := cfg;
      this.store := store;
      this.entries := map[];
      this.trips := 0;
    }

    /** Every filled entry says what the store says. */
    ghost predicate Coherent()
      reads this
    {
      forall x <- entries | entries[x].deadline > 0 ::
        StateFromEntry(entries[x]) == ReadStore(cfg, store, entries[x].project, x)
    }

    ghost predicate Hit(project: Project, sid: Sid, now: nat)
      reads this
    {
      cfg.ttl > 0 && sid in entries && Fresh(entries[sid], project, now)
    }

    method ReadThrough(project: Project, sid: Sid, fail: bool) returns (st: Option<SessionState>)
      modifies this`trips
      ensures trips == old(trips) + 1
      ensures st == if fail then None else Some(ReadStore(cfg, store, project, sid))
    {
      trips := trips + 1;
      if fail {
        return None;
      }
      var key := KeyOf(cfg, project, sid);
      if key !in store || store[key].Purged? {
        return Some(Missing);
      }
      if store[key].Dead? {
        return Some(Revoked);
      }
      return Some(Active);
    }

    /** Clock readings: at entry, at the re-check under the lock, at the fill. */
    method Lookup(project: Project, sid: Sid, start: nat, again: nat, filled: nat, fail: bool)
        returns (outcome: Option<SessionState>)
      requires Coherent() && start <= again <= filled
      modifies this`entries, this`trips
      ensures Coherent()
      // The answer is the store's, hit or miss; only a failed round trip has none.
      ensures outcome.Some? ==> outcome.value == ReadStore(cfg, store, project, sid)
      ensures outcome.None? <==> fail && !old(Hit(project, sid, start))
      // One round trip on a miss and none on a hit.
      ensures trips == old(trips) + (if old(Hit(project, sid, start)) then 0 else 1)
      // Errors are not cached; a successful miss answers for ttl from the fill.
      ensures forall p: Project, now: nat | outcome.None? || cfg.ttl <= 0 ::
                Hit(p, sid, now) <==> old(Hit(p, sid, now))
      ensures forall p: Project, now: nat | outcome.Some? && cfg.ttl > 0 && !old(Hit(project, sid, start)) ::
                Hit(p, sid, now) <==> p == project && now < filled + cfg.ttl
      ensures old(Hit(project, sid, start)) ==> entries == old(entries)
      ensures forall x <- entries.Keys + old(entries.Keys) | x != sid ::
                x in entries && x in old(entries) && entries[x] == old(entries)[x]
    {
      if cfg.ttl <= 0 {
        outcome := ReadThrough(project, sid, fail);
        return;
      }
      if sid in entries && Fresh(entries[sid], project, start) {
        return Some(StateFromEntry(entries[sid]));
      }
      if sid !in entries {
        entries := entries[sid := NewEntry(sid, 0)];
      }
      // Only another thread's fill can make the re-check hit.
      if Fresh(entries[sid], project, again) {
        assert false;
      }
      outcome := ReadThrough(project, sid, fail);
      if outcome.None? {
        return;
      }
      entries := entries[sid := FillEntry(entries[sid], project, outcome.value, filled + cfg.ttl)];
    }

    method Invalidate(sid: Sid)
      requires Coherent()
      modifies this`entries
      ensures Coherent() && entries == old(entries) - {sid}
    {
      entries := entries - {sid};
    }

    method InvalidateAll()
      requires Coherent()
      modifies this`entries
      ensures Coherent() && entries == map[]
    {
      var keys := entries.Keys;
      while keys != {}
        invariant entries.Keys == keys && Coherent()
        decreases keys
      {
        var k :| k in keys;
        entries := entries - {k};
        keys := keys - {k};
      }
    }

    /** Drop first, then write: whether or not the write succeeds the cache stays
        coherent, so a failed revoke changes no later answer and a successful one
        is seen by the next lookup. */
    method RevokeSession(project: Project, sid: Sid, fail: bool) returns (ok: bool)
      requires Coherent()
      modifies this`entries, this`store
      ensures Coherent() && ok == !fail && entries == old(entries) - {sid}
      ensures store == if ok then RevokeRows(old(store), {KeyOf(cfg, project, sid)}) else old(store)
      ensures ok ==> ReadStore(cfg, store, project, sid) != Active
    {
      Invalidate(sid);
      if !fail {
        store := RevokeRows(store, {KeyOf(cfg, project, sid)});
      }
      return !fail;
    }

    /** rows: the user's session rows. */
    method RevokeSessionsForUser(rows: set<Key>, fail: bool) returns (ok: bool)
      requires Coherent()
      modifies this`entries, this`store
      ensures Coherent() && ok == !fail && entries == map[]
      ensures store == if ok then RevokeRows(old(store), rows) else old(store)
    {
      InvalidateAll();
      if !fail {
        store := RevokeRows(store, rows);
      }
      return !fail;
    }
  }
}
