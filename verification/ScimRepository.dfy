/** The SCIM store as it runs: rows, credentials, audit trail and event feed
    updated in place, one repository call at a time, each method proved to end
    in the state and result the specification functions give.
*/
module ScimRepository {
  import opened Prelude
  import opened ScimStore
  import opened DisplayName
  import opened EmailAddress
  import opened ScimSafety

  function Drop(beats: seq<Beat>, n: nat): seq<Beat> { if n <= |beats| then beats[n..] else [] }

  /** One repository call of a revocation, with what lands before it. */
  function Call(w: World, k: Kill, beat: Beat): (World, bool) {
    var w1 := Meanwhile(w, beat.acts);
    if beat.fault.Lost? then (w1, false) else (Slain(w1, k), beat.fault.Fine?)
  }

  lemma RunCall(w: World, kills: seq<Kill>, beats: seq<Beat>, n: nat)
    requires kills != []
    ensures var (w', ok) := Call(w, kills[0], BeatAt(beats, n));
            RunKills(w, kills, Drop(beats, n))
            == if ok then RunKills(w', kills[1..], Drop(beats, n + 1)) else (w', false)
  {
  }

  lemma KillsShape(w: World, id: Id)
    ensures Kills(w, id) == [KillTokens(id), KillSessions(id)] + ([ListAgents] + KillsFor(AgentsOf(w, id)))
  {
    assert [id][1..] == [];
    assert KillsFor([id]) == [KillTokens(id), KillSessions(id)] + KillsFor([]);
  }

  /** revokeAllUserSessions: two calls, stopping at the first error. */
  function Pair(w: World, x: Id, first: Beat, second: Beat): (World, bool) {
    var (w1, ok) := Call(w, KillTokens(x), first);
    if ok then Call(w1, KillSessions(x), second) else (w1, false)
  }

  lemma RunPair(w: World, x: Id, rest: seq<Kill>, beats: seq<Beat>, n: nat)
    ensures var (w', ok) := Pair(w, x, BeatAt(beats, n), BeatAt(beats, n + 1));
            RunKills(w, [KillTokens(x), KillSessions(x)] + rest, Drop(beats, n))
            == if ok then RunKills(w', rest, Drop(beats, n + 2)) else (w', false)
  {
    var kills := [KillTokens(x), KillSessions(x)] + rest;
    assert kills[1..][1..] == rest;
    RunCall(w, kills, beats, n);
    RunCall(Call(w, KillTokens(x), BeatAt(beats, n)).0, kills[1..], beats, n + 1);
  }

  lemma CallKeepsAgents(w: World, k: Kill, beat: Beat)
    ensures Call(w, k, beat).0.agents == w.agents
  {
    MeanwhileFrame(w, beat.acts);
  }

  lemma PairKeepsAgents(w: World, x: Id, first: Beat, second: Beat)
    ensures Pair(w, x, first, second).0.agents == w.agents
  {
    CallKeepsAgents(w, KillTokens(x), first);
    CallKeepsAgents(Call(w, KillTokens(x), first).0, KillSessions(x), second);
  }

  /** The fields a PATCH writes, attribute by attribute; None when its address is not usable. */
  method PatchFields(mail: Mail, existing: User, req: PatchReq) returns (change: Option<Change>)
    ensures change == PatchChange(mail, existing, req)
  {
    var fields := Fields(None, false, None, None, None);
    var address := req.userName;
    if req.email.Some? {
      address := req.email;
    }
    if address.Some? {
      if !mail.usable(address.value) {
        return None;
      }
      var email := mail.canon(address.value);
      fields := fields.(email := Some(email), unverify := !Carries(mail, existing.email, email));
    }
    if req.externalId.Some? {
      fields := fields.(externalId := req.externalId);
    }
    if req.given.Some? || req.family.Some? {
      var (given, family) := SplitName(existing.name);
      if req.given.Some? {
        given := req.given.value;
      }
      if req.family.Some? {
        family := req.family.value;
      }
      fields := fields.(name := Some(JoinName(given, family)));
    }
    var deactivate := false;
    if req.active.Some? {
      if req.active.value {
        fields := fields.(status := Some("active"));
      } else {
        fields := fields.(status := Some("deactivated"));
        deactivate := true;
      }
    }
    var reactivating := req.active == Some(true) && !IsActive(existing.status);
    return Some(Change(fields, deactivate, reactivating));
  }

  class RepoScimStore {
    const mail: Mail
    var users: map<Id, User>
    var tokens: set<Id>
    var sessions: set<Id>
    var agents: map<Id, seq<Id>>
    var signins: multiset<Id>
    var audit: seq<Audit>
    var events: seq<Event>
    ghost var proven: map<Id, set<string>>

    constructor (mail: Mail, users: map<Id, User>, agents: map<Id, seq<Id>>, tokens: set<Id>, sessions: set<Id>)
      ensures this.mail == mail && View() == World(users, tokens, sessions, agents, multiset{}, [], [], map[])
    {
      this.mail := mail;
      this.users, this.agents, this.tokens, this.sessions := users, agents, tokens, sessions;
      this.signins, this.audit, this.events, this.proven := multiset{}, [], [], map[];
    }

    ghost function View(): World
      reads this
    {
      World(users, tokens, sessions, agents, signins, audit, events, proven)
    }

    /** A verification proves the address stored now. */
    method Prove(id: Id)
      modifies this`users, this`proven
      ensures View() == Perform(old(View()), Verify(id))
    {
      if id in users {
        proven := proven[id := ProvenOf(View(), id) + {users[id].email}];
        users := users[id := users[id].(verified := true)];
      }
    }

    /** A sign-in passes its checks if the account has standing. */
    method Admit(id: Id)
      modifies this`signins
      ensures View() == Perform(old(View()), SignIn(id))
    {
      var world := World(users, tokens, sessions, agents, signins, audit, events, map[]);
      if Standing(world, id) {
        signins := signins + multiset{id};
      }
    }

    /** One act of another writer. */
    method OtherWriter(act: Act)
      modifies this
      ensures View() == Perform(old(View()), act)
    {
      match act {
        case Verify(id) => Prove(id);
        case Remove(id) => users, tokens, sessions := users - {id}, tokens - {id}, sessions - {id};
        case SignIn(id) => Admit(id);
        case OpenSession(id) =>
          if id in signins && id in users {
            sessions := sessions + {id};
          }
        case IssueToken(id) =>
          if id in signins && id in users {
            tokens, signins := tokens + {id}, signins - multiset{id};
          }
      }
    }

    /** Verifications, removals and sign-ins by other writers. */
    method OtherWriters(acts: seq<Act>)
      modifies this
      ensures View() == Meanwhile(old(View()), acts)
    {
      for i := 0 to |acts|
        invariant Meanwhile(old(View()), acts) == Meanwhile(View(), acts[i..])
      {
        assert acts[i..][0] == acts[i] && acts[i..][1..] == acts[i + 1..];
        OtherWriter(acts[i]);
      }
    }

    method UpdateUser(id: Id, f: Fields, fault: Fault) returns (ok: bool)
      modifies this`users
      ensures (View(), ok) == UpdateRow(old(View()), id, f, fault)
    {
      if id !in users || fault.Lost? {
        return false;
      }
      users := users[id := Assign(users[id], f)];
      return fault.Fine?;
    }

    method DeleteRefreshTokens(x: Id, beat: Beat) returns (ok: bool)
      modifies this
      ensures (View(), ok) == Call(old(View()), KillTokens(x), beat)
    {
      OtherWriters(beat.acts);
      if beat.fault.Lost? {
        return false;
      }
      tokens := tokens - {x};
      return beat.fault.Fine?;
    }

    method RevokeSessions(x: Id, beat: Beat) returns (ok: bool)
      modifies this
      ensures (View(), ok) == Call(old(View()), KillSessions(x), beat)
    {
      OtherWriters(beat.acts);
      if beat.fault.Lost? {
        return false;
      }
      sessions := sessions - {x};
      return beat.fault.Fine?;
    }

    method ListOwnedAgents(id: Id, beat: Beat) returns (ok: bool, mine: seq<Id>)
      modifies this
      ensures (View(), ok) == Call(old(View()), ListAgents, beat) && mine == AgentsOf(View(), id)
    {
      OtherWriters(beat.acts);
      return beat.fault.Fine?, if id in agents then agents[id] else [];
    }

    method RevokeAllUserSessions(x: Id, first: Beat, second: Beat) returns (ok: bool)
      modifies this
      ensures (View(), ok) == Pair(old(View()), x, first, second)
    {
      ok := DeleteRefreshTokens(x, first);
      if !ok {
        return;
      }
      ok := RevokeSessions(x, second);
    }

    method RevokeAgents(mine: seq<Id>, beats: seq<Beat>, n: nat) returns (ok: bool)
      modifies this
      ensures (View(), ok) == RunKills(old(View()), KillsFor(mine), Drop(beats, n))
    {
      ghost var goal := RunKills(View(), KillsFor(mine), Drop(beats, n));
      var i, k := 0, n;
      assert mine[0..] == mine;
      while i < |mine|
        invariant 0 <= i <= |mine|
        invariant goal == RunKills(View(), KillsFor(mine[i..]), Drop(beats, k))
      {
        assert mine[i..][1..] == mine[i + 1..];
        RunPair(View(), mine[i], KillsFor(mine[i + 1..]), beats, k);
        ok := RevokeAllUserSessions(mine[i], BeatAt(beats, k), BeatAt(beats, k + 1));
        if !ok {
          return;
        }
        i, k := i + 1, k + 2;
      }
      return true;
    }

    /** service.RevokeUserAccess: the user, then every agent they own. */
    method RevokeUserAccess(id: Id, beats: seq<Beat>) returns (ok: bool)
      modifies this
      ensures (View(), ok) == RunKills(old(View()), Kills(old(View()), id), beats)
    {
      ghost var rest := [ListAgents] + KillsFor(AgentsOf(View(), id));
      KillsShape(View(), id);
      assert Drop(beats, 0) == beats;
      RunPair(View(), id, rest, beats, 0);
      PairKeepsAgents(View(), id, BeatAt(beats, 0), BeatAt(beats, 1));
      ok := RevokeAllUserSessions(id, BeatAt(beats, 0), BeatAt(beats, 1));
      if !ok {
        return;
      }
      RunCall(View(), rest, beats, 2);
      CallKeepsAgents(View(), ListAgents, BeatAt(beats, 2));
      var mine;
      ok, mine := ListOwnedAgents(id, BeatAt(beats, 2));
      if !ok {
        return;
      }
      assert rest[1..] == KillsFor(mine);
      ok := RevokeAgents(mine, beats, 3);
    }

    method EmitUserChange(id: Id, deactivating: bool, reactivating: bool, updated: User)
      modifies this`audit, this`events
      ensures forall f: Fields :: View() == Emit(old(View()), id, Change(f, deactivating, reactivating), updated)
    {
      if deactivating {
        audit := audit + [Audit(UserDeactivated, id)];
        events := events + [Event(Deactivated, id, updated)];
      } else if reactivating {
        audit := audit + [Audit(UserReactivated, id)];
        events := events + [Event(Updated, id, updated)];
      } else {
        events := events + [Event(Updated, id, updated)];
      }
    }

    method ReplaceUser(id: Id, req: PutReq, chance: Chance) returns (r: Result)
      modifies this
      ensures (View(), r) == Put(mail, old(View()), id, req, chance)
    {
      if !chance.load.Fine? {
        return Failed;
      }
      if id !in users || !Addressable(users[id]) {
        return NotFound;
      }
      var existing := users[id];
      if !mail.usable(req.email) {
        return Invalid;
      }
      var email := mail.canon(req.email);
      var fields := Fields(Some(email), false, Some(JoinName(req.given, req.family)), Some(req.externalId),
                           Some(if req.active then "active" else "deactivated"));
      var unverified := !Carries(mail, existing.email, email);
      if unverified {
        fields := fields.(unverify := true);
      }
      OtherWriters(chance.during);
      var ok := UpdateUser(id, fields, chance.update);
      if !ok {
        return Failed;
      }
      if unverified {
        audit := audit + [Audit(EmailUnverified, id)];
      }
      if !req.active {
        var cut := RevokeUserAccess(id, chance.revoke);
        if !cut {
          return Failed;
        }
      }
      OtherWriters(chance.after);
      if !chance.reload.Fine? {
        return Failed;
      }
      if id !in users {
        return NotFound;
      }
      EmitUserChange(id, !req.active, req.active && !IsActive(existing.status), users[id]);
      return Done(users[id]);
    }

    method PatchUser(id: Id, req: PatchReq, chance: Chance) returns (r: Result)
      modifies this
      ensures (View(), r) == Patch(mail, old(View()), id, req, chance)
    {
      if !chance.load.Fine? {
        return Failed;
      }
      if id !in users || !Addressable(users[id]) {
        return NotFound;
      }
      var existing := users[id];
      var change := PatchFields(mail, existing, req);
      if change.None? {
        return Invalid;
      }
      OtherWriters(chance.during);
      var ok := UpdateUser(id, change.value.fields, chance.update);
      if !ok {
        return Failed;
      }
      if change.value.fields.unverify {
        audit := audit + [Audit(EmailUnverified, id)];
      }
      if change.value.deactivate {
        var cut := RevokeUserAccess(id, chance.revoke);
        if !cut {
          return Failed;
        }
      }
      OtherWriters(chance.after);
      if !chance.reload.Fine? {
        return Failed;
      }
      if id !in users {
        return NotFound;
      }
      EmitUserChange(id, change.value.deactivate, change.value.reactivate, users[id]);
      return Done(users[id]);
    }

    method DeleteUser(id: Id, chance: Chance) returns (r: Result)
      modifies this
      ensures (View(), r) == Delete(old(View()), id, chance)
    {
      if !chance.load.Fine? {
        return Failed;
      }
      if id !in users || !Addressable(users[id]) {
        return NotFound;
      }
      var existing := users[id];
      var cut := RevokeUserAccess(id, chance.revoke);
      if !cut {
        return Failed;
      }
      OtherWriters(chance.during);
      if chance.update.Lost? {
        return Failed;
      }
      users, tokens, sessions := users - {id}, tokens - {id}, sessions - {id};
      if chance.update.Unacked? {
        return Failed;
      }
      audit := audit + [Audit(UserDeleted, id)];
      existing := existing.(status := "deactivated");
      events := events + [Event(Deactivated, id, existing)];
      return Done(existing);
    }
  }
}
