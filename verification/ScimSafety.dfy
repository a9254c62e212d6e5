/** What every run of SCIM operations keeps, whatever the repository and other
    writers do: access that has ended, the deprovisioning signal, and the rows
    SCIM may not touch.
*/
module ScimSafety {
  import opened Prelude
  import opened Text
  import opened EmailAddress
  import opened ScimStore

  // ---------------------------------------------------- frames of the pieces

  /** What others and revocations may change: rows lose or gain a verified flag or go. */
  ghost predicate Framed(w: World, w': World) {
    && w' == w.(users := w'.users, tokens := w'.tokens, sessions := w'.sessions, signins := w'.signins,
       proven := w'.proven)
    && w'.users.Keys <= w.users.Keys
    && forall x <- w'.users :: w'.users[x] == w.users[x].(verified := w'.users[x].verified)
  }

  lemma PerformFrame(w: World, act: Act)
    ensures Framed(w, Perform(w, act))
  {
  }

  lemma FramedOnward(w: World, w1: World, w2: World)
    requires Framed(w, w1) && Framed(w1, w2)
    ensures Framed(w, w2)
  {
  }

  lemma {:induction false} MeanwhileFrame(w: World, acts: seq<Act>)
    ensures Framed(w, Meanwhile(w, acts))
    decreases |acts|
  {
    if acts != [] {
      PerformFrame(w, acts[0]);
      MeanwhileFrame(Perform(w, acts[0]), acts[1..]);
      FramedOnward(w, Perform(w, acts[0]), Meanwhile(w, acts));
    }
  }

  lemma {:induction false} KillsFrame(w: World, kills: seq<Kill>, beats: seq<Beat>)
    ensures Framed(w, RunKills(w, kills, beats).0)
    decreases |kills|
  {
    if kills != [] {
      var w1 := Meanwhile(w, BeatAt(beats, 0).acts);
      var w2 := Slain(w1, kills[0]);
      MeanwhileFrame(w, BeatAt(beats, 0).acts);
      FramedOnward(w, w1, w2);
      if BeatAt(beats, 0).fault.Fine? {
        KillsFrame(w2, kills[1..], Rest(beats));
        FramedOnward(w, w2, RunKills(w2, kills[1..], Rest(beats)).0);
      }
    }
  }

  // ------------------------------------------------------------ ended access

  /** No sign-in of x is under way and none would be admitted. */
  ghost predicate Barred(w: World, x: Id) { !Standing(w, x) && !UnderWay(w, x) }

  /** x stays barred and gains nothing. */
  ghost predicate Shut(w: World, w': World, x: Id) {
    Barred(w', x) && (x in w'.tokens ==> x in w.tokens) && (x in w'.sessions ==> x in w.sessions)
  }

  lemma PerformBarred(w: World, act: Act, x: Id)
    requires Barred(w, x)
    ensures Shut(w, Perform(w, act), x)
  {
  }

  lemma {:induction false} MeanwhileBarred(w: World, acts: seq<Act>, x: Id)
    requires Barred(w, x)
    ensures Shut(w, Meanwhile(w, acts), x)
    decreases |acts|
  {
    if acts != [] {
      PerformBarred(w, acts[0], x);
      MeanwhileBarred(Perform(w, acts[0]), acts[1..], x);
    }
  }

  lemma {:induction false} KillsBarred(w: World, kills: seq<Kill>, beats: seq<Beat>, x: Id)
    requires Barred(w, x) && RunKills(w, kills, beats).1
    ensures var w' := RunKills(w, kills, beats).0;
            && Barred(w', x)
            && (x in w'.tokens ==> x in w.tokens && KillTokens(x) !in kills)
            && (x in w'.sessions ==> x in w.sessions && KillSessions(x) !in kills)
    decreases |kills|
  {
    if kills != [] {
      var w1 := Meanwhile(w, BeatAt(beats, 0).acts);
      MeanwhileBarred(w, BeatAt(beats, 0).acts, x);
      KillsBarred(Slain(w1, kills[0]), kills[1..], Rest(beats), x);
    }
  }

  lemma {:induction false} KillsForAll(ids: seq<Id>, x: Id)
    requires x in ids
    ensures KillTokens(x) in KillsFor(ids) && KillSessions(x) in KillsFor(ids)
  {
    var pair := [KillTokens(ids[0]), KillSessions(ids[0])];
    assert pair[0] in pair && pair[1] in pair;
    if x != ids[0] {
      KillsForAll(ids[1..], x);
    }
  }

  /** A revocation that reports success cuts every account of the user's that cannot
      sign in meanwhile, whatever lands between its calls. */
  lemma RevokeCuts(w: World, id: Id, beats: seq<Beat>, x: Id)
    requires RunKills(w, Kills(w, id), beats).1 && Reach(w, id, x) && Barred(w, x)
    ensures var w' := RunKills(w, Kills(w, id), beats).0; Barred(w', x) && Cut(w', x)
  {
    KillsForAll(if x == id then [id] else AgentsOf(w, id), x);
    KillsBarred(w, Kills(w, id), beats, x);
  }

  /** The user cannot sign in: the row is gone, or its status does not allow it. */
  ghost predicate ShutOut(w: World, id: Id) {
    id in w.users ==> !FullyActive(w.users[id].status) && Lower(w.users[id].status) != "pending_deletion"
  }

  lemma DeactivatedIsShutOut(w: World, id: Id)
    requires id in w.users ==> w.users[id].status == "deactivated"
    ensures ShutOut(w, id)
  {
  }

  /** A row that cannot sign in shuts out its user and, through their owner, the agents. */
  lemma ShutOutBars(w: World, id: Id, x: Id)
    requires ShutOut(w, id) && Reach(w, id, x) && !UnderWay(w, x)
    ensures Barred(w, x)
  {
  }

  /** Why the row is written before access is revoked: once it is, only a sign-in that
      was admitted before the write can leave access behind. */
  lemma SettleCuts(w: World, id: Id, ch: Change, chance: Chance, x: Id)
    requires ShutOut(w, id) && ch.deactivate && Reach(w, id, x)
    requires !UnderWay(w, x) && Settle(w, id, ch, chance).1.Done?
    ensures var w' := Settle(w, id, ch, chance).0; Barred(w', x) && Cut(w', x)
  {
    var w1 := Audited(w, id, ch);
    ShutOutBars(w1, id, x);
    RevokeCuts(w1, id, chance.revoke, x);
    MeanwhileBarred(RunKills(w1, Kills(w1, id), chance.revoke).0, chance.after, x);
  }

  /** And such a sign-in does, if it opens its session late enough. */
  lemma LateSignInSurvives(w: World, id: Id, ch: Change, x: Id) returns (chance: Chance)
    requires id in w.users && ch.deactivate && UnderWay(w, x)
    ensures Settle(w, id, ch, chance).1.Done? && x in Settle(w, id, ch, chance).0.sessions
  {
    chance := Chance(Fine, [], Fine, [], [OpenSession(x)], Fine);
    var w1 := Audited(w, id, ch);
    QuietKills(w1, Kills(w1, id));
    var w2 := RunKills(w1, Kills(w1, id), []).0;
    assert [OpenSession(x)][1..] == [];
    assert Meanwhile(w2, [OpenSession(x)]) == Perform(w2, OpenSession(x));
  }

  /** With nothing landing and nothing failing, a revocation only removes tokens and sessions. */
  lemma {:induction false} QuietKills(w: World, kills: seq<Kill>)
    ensures var (w', ok) := RunKills(w, kills, []);
            ok && w' == w.(tokens := w'.tokens, sessions := w'.sessions)
    decreases |kills|
  {
    if kills != [] {
      QuietKills(Slain(w, kills[0]), kills[1..]);
    }
  }

  /** From a written deactivation on: every way it can succeed cuts x off exactly when no
      sign-in of x was under way at the write. */
  lemma CutIffNoneUnderWay(w: World, id: Id, ch: Change, x: Id)
    requires id in w.users && w.users[id].status == "deactivated" && ch.deactivate && Reach(w, id, x)
    ensures (forall chance: Chance :: Settle(w, id, ch, chance).1.Done? ==> Cut(Settle(w, id, ch, chance).0, x))
            <==> !UnderWay(w, x)
  {
    if UnderWay(w, x) {
      var chance := LateSignInSurvives(w, id, ch, x);
    } else {
      DeactivatedIsShutOut(w, id);
      forall chance: Chance | Settle(w, id, ch, chance).1.Done?
        ensures Cut(Settle(w, id, ch, chance).0, x)
      {
        SettleCuts(w, id, ch, chance, x);
      }
    }
  }

  /** DELETE revokes while the row can still sign in. The delete takes the user's own
      access and standing with it; an agent is sure to be cut exactly when it could not sign in. */
  lemma DeleteCuts(w: World, id: Id, chance: Chance, x: Id)
    requires Delete(w, id, chance).1.Done? && (x == id || (Reach(w, id, x) && Barred(w, x)))
    ensures var w' := Delete(w, id, chance).0; Barred(w', x) && Cut(w', x)
  {
    if x != id {
      RevokeCuts(w, id, chance.revoke, x);
      var w1 := RunKills(w, Kills(w, id), chance.revoke).0;
      MeanwhileBarred(w1, chance.during, x);
    }
  }

  lemma LateAgentSurvivesDelete(w: World, id: Id, x: Id) returns (chance: Chance)
    requires id in w.users && Addressable(w.users[id]) && x != id && !Barred(w, x)
    ensures Delete(w, id, chance).1.Done? && x in Delete(w, id, chance).0.sessions
  {
    QuietKills(w, Kills(w, id));
    var w1 := RunKills(w, Kills(w, id), []).0;
    var late := if UnderWay(w, x) then [OpenSession(x)] else [SignIn(x), OpenSession(x)];
    chance := Chance(Fine, late, Fine, [], [], Fine);
    assert late[|late| - 1..] == [OpenSession(x)] && [OpenSession(x)][1..] == [];
    if UnderWay(w, x) {
      assert Meanwhile(w1, late) == Perform(w1, OpenSession(x));
    } else {
      assert Standing(w1, x);
      var w2 := Perform(w1, SignIn(x));
      assert late[1..] == [OpenSession(x)];
      assert Meanwhile(w1, late) == Meanwhile(w2, [OpenSession(x)]) == Perform(w2, OpenSession(x));
    }
  }

  lemma DeleteCutsAgentIff(w: World, id: Id, x: Id)
    requires id in w.users && Addressable(w.users[id]) && Reach(w, id, x) && x != id
    ensures (forall chance: Chance :: Delete(w, id, chance).1.Done? ==> Cut(Delete(w, id, chance).0, x)) <==>
            Barred(w, x)
  {
    if Barred(w, x) {
      forall chance: Chance | Delete(w, id, chance).1.Done?
        ensures Cut(Delete(w, id, chance).0, x)
      {
        DeleteCuts(w, id, chance, x);
      }
    } else {
      var chance := LateAgentSurvivesDelete(w, id, x);
    }
  }

  // --------------------------------------------------------------- the signal

  function UnverifyAudit(ch: Change, id: Id): seq<Audit> {
    if ch.fields.unverify then [Audit(EmailUnverified, id)] else []
  }

  function ChangeAudit(ch: Change, id: Id): seq<Audit> {
    if ch.deactivate then [Audit(UserDeactivated, id)] else if ch.reactivate then [Audit(UserReactivated, id)] else []
  }

  function ChangeEvent(ch: Change): EventKind { if ch.deactivate then Deactivated else Updated }

  /** A deactivating change writes the deactivated status. */
  predicate Consistent(ch: Change) { ch.deactivate ==> ch.fields.status == Some("deactivated") }

  lemma WriteFrame(w: World, id: Id, ch: Change, chance: Chance)
    ensures var (w', ok) := Write(w, id, ch, chance);
            && w'.audit == w.audit && w'.events == w.events && w'.agents == w.agents
            && (ok ==> id in w'.users && (ch.fields.status.Some? ==> w'.users[id].status == ch.fields.status.value))
  {
    MeanwhileFrame(w, chance.during);
  }

  lemma SettleFrame(w: World, id: Id, ch: Change, chance: Chance)
    requires id in w.users
    ensures var (w', r) := Settle(w, id, ch, chance);
            && w'.events == (if r.Done? then w.events + [Event(ChangeEvent(ch), id, r.user)] else w.events)
            && w'.audit == w.audit + UnverifyAudit(ch, id) + (if r.Done? then ChangeAudit(ch, id) else [])
            && (r.Done? ==> id in w'.users && w'.users[id] == r.user && r.user.status == w.users[id].status)
  {
    var w1 := Audited(w, id, ch);
    KillsFrame(w1, KillsOf(w, id, ch), chance.revoke);
    MeanwhileFrame(RunKills(w1, KillsOf(w, id, ch), chance.revoke).0, chance.after);
  }

  /** A PUT or PATCH that reports success added one lifecycle event and exactly its audit
      entries, returns the stored row, and if deactivating left nothing to any account
      of the user's with no sign-in under way at the write. */
  lemma CommitSuccess(w: World, id: Id, ch: Change, chance: Chance)
    requires Commit(w, id, ch, chance).1.Done? && Consistent(ch)
    ensures var (w', r) := Commit(w, id, ch, chance);
            && w'.events == w.events + [Event(ChangeEvent(ch), id, r.user)]
            && w'.audit == w.audit + UnverifyAudit(ch, id) + ChangeAudit(ch, id)
            && id in w'.users && w'.users[id] == r.user
            && (ch.fields.status.Some? ==> r.user.status == ch.fields.status.value)
            && (ch.deactivate ==>
                  forall x | Reach(w, id, x) && !UnderWay(Write(w, id, ch, chance).0, x) :: Barred(w', x) && Cut(w', x))
  {
    WriteFrame(w, id, ch, chance);
    var w1 := Write(w, id, ch, chance).0;
    SettleFrame(w1, id, ch, chance);
    if ch.deactivate {
      DeactivatedIsShutOut(w1, id);
      forall x | Reach(w, id, x) && !UnderWay(w1, x)
        ensures Barred(Settle(w1, id, ch, chance).0, x) && Cut(Settle(w1, id, ch, chance).0, x)
      {
        SettleCuts(w1, id, ch, chance, x);
      }
    }
  }

  lemma CommitFailure(w: World, id: Id, ch: Change, chance: Chance)
    requires !Commit(w, id, ch, chance).1.Done?
    ensures var w' := Commit(w, id, ch, chance).0;
            w'.events == w.events && (w'.audit == w.audit || w'.audit == w.audit + UnverifyAudit(ch, id))
  {
    WriteFrame(w, id, ch, chance);
    var (w1, ok) := Write(w, id, ch, chance);
    if ok {
      SettleFrame(w1, id, ch, chance);
    }
  }

  // --------------------------------------------------------------------- runs

  datatype Op =
    | PutOp(id: Id, put: PutReq, chance: Chance)
    | PatchOp(id: Id, patch: PatchReq, chance: Chance)
    | DeleteOp(id: Id, chance: Chance)
    | Others(acts: seq<Act>)

  /** The change a PUT or PATCH commits to, if it gets past its checks. */
  function ChangeOf(m: Mail, w: World, op: Op): Option<Change> {
    if op.PutOp? && Load(w, op.id, op.chance.load).Done? then PutChange(m, w.users[op.id], op.put)
    else if op.PatchOp? && Load(w, op.id, op.chance.load).Done? then PatchChange(m, w.users[op.id], op.patch)
    else None
  }

  function Apply(m: Mail, w: World, op: Op): (World, Option<Result>) {
    match op
    case PutOp(id, req, chance) => var (w', r) := Put(m, w, id, req, chance); (w', Some(r))
    case PatchOp(id, req, chance) => var (w', r) := Patch(m, w, id, req, chance); (w', Some(r))
    case DeleteOp(id, chance) => var (w', r) := Delete(w, id, chance); (w', Some(r))
    case Others(acts) => (Meanwhile(w, acts), None)
  }

  function Run(m: Mail, w: World, ops: seq<Op>): World
    decreases |ops|
  {
    if ops == [] then w else Run(m, Apply(m, w, ops[0]).0, ops[1..])
  }

  /** The request takes the account away: PUT or PATCH active=false, or DELETE. */
  predicate Deprovisions(op: Op) {
    match op
    case PutOp(_, req, _) => !req.active
    case PatchOp(_, req, _) => req.active == Some(false)
    case DeleteOp(_, _) => true
    case Others(_) => false
  }

  predicate Succeeds(m: Mail, w: World, op: Op) {
    var r := Apply(m, w, op).1;
    r.Some? && r.value.Done?
  }

  /** user.deactivated events for id. */
  function Signals(events: seq<Event>, id: Id): nat {
    if events == [] then 0
    else Signals(events[..|events| - 1], id)
         + Bit(events[|events| - 1].kind.Deactivated? && events[|events| - 1].id == id)
  }

  function Successes(m: Mail, w: World, ops: seq<Op>, id: Id): nat
    decreases |ops|
  {
    if ops == [] then 0
    else Bit(Deprovisions(ops[0]) && ops[0].id == id && Succeeds(m, w, ops[0]))
         + Successes(m, Apply(m, w, ops[0]).0, ops[1..], id)
  }

  lemma DeleteFrame(w: World, id: Id, chance: Chance)
    ensures var (w', r) := Delete(w, id, chance);
            && w'.events == (if r.Done? then w.events + [Event(Deactivated, id, r.user)] else w.events)
            && w'.audit == (if r.Done? then w.audit + [Audit(UserDeleted, id)] else w.audit)
  {
    KillsFrame(w, Kills(w, id), chance.revoke);
    MeanwhileFrame(RunKills(w, Kills(w, id), chance.revoke).0, chance.during);
  }

  /** One operation: success adds exactly its one lifecycle event, anything else adds none. */
  lemma OneSignalPerSuccess(m: Mail, w: World, op: Op)
    ensures var (w', r) := Apply(m, w, op);
            w'.events == if Succeeds(m, w, op)
                         then w.events + [Event(if Deprovisions(op) then Deactivated else Updated, op.id, r.value.user)]
                         else w.events
  {
    match op
    case PutOp(_, _, _) => SignalOfCommit(m, w, op);
    case PatchOp(_, _, _) => SignalOfCommit(m, w, op);
    case DeleteOp(id, chance) => DeleteFrame(w, id, chance);
    case Others(acts) => MeanwhileFrame(w, acts);
  }

  lemma SignalOfCommit(m: Mail, w: World, op: Op)
    requires op.PutOp? || op.PatchOp?
    ensures var (w', r) := Apply(m, w, op);
            && r.Some?
            && w'.events == if r.value.Done?
                            then w.events
                                 + [Event(if Deprovisions(op) then Deactivated else Updated, op.id, r.value.user)]
                            else w.events
  {
    var change := ChangeOf(m, w, op);
    if change.Some? {
      if Commit(w, op.id, change.value, op.chance).1.Done? {
        CommitSuccess(w, op.id, change.value, op.chance);
      } else {
        CommitFailure(w, op.id, change.value, op.chance);
      }
    }
  }

  /** Conservation over every run: as many user.deactivated events as
      deprovisioning calls that reported success. */
  lemma {:induction false} SignalsAreConserved(m: Mail, w: World, ops: seq<Op>, id: Id)
    ensures Signals(Run(m, w, ops).events, id) == Signals(w.events, id) + Successes(m, w, ops, id)
    decreases |ops|
  {
    if ops != [] {
      OneSignalPerSuccess(m, w, ops[0]);
      var w' := Apply(m, w, ops[0]).0;
      if Succeeds(m, w, ops[0]) {
        assert w'.events[..|w.events|] == w.events;
      }
      SignalsAreConserved(m, w', ops[1..], id);
    }
  }

  /** A PUT or PATCH with active=false reports success exactly when it emitted one
      user.deactivated event and one user_deactivated audit entry; by then the row is
      deactivated and every account of the user's with no sign-in under way at the
      write is cut off. */
  lemma DeactivationSignal(m: Mail, w: World, op: Op)
    requires (op.PutOp? || op.PatchOp?) && Deprovisions(op)
    ensures var (w', r) := Apply(m, w, op);
            && (Succeeds(m, w, op) <==> exists u :: w'.events == w.events + [Event(Deactivated, op.id, u)])
            && (Succeeds(m, w, op) <==> w.audit < w'.audit && w'.audit[|w'.audit| - 1] == Audit(UserDeactivated, op.id))
            && (Succeeds(m, w, op) ==>
                  && op.id in w'.users && w'.users[op.id].status == "deactivated"
                  && ChangeOf(m, w, op).Some?
                  && forall x | Reach(w, op.id, x)
                     && !UnderWay(Write(w, op.id, ChangeOf(m, w, op).value, op.chance).0, x) ::
                       Barred(w', x) && Cut(w', x))
  {
    var (w', r) := Apply(m, w, op);
    OneSignalPerSuccess(m, w, op);
    if Succeeds(m, w, op) {
      assert w'.events == w.events + [Event(Deactivated, op.id, r.value.user)];
    }
    var change := ChangeOf(m, w, op);
    if change.Some? {
      if Commit(w, op.id, change.value, op.chance).1.Done? {
        CommitSuccess(w, op.id, change.value, op.chance);
      } else {
        CommitFailure(w, op.id, change.value, op.chance);
      }
    }
  }
}
