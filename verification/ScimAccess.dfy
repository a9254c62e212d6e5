/** Access that a deprovisioning request ended stays ended: through every later
    operation, revocation and act of others, until the account is set active again.
*/
module ScimAccess {
  import opened Prelude
  import opened EmailAddress
  import opened ScimStore
  import opened ScimSafety

  /** The request sets the account active. */
  predicate Reactivates(op: Op, id: Id) {
    (op.PutOp? && op.id == id && op.put.active) || (op.PatchOp? && op.id == id && op.patch.active == Some(true))
  }

  /** x is the user or an agent of theirs, has no access, and cannot get any while the user
      cannot sign in. */
  ghost predicate Out(w: World, id: Id, x: Id) {
    Reach(w, id, x) && ShutOut(w, id) && !UnderWay(w, x) && Cut(w, x)
  }

  lemma FramedOut(w: World, w': World, id: Id, x: Id)
    requires Out(w, id, x) && Framed(w, w') && !UnderWay(w', x) && Cut(w', x)
    ensures Out(w', id, x)
  {
  }

  lemma MeanwhileOut(w: World, acts: seq<Act>, id: Id, x: Id)
    requires Out(w, id, x)
    ensures Out(Meanwhile(w, acts), id, x)
  {
    ShutOutBars(w, id, x);
    MeanwhileBarred(w, acts, x);
    MeanwhileFrame(w, acts);
    FramedOut(w, Meanwhile(w, acts), id, x);
  }

  lemma {:induction false} KillsOut(w: World, kills: seq<Kill>, beats: seq<Beat>, id: Id, x: Id)
    requires Out(w, id, x)
    ensures Out(RunKills(w, kills, beats).0, id, x)
    decreases |kills|
  {
    if kills != [] {
      MeanwhileOut(w, BeatAt(beats, 0).acts, id, x);
      if BeatAt(beats, 0).fault.Fine? {
        KillsOut(Slain(Meanwhile(w, BeatAt(beats, 0).acts), kills[0]), kills[1..], Rest(beats), id, x);
      }
    }
  }

  lemma WriteOut(w: World, y: Id, ch: Change, chance: Chance, id: Id, x: Id)
    requires Out(w, id, x) && (y == id && ch.fields.status.Some? ==> ch.fields.status.value == "deactivated")
    ensures Out(Write(w, y, ch, chance).0, id, x)
  {
    var w1 := Meanwhile(w, chance.during);
    var w2 := Write(w, y, ch, chance).0;
    MeanwhileOut(w, chance.during, id, x);
    if y == id && ch.fields.status.Some? && id in w2.users && w2 != w1 {
      DeactivatedIsShutOut(w2, id);
    }
  }

  lemma SettleOut(w: World, y: Id, ch: Change, chance: Chance, id: Id, x: Id)
    requires Out(w, id, x)
    ensures Out(Settle(w, y, ch, chance).0, id, x)
  {
    var w1 := Audited(w, y, ch);
    KillsOut(w1, KillsOf(w, y, ch), chance.revoke, id, x);
    MeanwhileOut(RunKills(w1, KillsOf(w, y, ch), chance.revoke).0, chance.after, id, x);
  }

  lemma DeleteOut(w: World, y: Id, chance: Chance, id: Id, x: Id)
    requires Out(w, id, x)
    ensures Out(Delete(w, y, chance).0, id, x)
  {
    KillsOut(w, Kills(w, y), chance.revoke, id, x);
    MeanwhileOut(RunKills(w, Kills(w, y), chance.revoke).0, chance.during, id, x);
  }

  lemma StepOut(m: Mail, w: World, op: Op, id: Id, x: Id)
    requires Out(w, id, x) && !Reactivates(op, id)
    ensures Out(Apply(m, w, op).0, id, x)
  {
    if op.Others? {
      MeanwhileOut(w, op.acts, id, x);
    } else if op.DeleteOp? {
      DeleteOut(w, op.id, op.chance, id, x);
    } else if ChangeOf(m, w, op).Some? {
      var ch := ChangeOf(m, w, op).value;
      WriteOut(w, op.id, ch, op.chance, id, x);
      SettleOut(Write(w, op.id, ch, op.chance).0, op.id, ch, op.chance, id, x);
    }
  }

  /** Over every run that does not set the account active again. */
  lemma {:induction false} RunStaysOut(m: Mail, w: World, ops: seq<Op>, id: Id, x: Id)
    requires Out(w, id, x) && forall op <- ops :: !Reactivates(op, id)
    ensures Out(Run(m, w, ops), id, x)
    decreases |ops|
  {
    if ops != [] {
      StepOut(m, w, ops[0], id, x);
      RunStaysOut(m, Apply(m, w, ops[0]).0, ops[1..], id, x);
    }
  }

  /** No sign-in of x can slip past the request: none was under way when a deactivation was
      written; for a deletion x is the user, or could not sign in. */
  ghost predicate NoneSlipsPast(m: Mail, w: World, op: Op, x: Id) {
    match op
    case DeleteOp(id, _) => x == id || Barred(w, x)
    case Others(_) => false
    case _ => ChangeOf(m, w, op).Some? ==> !UnderWay(Write(w, op.id, ChangeOf(m, w, op).value, op.chance).0, x)
  }

  lemma DeprovisionedIsOut(m: Mail, w: World, op: Op, x: Id)
    requires Deprovisions(op) && Succeeds(m, w, op) && Reach(w, op.id, x) && NoneSlipsPast(m, w, op, x)
    ensures Out(Apply(m, w, op).0, op.id, x)
  {
    var w' := Apply(m, w, op).0;
    if op.DeleteOp? {
      DeleteCuts(w, op.id, op.chance, x);
      KillsFrame(w, Kills(w, op.id), op.chance.revoke);
      MeanwhileFrame(RunKills(w, Kills(w, op.id), op.chance.revoke).0, op.chance.during);
    } else {
      DeactivationSignal(m, w, op);
      DeactivatedIsShutOut(w', op.id);
      CommitAgents(w, op.id, ChangeOf(m, w, op).value, op.chance);
    }
  }

  lemma CommitAgents(w: World, id: Id, ch: Change, chance: Chance)
    ensures Commit(w, id, ch, chance).0.agents == w.agents
  {
    WriteFrame(w, id, ch, chance);
    var w1 := Audited(Write(w, id, ch, chance).0, id, ch);
    KillsFrame(w1, KillsOf(w1, id, ch), chance.revoke);
    MeanwhileFrame(RunKills(w1, KillsOf(w1, id, ch), chance.revoke).0, chance.after);
  }

  /** A deprovisioning request that reports success keeps the user and their agents out, as far
      as no sign-in slips past it, through every later run that does not set the account
      active again, whatever fails and whatever others do. */
  lemma DeprovisioningLasts(m: Mail, w: World, op: Op, later: seq<Op>, x: Id)
    requires Deprovisions(op) && Succeeds(m, w, op) && Reach(w, op.id, x) && NoneSlipsPast(m, w, op, x)
    requires forall l <- later :: !Reactivates(l, op.id)
    ensures Cut(Run(m, Apply(m, w, op).0, later), x)
  {
    DeprovisionedIsOut(m, w, op, x);
    RunStaysOut(m, Apply(m, w, op).0, later, op.id, x);
  }
}
