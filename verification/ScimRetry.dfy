/** When a retry still delivers the deprovisioning signal after attempts that
    failed part-way, and which rows no run changes.
*/
module ScimRetry {
  import opened Prelude
  import opened EmailAddress
  import opened ScimStore
  import opened ScimSafety

  // ---------------------------------------------------- what lands in a run

  /** The acts of others that land before the calls of a revocation stop. */
  function KillActs(kills: seq<Kill>, beats: seq<Beat>): seq<Act>
    decreases |kills|
  {
    if kills == [] then []
    else BeatAt(beats, 0).acts + if BeatAt(beats, 0).fault.Fine? then KillActs(kills[1..], Rest(beats)) else []
  }

  function SettleActs(w: World, id: Id, ch: Change, chance: Chance): seq<Act> {
    KillActs(KillsOf(w, id, ch), chance.revoke)
    + if RunKills(Audited(w, id, ch), KillsOf(w, id, ch), chance.revoke).1 then chance.after else []
  }

  /** The acts of others that land during an operation. */
  function Landed(m: Mail, w: World, op: Op): seq<Act> {
    match op
    case Others(acts) => acts
    case DeleteOp(id, chance) =>
      if !Load(w, id, chance.load).Done? then []
      else
        KillActs(Kills(w, id), chance.revoke)
        + if RunKills(w, Kills(w, id), chance.revoke).1 then chance.during else []
    case _ =>
      var change := ChangeOf(m, w, op);
      if change.None? then []
      else
        var (w1, ok) := Write(w, op.id, change.value, op.chance);
        op.chance.during + if ok then SettleActs(w1, op.id, change.value, op.chance) else []
  }

  lemma {:induction false} MeanwhileKeeps(w: World, acts: seq<Act>, x: Id)
    ensures x in Meanwhile(w, acts).users <==> x in w.users && Remove(x) !in acts
    decreases |acts|
  {
    if acts != [] {
      MeanwhileKeeps(Perform(w, acts[0]), acts[1..], x);
      assert Remove(x) in acts <==> acts[0] == Remove(x) || Remove(x) in acts[1..];
    }
  }

  lemma {:induction false} KillsKeep(w: World, kills: seq<Kill>, beats: seq<Beat>, x: Id)
    ensures x in RunKills(w, kills, beats).0.users <==> x in w.users && Remove(x) !in KillActs(kills, beats)
    decreases |kills|
  {
    if kills != [] {
      var w1 := Meanwhile(w, BeatAt(beats, 0).acts);
      MeanwhileKeeps(w, BeatAt(beats, 0).acts, x);
      if BeatAt(beats, 0).fault.Fine? {
        KillsKeep(Slain(w1, kills[0]), kills[1..], Rest(beats), x);
      }
    }
  }

  // ----------------------------------------------------------- rows that stay

  ghost predicate Provisioned(w: World, x: Id) { x in w.users && Addressable(w.users[x]) }

  /** A DELETE of x whose delete call took effect, whatever it reported. */
  predicate Deletes(w: World, op: Op, x: Id) {
    && op.DeleteOp? && op.id == x && Load(w, x, op.chance.load).Done?
    && RunKills(w, Kills(w, x), op.chance.revoke).1 && !op.chance.update.Lost?
  }

  /** The operation takes row x away, or someone does while it runs. */
  predicate Removes(m: Mail, w: World, op: Op, x: Id) { Remove(x) in Landed(m, w, op) || Deletes(w, op, x) }

  lemma FramedKeeps(w: World, w': World, x: Id)
    requires Framed(w, w')
    ensures Provisioned(w', x) <==> Provisioned(w, x) && x in w'.users
  {
  }

  lemma SettleKeeps(w: World, id: Id, ch: Change, chance: Chance, x: Id)
    ensures Provisioned(Settle(w, id, ch, chance).0, x) <==>
            Provisioned(w, x) && Remove(x) !in SettleActs(w, id, ch, chance)
  {
    var w1 := Audited(w, id, ch);
    var (w2, cut) := RunKills(w1, KillsOf(w, id, ch), chance.revoke);
    KillsFrame(w1, KillsOf(w, id, ch), chance.revoke);
    KillsKeep(w1, KillsOf(w, id, ch), chance.revoke, x);
    FramedKeeps(w1, w2, x);
    MeanwhileFrame(w2, chance.after);
    MeanwhileKeeps(w2, chance.after, x);
    FramedKeeps(w2, Meanwhile(w2, chance.after), x);
  }

  lemma WriteKeeps(w: World, id: Id, ch: Change, chance: Chance, x: Id)
    ensures Provisioned(Write(w, id, ch, chance).0, x) <==> Provisioned(w, x) && Remove(x) !in chance.during
  {
    MeanwhileFrame(w, chance.during);
    MeanwhileKeeps(w, chance.during, x);
    FramedKeeps(w, Meanwhile(w, chance.during), x);
  }

  lemma DeleteKeeps(m: Mail, w: World, op: Op, x: Id)
    requires op.DeleteOp?
    ensures Provisioned(Apply(m, w, op).0, x) <==> Provisioned(w, x) && !Removes(m, w, op, x)
  {
    var kills := Kills(w, op.id);
    var w1 := RunKills(w, kills, op.chance.revoke).0;
    KillsFrame(w, kills, op.chance.revoke);
    KillsKeep(w, kills, op.chance.revoke, x);
    FramedKeeps(w, w1, x);
    MeanwhileFrame(w1, op.chance.during);
    MeanwhileKeeps(w1, op.chance.during, x);
    FramedKeeps(w1, Meanwhile(w1, op.chance.during), x);
  }

  /** One operation keeps row x provisioned exactly when nothing in it takes the row away. */
  lemma StepKeepsIff(m: Mail, w: World, op: Op, x: Id)
    ensures Provisioned(Apply(m, w, op).0, x) <==> Provisioned(w, x) && !Removes(m, w, op, x)
  {
    if op.DeleteOp? {
      DeleteKeeps(m, w, op, x);
    } else if op.Others? {
      MeanwhileFrame(w, op.acts);
      MeanwhileKeeps(w, op.acts, x);
      FramedKeeps(w, Meanwhile(w, op.acts), x);
    } else if ChangeOf(m, w, op).Some? {
      var ch := ChangeOf(m, w, op).value;
      WriteKeeps(w, op.id, ch, op.chance, x);
      SettleKeeps(Write(w, op.id, ch, op.chance).0, op.id, ch, op.chance, x);
    }
  }

  /** No operation of the run takes row x away. */
  ghost predicate Survives(m: Mail, w: World, ops: seq<Op>, x: Id)
    decreases |ops|
  {
    ops == [] || (!Removes(m, w, ops[0], x) && Survives(m, Apply(m, w, ops[0]).0, ops[1..], x))
  }

  lemma {:induction false} RunKeepsIff(m: Mail, w: World, ops: seq<Op>, x: Id)
    ensures Provisioned(Run(m, w, ops), x) <==> Provisioned(w, x) && Survives(m, w, ops, x)
    decreases |ops|
  {
    if ops != [] {
      StepKeepsIff(m, w, ops[0], x);
      RunKeepsIff(m, Apply(m, w, ops[0]).0, ops[1..], x);
    }
  }

  // -------------------------------------------------------------------- retry

  predicate Spares(acts: seq<Act>, x: Id) { Remove(x) !in acts }

  /** Nothing in the operation goes wrong and nobody removes x during it. */
  predicate Calm(chance: Chance, x: Id) {
    && chance.load.Fine? && chance.update.Fine? && chance.reload.Fine?
    && (forall b <- chance.revoke :: b.fault.Fine? && Spares(b.acts, x))
    && Spares(chance.during, x) && Spares(chance.after, x)
  }

  /** The request names no address, or a usable one. */
  predicate AddressOk(m: Mail, op: Op) {
    match op
    case PutOp(_, req, _) => m.usable(req.email)
    case PatchOp(_, req, _) =>
      && (req.email.Some? ==> m.usable(req.email.value))
      && (req.email.None? && req.userName.Some? ==> m.usable(req.userName.value))
    case _ => true
  }

  lemma {:induction false} CalmKills(w: World, kills: seq<Kill>, beats: seq<Beat>, x: Id)
    requires forall b <- beats :: b.fault.Fine? && Spares(b.acts, x)
    ensures RunKills(w, kills, beats).1 && Remove(x) !in KillActs(kills, beats)
    decreases |kills|
  {
    if kills != [] {
      assert beats != [] ==> beats[0] in beats;
      CalmKills(Slain(Meanwhile(w, BeatAt(beats, 0).acts), kills[0]), kills[1..], Rest(beats), x);
    }
  }

  lemma CalmCommitSucceeds(w: World, id: Id, ch: Change, chance: Chance)
    requires id in w.users && Calm(chance, id)
    ensures Commit(w, id, ch, chance).1.Done?
  {
    MeanwhileKeeps(w, chance.during, id);
    var w1 := Audited(Write(w, id, ch, chance).0, id, ch);
    CalmKills(w1, KillsOf(w1, id, ch), chance.revoke, id);
    KillsKeep(w1, KillsOf(w1, id, ch), chance.revoke, id);
    MeanwhileKeeps(RunKills(w1, KillsOf(w1, id, ch), chance.revoke).0, chance.after, id);
  }

  /** An undisturbed deprovisioning request succeeds exactly when the row is there. */
  lemma CalmSucceedsIff(m: Mail, w: World, op: Op)
    requires Deprovisions(op) && AddressOk(m, op) && Calm(op.chance, op.id)
    ensures Succeeds(m, w, op) <==> Provisioned(w, op.id)
  {
    if Provisioned(w, op.id) {
      if op.DeleteOp? {
        CalmKills(w, Kills(w, op.id), op.chance.revoke, op.id);
      } else {
        CalmCommitSucceeds(w, op.id, ChangeOf(m, w, op).value, op.chance);
      }
    }
  }

  lemma {:induction false} RunAppend(m: Mail, w: World, ops: seq<Op>, op: Op)
    ensures Run(m, w, ops + [op]) == Apply(m, Run(m, w, ops), op).0
    decreases |ops|
  {
    if ops == [] {
      assert (ops + [op])[1..] == [];
    } else {
      assert (ops + [op])[1..] == ops[1..] + [op];
      RunAppend(m, Apply(m, w, ops[0]).0, ops[1..], op);
    }
  }

  /** After any attempts, however they failed part-way, an undisturbed retry by PUT, PATCH
      or DELETE succeeds and adds the user.deactivated event exactly when the row was there
      and no attempt took it away: no DELETE whose delete call took effect, no removal by others. */
  lemma RetryDeliversSignal(m: Mail, w: World, attempts: seq<Op>, retry: Op)
    requires Deprovisions(retry) && AddressOk(m, retry) && Calm(retry.chance, retry.id)
    ensures var id := retry.id; var delivered := Provisioned(w, id) && Survives(m, w, attempts, id);
            && (Succeeds(m, Run(m, w, attempts), retry) <==> delivered)
            && Signals(Run(m, w, attempts + [retry]).events, id)
               == Signals(w.events, id) + Successes(m, w, attempts, id) + Bit(delivered)
  {
    var id, w' := retry.id, Run(m, w, attempts);
    RunKeepsIff(m, w, attempts, id);
    CalmSucceedsIff(m, w', retry);
    RunAppend(m, w, attempts, retry);
    SignalsAreConserved(m, w, attempts, id);
    SignalsAreConserved(m, w', [retry], id);
    assert [retry][1..] == [];
    assert Run(m, w', [retry]) == Apply(m, w', retry).0;
    assert Successes(m, w', [retry], id) == Bit(Succeeds(m, w', retry));
  }

  // -------------------------------------------------------- the lost signal

  lemma {:induction false} GoneAddsNothing(m: Mail, w: World, ops: seq<Op>, id: Id)
    requires !Provisioned(w, id)
    ensures Successes(m, w, ops, id) == 0
    decreases |ops|
  {
    if ops != [] {
      StepKeepsIff(m, w, ops[0], id);
      GoneAddsNothing(m, Apply(m, w, ops[0]).0, ops[1..], id);
    }
  }

  /** A DELETE that takes effect and reports an error emits nothing, and no later request
      of any kind ever emits the user's user.deactivated event. */
  lemma UnackedDeleteLosesSignal(m: Mail, w: World, id: Id, chance: Chance, later: seq<Op>)
    requires Deletes(w, DeleteOp(id, chance), id) && chance.update.Unacked?
    ensures Delete(w, id, chance).1 == Failed && id !in Delete(w, id, chance).0.users
    ensures Signals(Run(m, Delete(w, id, chance).0, later).events, id) == Signals(w.events, id)
  {
    var w' := Delete(w, id, chance).0;
    DeleteFrame(w, id, chance);
    GoneAddsNothing(m, w', later, id);
    SignalsAreConserved(m, w', later, id);
  }

  // ------------------------------------------------------------ rows off limits

  /** Others neither verify nor remove x while the operation runs. */
  predicate Alone(m: Mail, w: World, op: Op, x: Id) {
    Verify(x) !in Landed(m, w, op) && Remove(x) !in Landed(m, w, op)
  }

  ghost predicate LeftAlone(m: Mail, w: World, ops: seq<Op>, x: Id)
    decreases |ops|
  {
    ops == [] || (Alone(m, w, ops[0], x) && LeftAlone(m, Apply(m, w, ops[0]).0, ops[1..], x))
  }

  ghost predicate SameRow(w: World, w': World, x: Id) { x in w.users && x in w'.users && w'.users[x] == w.users[x] }

  lemma {:induction false} MeanwhileElsewhere(w: World, acts: seq<Act>, x: Id)
    requires x in w.users && Verify(x) !in acts && Remove(x) !in acts
    ensures SameRow(w, Meanwhile(w, acts), x)
    decreases |acts|
  {
    if acts != [] {
      assert acts[0] in acts;
      MeanwhileElsewhere(Perform(w, acts[0]), acts[1..], x);
    }
  }

  lemma {:induction false} KillsElsewhere(w: World, kills: seq<Kill>, beats: seq<Beat>, x: Id)
    requires x in w.users && Verify(x) !in KillActs(kills, beats) && Remove(x) !in KillActs(kills, beats)
    ensures SameRow(w, RunKills(w, kills, beats).0, x)
    decreases |kills|
  {
    if kills != [] {
      MeanwhileElsewhere(w, BeatAt(beats, 0).acts, x);
      if BeatAt(beats, 0).fault.Fine? {
        KillsElsewhere(Slain(Meanwhile(w, BeatAt(beats, 0).acts), kills[0]), kills[1..], Rest(beats), x);
      }
    }
  }

  lemma SettleElsewhere(w: World, id: Id, ch: Change, chance: Chance, x: Id)
    requires x in w.users && Verify(x) !in SettleActs(w, id, ch, chance) && Remove(x) !in SettleActs(w, id, ch, chance)
    ensures SameRow(w, Settle(w, id, ch, chance).0, x)
  {
    var w1 := Audited(w, id, ch);
    var (w2, cut) := RunKills(w1, KillsOf(w, id, ch), chance.revoke);
    KillsElsewhere(w1, KillsOf(w, id, ch), chance.revoke, x);
    if cut {
      MeanwhileElsewhere(w2, chance.after, x);
    }
  }

  lemma StepElsewhere(m: Mail, w: World, op: Op, x: Id)
    requires x in w.users && !Addressable(w.users[x]) && Alone(m, w, op, x)
    ensures SameRow(w, Apply(m, w, op).0, x)
  {
    if op.Others? {
      MeanwhileElsewhere(w, op.acts, x);
    } else if op.DeleteOp? {
      if Load(w, op.id, op.chance.load).Done? {
        KillsElsewhere(w, Kills(w, op.id), op.chance.revoke, x);
        if RunKills(w, Kills(w, op.id), op.chance.revoke).1 {
          MeanwhileElsewhere(RunKills(w, Kills(w, op.id), op.chance.revoke).0, op.chance.during, x);
        }
      }
    } else if ChangeOf(m, w, op).Some? {
      var ch := ChangeOf(m, w, op).value;
      MeanwhileElsewhere(w, op.chance.during, x);
      if Write(w, op.id, ch, op.chance).1 {
        SettleElsewhere(Write(w, op.id, ch, op.chance).0, op.id, ch, op.chance, x);
      }
    }
  }

  /** Anonymous, merged and agent rows come out of every run as they went in. */
  lemma {:induction false} ProtectedRowsNeverChange(m: Mail, w: World, ops: seq<Op>, x: Id)
    requires x in w.users && !Addressable(w.users[x]) && LeftAlone(m, w, ops, x)
    ensures SameRow(w, Run(m, w, ops), x)
    decreases |ops|
  {
    if ops != [] {
      StepElsewhere(m, w, ops[0], x);
      ProtectedRowsNeverChange(m, Apply(m, w, ops[0]).0, ops[1..], x);
    }
  }
}
