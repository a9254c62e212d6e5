/** The native-app callback: concurrent requests race for one result.

    Each request runs the handler one shared step at a time: the validity check,
    the load of the consumed flag with the checks after it, the compare-and-swap,
    for an error the answer, and the non-blocking send on a channel of capacity
    one. Steps of different requests interleave freely with the receiver.
*/
module OneShotCallback {
  import opened Prelude

  /** Query values in order of appearance; code characters stand for bytes. */
  datatype Request = Request(get: bool, path: string, states: seq<string>, issuers: seq<string>, error: string,
      codes: seq<string>)

  datatype Handler = Handler(state: string, issuer: string)

  datatype Pc = Entered | AtLoad | AtSwap | AtAnswer | AtSend | Returned

  /** status is what the request has been answered so far. */
  datatype Call = Call(request: Request, pc: Pc, status: Option<nat>)

  /** winner records which call's compare-and-swap succeeded. */
  datatype State = State(consumed: bool, channel: Option<string>, received: seq<string>, calls: seq<Call>,
      winner: Option<nat>)

  datatype Step = Arrive(request: Request) | Validate(i: nat) | Load(i: nat) | Swap(i: nat) | Deny(i: nat)
    | Send(i: nat) | Receive

  predicate Valid(h: Handler, r: Request) {
    r.get && r.path == "/callback" && r.states == [h.state] && r.issuers == [h.issuer]
  }

  predicate CodeOk(r: Request) { |r.codes| == 1 && 0 < |r.codes[0]| <= 1024 }

  /** What a winning request sends: its code, or nothing when it reports an error. */
  function Payload(r: Request): string { if r.error != "" || r.codes == [] then "" else r.codes[0] }

  function Init(): State { State(false, None, [], [], None) }

  predicate At(s: State, i: nat, pc: Pc) { i < |s.calls| && s.calls[i].pc == pc }

  predicate Enabled(s: State, step: Step) {
    match step
    case Arrive(_) => true
    case Validate(i) => At(s, i, Entered)
    case Load(i) => At(s, i, AtLoad)
    case Swap(i) => At(s, i, AtSwap)
    case Deny(i) => At(s, i, AtAnswer)
    case Send(i) => At(s, i, AtSend)
    case Receive => s.channel.Some?
  }

  function Goto(s: State, i: nat, pc: Pc): State
    requires i < |s.calls|
  {
    s.(calls := s.calls[i := s.calls[i].(pc := pc)])
  }

  function Answer(s: State, i: nat, pc: Pc, status: nat): State
    requires i < |s.calls|
  {
    s.(calls := s.calls[i := s.calls[i].(pc := pc, status := Some(status))])
  }

  function Apply(h: Handler, s: State, step: Step): State
    requires Enabled(s, step)
  {
    match step
    case Arrive(r) => s.(calls := s.calls + [Call(r, Entered, None)])
    case Validate(i) => if Valid(h, s.calls[i].request) then Goto(s, i, AtLoad) else Answer(s, i, Returned, 400)
    case Load(i) =>
      var r := s.calls[i].request;
      if s.consumed then Answer(s, i, Returned, 409)
      else if r.error != "" || CodeOk(r) then Goto(s, i, AtSwap)
      else Answer(s, i, Returned, 400)
    case Swap(i) =>
      if s.consumed then Answer(s, i, Returned, 409)
      else Goto(s.(consumed := true, winner := Some(i)), i, if s.calls[i].request.error != "" then AtAnswer else AtSend)
    case Deny(i) => Answer(s, i, AtSend, 403)
    case Send(i) =>
      var r := s.calls[i].request;
      var sent := if s.channel.None? then s.(channel := Some(Payload(r))) else s;
      if r.error != "" then Goto(sent, i, Returned) else Answer(sent, i, Returned, if s.channel.None? then 200 else 409)
    case Receive => s.(channel := None, received := s.received + [s.channel.value])
  }

  ghost predicate Legal(h: Handler, s: State, steps: seq<Step>)
    decreases |steps|
  {
    steps == [] || (Enabled(s, steps[0]) && Legal(h, Apply(h, s, steps[0]), steps[1..]))
  }

  ghost function Exec(h: Handler, s: State, steps: seq<Step>): State
    requires Legal(h, s, steps)
    decreases |steps|
  {
    if steps == [] then s else Exec(h, Apply(h, s, steps[0]), steps[1..])
  }

  // --------------------------------------------------------------- invariant

  /** Everything ever sent, oldest first. */
  function Sent(s: State): seq<string> { s.received + if s.channel.Some? then [s.channel.value] else [] }

  /** The call was told that its result was taken: a code, or a refusal by the user. */
  predicate Accepted(c: Call) { c.status == Some(200) || c.status == Some(403) }

  /** The call has swapped and not returned. */
  predicate Committed(c: Call) { c.pc == AtAnswer || c.pc == AtSend }

  /** The call's swap succeeded. */
  predicate Won(c: Call) { Committed(c) || Accepted(c) }

  /** What a call's place in the handler says of its request and of its answer. */
  ghost predicate CallInv(h: Handler, s: State, c: Call) {
    match c.pc
    case Entered => c.status.None?
    case AtLoad => c.status.None? && Valid(h, c.request)
    case AtSwap => c.status.None? && Valid(h, c.request) && (c.request.error != "" || CodeOk(c.request))
    case AtAnswer => c.status.None? && Valid(h, c.request) && c.request.error != ""
    case AtSend =>
      Valid(h, c.request)
      && if c.request.error != "" then c.status == Some(403) else c.status.None? && CodeOk(c.request)
    case Returned =>
      && c.status.Some?
      && (c.status == Some(400) || Valid(h, c.request))
      && (c.status == Some(409) ==> s.consumed)
      && (c.status == Some(403) ==> c.request.error != "")
      && (c.status == Some(200) ==> c.request.error == "" && CodeOk(c.request))
  }

  /** Only the winner sends, and it sends once. */
  ghost predicate WinnerInv(s: State) {
    && (s.consumed <==> s.winner.Some?)
    && (forall i | 0 <= i < |s.calls| && Won(s.calls[i]) :: s.winner == Some(i))
    && (s.winner.None? ==> Sent(s) == [])
    && (s.winner.Some? ==>
          && s.winner.value < |s.calls|
          && var c := s.calls[s.winner.value];
             && Won(c)
             && Sent(s) == if Committed(c) then [] else [Payload(c.request)])
  }

  ghost predicate Inv(h: Handler, s: State) {
    WinnerInv(s) && forall i | 0 <= i < |s.calls| :: CallInv(h, s, s.calls[i])
  }

  lemma OtherCallsStay(h: Handler, s: State, step: Step, i: nat)
    requires Inv(h, s) && Enabled(s, step) && i < |s.calls| && (step.Arrive? || step.Receive? || step.i != i)
    ensures var s' := Apply(h, s, step); i < |s'.calls| && s'.calls[i] == s.calls[i] && CallInv(h, s', s'.calls[i])
  {
    assert CallInv(h, s, s.calls[i]);
  }

  lemma OwnCallMoves(h: Handler, s: State, step: Step)
    requires Inv(h, s) && Enabled(s, step) && !step.Arrive? && !step.Receive?
    ensures var s' := Apply(h, s, step); step.i < |s'.calls| && CallInv(h, s', s'.calls[step.i])
  {
    assert CallInv(h, s, s.calls[step.i]);
    if step.Send? {
      assert s.winner == Some(step.i) && Sent(s) == [];
    }
  }

  lemma StepKeepsCalls(h: Handler, s: State, step: Step, i: nat)
    requires Inv(h, s) && Enabled(s, step) && i < |Apply(h, s, step).calls|
    ensures CallInv(h, Apply(h, s, step), Apply(h, s, step).calls[i])
  {
    if i < |s.calls| {
      if step.Arrive? || step.Receive? || step.i != i {
        OtherCallsStay(h, s, step, i);
      } else {
        OwnCallMoves(h, s, step);
      }
    }
  }

  /** A call that looks the same to the race. */
  predicate Alike(c: Call, c': Call) { c'.request == c.request && Won(c') == Won(c) && Committed(c') == Committed(c) }

  lemma AlikeKeepsWinner(s: State, s': State)
    requires WinnerInv(s) && s'.consumed == s.consumed && s'.winner == s.winner && Sent(s') == Sent(s)
    requires |s.calls| <= |s'.calls| && forall i | 0 <= i < |s'.calls| ::
               if i < |s.calls| then Alike(s.calls[i], s'.calls[i]) else !Won(s'.calls[i])
    ensures WinnerInv(s')
  {
  }

  lemma WinKeepsWinner(h: Handler, s: State, i: nat)
    requires Inv(h, s) && Enabled(s, Swap(i)) && !s.consumed
    ensures WinnerInv(Apply(h, s, Swap(i)))
  {
    assert CallInv(h, s, s.calls[i]);
  }

  lemma SendKeepsWinner(h: Handler, s: State, i: nat)
    requires Inv(h, s) && Enabled(s, Send(i))
    ensures WinnerInv(Apply(h, s, Send(i)))
  {
  }

  predicate Quiet(s: State, step: Step) { !step.Send? && !(step.Swap? && !s.consumed) }

  lemma QuietStepIsAlike(h: Handler, s: State, step: Step, i: nat)
    requires Inv(h, s) && Enabled(s, step) && Quiet(s, step) && i < |Apply(h, s, step).calls|
    ensures var s' := Apply(h, s, step); if i < |s.calls| then Alike(s.calls[i], s'.calls[i]) else !Won(s'.calls[i])
  {
    if i < |s.calls| {
      assert CallInv(h, s, s.calls[i]);
    }
  }

  lemma QuietStepSends(h: Handler, s: State, step: Step)
    requires Enabled(s, step) && Quiet(s, step)
    ensures var s' := Apply(h, s, step);
            && s'.consumed == s.consumed && s'.winner == s.winner && Sent(s') == Sent(s) && |s.calls| <= |s'.calls|
  {
  }

  lemma StepKeepsWinner(h: Handler, s: State, step: Step)
    requires Inv(h, s) && Enabled(s, step)
    ensures WinnerInv(Apply(h, s, step))
  {
    if step.Send? {
      SendKeepsWinner(h, s, step.i);
    } else if step.Swap? && !s.consumed {
      WinKeepsWinner(h, s, step.i);
    } else {
      var s' := Apply(h, s, step);
      QuietStepSends(h, s, step);
      forall i | 0 <= i < |s'.calls|
        ensures if i < |s.calls| then Alike(s.calls[i], s'.calls[i]) else !Won(s'.calls[i])
      {
        QuietStepIsAlike(h, s, step, i);
      }
      AlikeKeepsWinner(s, s');
    }
  }

  lemma StepKeepsInv(h: Handler, s: State, step: Step)
    requires Inv(h, s) && Enabled(s, step)
    ensures Inv(h, Apply(h, s, step))
  {
    StepKeepsWinner(h, s, step);
    forall i | 0 <= i < |Apply(h, s, step).calls| ensures CallInv(h, Apply(h, s, step), Apply(h, s, step).calls[i]) {
      StepKeepsCalls(h, s, step, i);
    }
  }

  lemma {:induction false} RunKeepsInv(h: Handler, s: State, steps: seq<Step>)
    requires Inv(h, s) && Legal(h, s, steps)
    ensures Inv(h, Exec(h, s, steps))
    decreases |steps|
  {
    if steps != [] {
      StepKeepsInv(h, s, steps[0]);
      RunKeepsInv(h, Apply(h, s, steps[0]), steps[1..]);
    }
  }

  // -------------------------------------------------------------- properties

  /** However requests interleave, at most one is accepted and at most one result is sent. */
  lemma AtMostOneAccepted(h: Handler, steps: seq<Step>, i: nat, j: nat)
    requires Legal(h, Init(), steps)
    requires var calls := Exec(h, Init(), steps).calls;
             i < |calls| && j < |calls| && Accepted(calls[i]) && Accepted(calls[j])
    ensures i == j && |Sent(Exec(h, Init(), steps))| <= 1
  {
    RunKeepsInv(h, Init(), steps);
  }

  /** A result was sent exactly when an accepted request has returned; it is that request's
      code, or empty on its error, and the request carried the expected state and issuer. */
  lemma SentIsTheAccepted(h: Handler, steps: seq<Step>)
    requires Legal(h, Init(), steps)
    ensures var s := Exec(h, Init(), steps);
            && |Sent(s)| <= 1
            && (Sent(s) != [] <==> exists i | 0 <= i < |s.calls| :: Accepted(s.calls[i]) && s.calls[i].pc == Returned)
            && forall i | 0 <= i < |s.calls| && Accepted(s.calls[i]) ::
                 && Valid(h, s.calls[i].request)
                 && Sent(s) == (if s.calls[i].pc == Returned then [Payload(s.calls[i].request)] else [])
                 && (s.calls[i].status == Some(200) <==> Payload(s.calls[i].request) != "")
  {
    RunKeepsInv(h, Init(), steps);
    var s := Exec(h, Init(), steps);
    forall i | 0 <= i < |s.calls| && Accepted(s.calls[i])
      ensures Valid(h, s.calls[i].request) && (s.calls[i].status == Some(200) <==> Payload(s.calls[i].request) != "")
      ensures Committed(s.calls[i]) <==> s.calls[i].pc != Returned
    {
      assert CallInv(h, s, s.calls[i]);
    }
  }

  /** The send never finds the channel full, so its fallback never drops the winner's result. */
  lemma SendFindsRoom(h: Handler, steps: seq<Step>, i: nat)
    requires Legal(h, Init(), steps) && Enabled(Exec(h, Init(), steps), Send(i))
    ensures var s := Exec(h, Init(), steps);
            s.channel.None? && Accepted(Apply(h, s, Send(i)).calls[i])
  {
    RunKeepsInv(h, Init(), steps);
    assert CallInv(h, Exec(h, Init(), steps), Exec(h, Init(), steps).calls[i]);
  }

  /** A request is told the callback was used only when another request used it. */
  lemma UsedMeansUsed(h: Handler, steps: seq<Step>, i: nat)
    requires Legal(h, Init(), steps)
    requires var s := Exec(h, Init(), steps); i < |s.calls| && s.calls[i].status == Some(409)
    ensures var s := Exec(h, Init(), steps);
            exists j | 0 <= j < |s.calls| :: j != i && Won(s.calls[j])
  {
    RunKeepsInv(h, Init(), steps);
    var s := Exec(h, Init(), steps);
    assert CallInv(h, s, s.calls[i]);
    assert Won(s.calls[s.winner.value]);
  }
}
