/** The SCIM user store over a repository whose every call may fail, before or
    after it took effect, while verifications, removals and sign-ins by others
    land between any two calls of one operation.

    The clock fields of a row and the account-address follow-up are left out.
*/
module ScimStore {
  import opened Prelude
  import opened Text
  import opened DisplayName
  import opened EmailAddress

  type Id = string

  // -------------------------------------------------------------------- world

  datatype User = User(
    email: string, verified: bool, name: string, externalId: string, status: string,
    anonymous: bool, mergedInto: string, agent: bool)

  predicate Addressable(u: User) { !u.anonymous && u.mergedInto == "" && !u.agent }

  predicate IsActive(status: string) { Lower(status) != "deactivated" }

  datatype AuditKind = UserDeactivated | UserReactivated | EmailUnverified | UserDeleted
  datatype Audit = Audit(kind: AuditKind, id: Id)
  datatype EventKind = Deactivated | Updated
  datatype Event = Event(kind: EventKind, id: Id, user: User)

  /** tokens and sessions name the users that hold a live one; signins are the sign-ins
      that passed their checks and have not issued a refresh token yet. proven is
      history: the addresses whose owner has acted on a message, per account. */
  datatype World = World(
    users: map<Id, User>, tokens: set<Id>, sessions: set<Id>, agents: map<Id, seq<Id>>, signins: multiset<Id>,
    audit: seq<Audit>, events: seq<Event>, proven: map<Id, set<string>>)

  function AgentsOf(w: World, id: Id): seq<Id> { if id in w.agents then w.agents[id] else [] }

  function ProvenOf(w: World, id: Id): set<string> { if id in w.proven then w.proven[id] else {} }

  /** No live session or refresh token is left to x. */
  predicate Cut(w: World, x: Id) { x !in w.tokens && x !in w.sessions }

  /** The user and the agents they own. */
  predicate Reach(w: World, id: Id, x: Id) { x == id || x in AgentsOf(w, id) }

  predicate FullyActive(status: string) { Lower(status) == "" || Lower(status) == "active" }

  /** A sign-in is admitted: the account's status allows it, and an agent's owner is an
      active person. */
  predicate Standing(w: World, x: Id) {
    && x in w.users && (FullyActive(w.users[x].status) || Lower(w.users[x].status) == "pending_deletion")
    && forall o <- w.agents | x in w.agents[o] ::
         o in w.users && Addressable(w.users[o]) && FullyActive(w.users[o].status)
  }

  /** A sign-in of x has passed its checks and can still open its session. */
  predicate UnderWay(w: World, x: Id) { x in w.signins && x in w.users }

  // ------------------------------------------------- what others do meanwhile

  datatype Act = Verify(id: Id) | Remove(id: Id) | SignIn(id: Id) | OpenSession(id: Id) | IssueToken(id: Id)

  function Erase(w: World, id: Id): World {
    w.(users := w.users - {id}, tokens := w.tokens - {id}, sessions := w.sessions - {id})
  }

  /** Verify proves the address stored at that instant. Removing a row takes its own
      sessions and tokens along. A sign-in is checked, then opens a session, then
      issues its refresh token; both rows need the user's. */
  function Perform(w: World, act: Act): World {
    match act
    case Verify(id) =>
      if id !in w.users then w
      else w.(users := w.users[id := w.users[id].(verified := true)],
              proven := w.proven[id := ProvenOf(w, id) + {w.users[id].email}])
    case Remove(id) => Erase(w, id)
    case SignIn(id) => if Standing(w, id) then w.(signins := w.signins + multiset{id}) else w
    case OpenSession(id) => if UnderWay(w, id) then w.(sessions := w.sessions + {id}) else w
    case IssueToken(id) =>
      if UnderWay(w, id) then w.(tokens := w.tokens + {id}, signins := w.signins - multiset{id}) else w
  }

  function Meanwhile(w: World, acts: seq<Act>): World
    decreases |acts|
  {
    if acts == [] then w else Meanwhile(Perform(w, acts[0]), acts[1..])
  }

  // --------------------------------------------------------- repository calls

  /** Lost: error, no effect. Unacked: took effect, error returned. */
  datatype Fault = Fine | Lost | Unacked

  datatype Fields = Fields(email: Option<string>, unverify: bool, name: Option<string>, externalId: Option<string>,
      status: Option<string>)

  function Or<T>(o: Option<T>, default: T): T { if o.Some? then o.value else default }

  function Assign(u: User, f: Fields): User {
    u.(email := Or(f.email, u.email), verified := u.verified && !f.unverify, name := Or(f.name, u.name),
       externalId := Or(f.externalId, u.externalId), status := Or(f.status, u.status))
  }

  function UpdateRow(w: World, id: Id, f: Fields, fault: Fault): (World, bool) {
    if id !in w.users || fault.Lost? then (w, false)
    else (w.(users := w.users[id := Assign(w.users[id], f)]), fault.Fine?)
  }

  /** The calls of RevokeUserAccess. */
  datatype Kill = KillTokens(id: Id) | KillSessions(id: Id) | ListAgents

  function Slain(w: World, k: Kill): World {
    match k
    case KillTokens(x) => w.(tokens := w.tokens - {x})
    case KillSessions(x) => w.(sessions := w.sessions - {x})
    case ListAgents => w
  }

  function KillsFor(ids: seq<Id>): seq<Kill> {
    if ids == [] then [] else [KillTokens(ids[0]), KillSessions(ids[0])] + KillsFor(ids[1..])
  }

  function Kills(w: World, id: Id): seq<Kill> {
    KillsFor([id]) + [ListAgents] + KillsFor(AgentsOf(w, id))
  }

  /** What lands before a call, and how the call goes. */
  datatype Beat = Beat(acts: seq<Act>, fault: Fault)

  function BeatAt(beats: seq<Beat>, i: nat): Beat { if i < |beats| then beats[i] else Beat([], Fine) }

  function Rest(beats: seq<Beat>): seq<Beat> { if beats == [] then [] else beats[1..] }

  /** Run the calls in order, stopping at the first error. */
  function RunKills(w: World, kills: seq<Kill>, beats: seq<Beat>): (World, bool)
    decreases |kills|
  {
    if kills == [] then (w, true)
    else
      var beat := BeatAt(beats, 0);
      var w1 := Meanwhile(w, beat.acts);
      match beat.fault
      case Lost => (w1, false)
      case Unacked => (Slain(w1, kills[0]), false)
      case Fine => RunKills(Slain(w1, kills[0]), kills[1..], Rest(beats))
  }

  // --------------------------------------------------------------- operations

  /** Failed is any error of a repository call, whether it is mapped to conflict, not found or passed on. */
  datatype Result = Done(user: User) | NotFound | Invalid | Failed

  /** How the repository and the others behave during one operation. */
  datatype Chance = Chance(load: Fault, during: seq<Act>, update: Fault, revoke: seq<Beat>, after: seq<Act>,
      reload: Fault)

  function Load(w: World, id: Id, fault: Fault): Result {
    if !fault.Fine? then Failed
    else if id !in w.users || !Addressable(w.users[id]) then NotFound
    else Done(w.users[id])
  }

  /** What a PUT or PATCH asks of the row, once its values are validated. */
  datatype Change = Change(fields: Fields, deactivate: bool, reactivate: bool)

  function Emit(w: World, id: Id, ch: Change, u: User): World {
    if ch.deactivate then
      w.(audit := w.audit + [Audit(UserDeactivated, id)], events := w.events + [Event(Deactivated, id, u)])
    else if ch.reactivate then
      w.(audit := w.audit + [Audit(UserReactivated, id)], events := w.events + [Event(Updated, id, u)])
    else
      w.(events := w.events + [Event(Updated, id, u)])
  }

  /** The row write of a PUT or PATCH. */
  function Write(w: World, id: Id, ch: Change, chance: Chance): (World, bool) {
    UpdateRow(Meanwhile(w, chance.during), id, ch.fields, chance.update)
  }

  function Audited(w: World, id: Id, ch: Change): World {
    if ch.fields.unverify then w.(audit := w.audit + [Audit(EmailUnverified, id)]) else w
  }

  function KillsOf(w: World, id: Id, ch: Change): seq<Kill> { if ch.deactivate then Kills(w, id) else [] }

  /** What follows a write that succeeded: audit, revoke, re-read, signal. */
  function Settle(w: World, id: Id, ch: Change, chance: Chance): (World, Result) {
    var (w1, cut) := RunKills(Audited(w, id, ch), KillsOf(w, id, ch), chance.revoke);
    if !cut then (w1, Failed)
    else
      var w2 := Meanwhile(w1, chance.after);
      if !chance.reload.Fine? then (w2, Failed)
      else if id !in w2.users then (w2, NotFound)
      else (Emit(w2, id, ch, w2.users[id]), Done(w2.users[id]))
  }

  function Commit(w: World, id: Id, ch: Change, chance: Chance): (World, Result) {
    var (w1, ok) := Write(w, id, ch, chance);
    if ok then Settle(w1, id, ch, chance) else (w1, Failed)
  }

  function ScimEmail(m: Mail, raw: string): Option<string> { if m.usable(raw) then Some(m.canon(raw)) else None }

  datatype PutReq = PutReq(email: string, given: string, family: string, externalId: string, active: bool)

  function StatusFor(active: bool): string { if active then "active" else "deactivated" }

  function PutChange(m: Mail, before: User, req: PutReq): Option<Change> {
    var email := ScimEmail(m, req.email);
    if email.None? then None
    else Some(Change(
      Fields(email, !Carries(m, before.email, email.value), Some(JoinName(req.given, req.family)),
             Some(req.externalId), Some(StatusFor(req.active))),
      !req.active, req.active && !IsActive(before.status)))
  }

  function Put(m: Mail, w: World, id: Id, req: PutReq, chance: Chance): (World, Result) {
    var before := Load(w, id, chance.load);
    if !before.Done? then (w, before)
    else
      var change := PutChange(m, before.user, req);
      if change.None? then (w, Invalid) else Commit(w, id, change.value, chance)
  }

  datatype PatchReq = PatchReq(
    userName: Option<string>, email: Option<string>, given: Option<string>, family: Option<string>,
    externalId: Option<string>, active: Option<bool>)

  function PatchName(before: User, req: PatchReq): Option<string> {
    if req.given.None? && req.family.None? then None
    else
      var (given, family) := SplitName(before.name);
      Some(JoinName(Or(req.given, given), Or(req.family, family)))
  }

  function PatchChange(m: Mail, before: User, req: PatchReq): Option<Change> {
    var address := if req.email.Some? then req.email else req.userName;
    var email := if address.Some? then ScimEmail(m, address.value) else None;
    if address.Some? && email.None? then None
    else Some(Change(
      Fields(email, email.Some? && !Carries(m, before.email, email.value), PatchName(before, req), req.externalId,
             if req.active.Some? then Some(StatusFor(req.active.value)) else None),
      req.active == Some(false), req.active == Some(true) && !IsActive(before.status)))
  }

  function Patch(m: Mail, w: World, id: Id, req: PatchReq, chance: Chance): (World, Result) {
    var before := Load(w, id, chance.load);
    if !before.Done? then (w, before)
    else
      var change := PatchChange(m, before.user, req);
      if change.None? then (w, Invalid) else Commit(w, id, change.value, chance)
  }

  /** DELETE cuts access first, then deletes; during lands between the two and update is
      the fault of the delete call. */
  function Delete(w: World, id: Id, chance: Chance): (World, Result) {
    var before := Load(w, id, chance.load);
    if !before.Done? then (w, before)
    else
      var (w1, cut) := RunKills(w, Kills(w, id), chance.revoke);
      if !cut then (w1, Failed)
      else
        var w2 := Meanwhile(w1, chance.during);
        if chance.update.Lost? then (w2, Failed)
        else if chance.update.Unacked? then (Erase(w2, id), Failed)
        else
          var w3, gone := Erase(w2, id), before.user.(status := "deactivated");
          (w3.(audit := w3.audit + [Audit(UserDeleted, id)], events := w3.events + [Event(Deactivated, id, gone)]),
            Done(gone))
  }
}
