/** The session revocation cache as a concurrent protocol.

    Any number of request threads run Lookup, any number of revokers run
    RevokeSession / RevokeSessionsForUser, and other replicas write the session
    store directly. One Step is one atomic action of one thread: a sync.Map
    operation, a lock acquisition, a store round trip, a fill. Every step adds
    one Moment (clock reading and store contents) to the history, so a moment
    index is an instant of the run.

    Fields named born, readAt, filledAt and fillerBegin are history: they are
    recorded by the steps and never consulted by them.
*/
module SessionProtocol {
  import opened Prelude

  type Sid = string
  type Project = string
  type Tid = nat
  type Instant = nat

  // ------------------------------------------------------------------ store

  /** A session row. Rows only move forward: Live, Dead (revoked), Purged. */
  datatype Row = Live | Dead | Purged
  datatype Key = Key(project: Project, sid: Sid)
  type Store = map<Key, Row>

  datatype SessionState = Active | Revoked | Missing

  /** ttl <= 0 is strict mode; home is the project an unscoped read uses. */
  datatype Config = Config(ttl: int, home: Project)

  function KeyOf(cfg: Config, project: Project, sid: Sid): Key {
    Key(if project == "" then cfg.home else project, sid)
  }

  function ReadStore(cfg: Config, store: Store, project: Project, sid: Sid): SessionState {
    var key := KeyOf(cfg, project, sid);
    if key !in store || store[key].Purged? then Missing
    else if store[key].Dead? then Revoked
    else Active
  }

  function RevokeRows(store: Store, targets: set<Key>): Store {
    map k | k in store :: if k in targets && store[k].Live? then Dead else store[k]
  }

  function Rank(row: Row): nat {
    match row case Live => 0 case Dead => 1 case Purged => 2
  }

  /** What any writer may do to the store: add rows, move rows forward. */
  ghost predicate Forward(before: Store, after: Store) {
    forall k <- before :: k in after && Rank(before[k]) <= Rank(after[k])
  }

  // ------------------------------------------------------------------ cache

  /** cacheEntry: rec is nil or a record whose flag says RevokedAtMs != 0. */
  datatype Entry = Entry(
    sid: Sid, holder: Option<Tid>,
    project: Project, rec: Option<bool>, missing: bool, deadline: nat,
    born: Instant, fillerBegin: Instant, readAt: Instant, filledAt: Instant)

  /** The entry LoadOrStore puts in: the zero value, whose deadline is the zero time. */
  function NewEntry(sid: Sid, born: Instant): Entry {
    Entry(sid, None, "", None, false, 0, born, 0, 0, 0)
  }

  predicate Fresh(e: Entry, project: Project, now: nat) {
    e.project == project && e.deadline > now
  }

  function StateFromEntry(e: Entry): SessionState {
    if e.missing then Missing
    else if e.rec.Some? && e.rec.value then Revoked
    else Active
  }

  function FillEntry(e: Entry, project: Project, st: SessionState, deadline: nat): Entry {
    e.(project := project, deadline := deadline, holder := None,
       rec := match st case Active => Some(false) case Revoked => Some(true) case Missing => None,
       missing := st.Missing?)
  }

  // ---------------------------------------------------------------- threads

  datatype Pc =
    | Strict
    | FastLoad
    | FastLock(e: nat)
    | FastCheck(e: nat)
    | SlowLoad
    | SlowLock(e: nat)
    | SlowCheck(e: nat)
    | Reading(e: nat)
    | Filling(e: nat, st: SessionState, readAt: Instant)
  {
    predicate HasEntry() { FastLock? || FastCheck? || SlowLock? || SlowCheck? || Reading? || Filling? }
    predicate Holds() { FastCheck? || SlowCheck? || Reading? || Filling? }
  }

  datatype Thread =
    | Lookup(sid: Sid, project: Project, begin: Instant, pc: Pc)
    | Revoker(todo: set<Sid>, single: Option<Key>, begin: Instant)

  datatype Moment = Moment(now: nat, store: Store)

  /** A finished lookup; outcome None is a store error. */
  datatype Answer = Answer(
    sid: Sid, project: Project, begin: Instant, end: Instant,
    outcome: Option<SessionState>, cached: bool, readAt: Instant, filledAt: Instant)

  /** An instant at which the map was seen to hold no entry for some sids. */
  datatype Fence = One(sid: Sid, at: Instant) | AllBut(present: set<Sid>, at: Instant)
  {
    predicate Covers(x: Sid) { match this case One(y, _) => x == y case AllBut(p, _) => x !in p }
  }

  datatype Filled = Filled(e: nat, project: Project, begin: Instant, at: Instant)
  datatype StoreRead = StoreRead(e: nat, project: Project, begin: Instant, at: Instant)

  /** A revoke whose store write succeeded at moment at; its drops are fences from begin on. */
  datatype Revocation = Revocation(targets: set<Key>, begin: Instant, at: Instant)

  datatype State = State(
    cfg: Config, moments: seq<Moment>, heap: seq<Entry>, entries: map<Sid, nat>, threads: map<Tid, Thread>,
    answers: seq<Answer>, fences: seq<Fence>, fills: seq<Filled>, fetches: seq<StoreRead>, revokes: seq<Revocation>)

  function Init(cfg: Config, now: nat, store: Store): State {
    State(cfg, [Moment(now, store)], [], map[], map[], [], [], [], [], [])
  }

  // ------------------------------------------------------------------ steps

  /** A revoker of a user ranges over the map: it drops what it visits, must visit a key
      that stays in the map throughout, may also visit one stored meanwhile, and may pass
      over one that was absent at some instant since it began. */
  datatype Step =
    | Tick(d: nat)
    | BeginLookup(t: Tid, sid: Sid, project: Project)
    | StrictRead(t: Tid, fail: bool)
    | Load(t: Tid)
    | Lock(t: Tid)
    | Check(t: Tid)
    | LoadOrStore(t: Tid)
    | Recheck(t: Tid)
    | Read(t: Tid, fail: bool)
    | Fill(t: Tid)
    | BeginRevoke(t: Tid, project: Project, sid: Sid)
    | BeginRevokeUser(t: Tid)
    | Drop(t: Tid, sid: Sid)
    | Pass(t: Tid, sid: Sid)
    | Write(t: Tid, targets: set<Key>, ok: bool)
    | OtherWriter(store: Store)

  /** Some fence on x lies in [from, to). */
  ghost predicate Dropped(s: State, x: Sid, from: Instant, to: Instant) {
    exists k :: 0 <= k < |s.fences| && s.fences[k].Covers(x) && from <= s.fences[k].at < to
  }

  predicate LookupAt(s: State, t: Tid) {
    t in s.threads && s.threads[t].Lookup? && s.threads[t].begin < |s.moments|
  }

  predicate AtEntry(s: State, t: Tid) {
    && LookupAt(s, t)
    && s.threads[t].pc.HasEntry()
    && s.threads[t].pc.e < |s.heap|
  }

  ghost predicate Enabled(s: State, step: Step) {
    && |s.moments| > 0
    && match step
       case Tick(_) => true
       case BeginLookup(t, _, _) => t !in s.threads
       case StrictRead(t, _) => LookupAt(s, t) && s.threads[t].pc.Strict?
       case Load(t) => LookupAt(s, t) && s.threads[t].pc.FastLoad?
       case Lock(t) => AtEntry(s, t) && (s.threads[t].pc.FastLock? || s.threads[t].pc.SlowLock?)
                       && s.heap[s.threads[t].pc.e].holder.None?
       case Check(t) => AtEntry(s, t) && s.threads[t].pc.FastCheck?
       case LoadOrStore(t) => LookupAt(s, t) && s.threads[t].pc.SlowLoad?
       case Recheck(t) => AtEntry(s, t) && s.threads[t].pc.SlowCheck?
       case Read(t, _) => AtEntry(s, t) && s.threads[t].pc.Reading?
       case Fill(t) => AtEntry(s, t) && s.threads[t].pc.Filling? && s.cfg.ttl > 0
       case BeginRevoke(t, _, _) => t !in s.threads
       case BeginRevokeUser(t) => t !in s.threads
       case Drop(t, sid) => t in s.threads && s.threads[t].Revoker?
         && (sid in s.threads[t].todo || s.threads[t].single.None?)
       case Pass(t, sid) => && t in s.threads && s.threads[t].Revoker? && s.threads[t].single.None?
                            && Dropped(s, sid, s.threads[t].begin, |s.moments|)
       case Write(t, targets, _) => && t in s.threads && s.threads[t].Revoker? && s.threads[t].todo == {}
                                    && (s.threads[t].single.Some? ==> targets == {s.threads[t].single.value})
       case OtherWriter(store) => Forward(s.moments[|s.moments| - 1].store, store)
  }

  function Last(s: State): Moment
    requires |s.moments| > 0
  {
    s.moments[|s.moments| - 1]
  }

  /** The moment the step being taken will add. */
  function Here(s: State): Instant { |s.moments| }

  function Advance(s: State): State
    requires |s.moments| > 0
  {
    s.(moments := s.moments + [Last(s)])
  }

  function Goto(s: State, t: Tid, pc: Pc): State
    requires t in s.threads && s.threads[t].Lookup?
  {
    s.(threads := s.threads[t := s.threads[t].(pc := pc)])
  }

  function Finish(s: State, t: Tid, a: Answer): State {
    s.(threads := s.threads - {t}, answers := s.answers + [a])
  }

  function Hold(s: State, e: nat, holder: Option<Tid>): State
    requires e < |s.heap|
  {
    s.(heap := s.heap[e := s.heap[e].(holder := holder)])
  }

  function HitAnswer(l: Thread, e: Entry, end: Instant): Answer
    requires l.Lookup?
  {
    Answer(l.sid, l.project, l.begin, end, Some(StateFromEntry(e)), true, e.readAt, e.filledAt)
  }

  ghost function Apply(s: State, step: Step): State
    requires Enabled(s, step)
  {
    var here, now, store := Here(s), Last(s).now, Last(s).store;
    match step
    case Tick(d) => s.(moments := s.moments + [Moment(now + d, store)])
    case OtherWriter(after) => s.(moments := s.moments + [Moment(now, after)])
    case BeginLookup(t, sid, project) =>
      var pc := if s.cfg.ttl <= 0 then Strict else FastLoad;
      Advance(s).(threads := s.threads[t := Lookup(sid, project, here, pc)])
    case StrictRead(t, fail) =>
      var l := s.threads[t];
      var st := ReadStore(s.cfg, store, l.project, l.sid);
      Finish(Advance(s), t, Answer(l.sid, l.project, l.begin, here, if fail then None else Some(st), false, here, here))
    case Load(t) =>
      var sid := s.threads[t].sid;
      Goto(Advance(s), t, if sid in s.entries then FastLock(s.entries[sid]) else SlowLoad)
    case Lock(t) =>
      var pc := s.threads[t].pc;
      Goto(Hold(Advance(s), pc.e, Some(t)), t, if pc.FastLock? then FastCheck(pc.e) else SlowCheck(pc.e))
    case Check(t) =>
      var l := s.threads[t];
      var e := s.heap[l.pc.e];
      var free := Hold(Advance(s), l.pc.e, None);
      if Fresh(e, l.project, s.moments[l.begin].now)
      then Finish(free, t, HitAnswer(l, e, here))
      else Goto(free, t, SlowLoad)
    case LoadOrStore(t) =>
      var sid := s.threads[t].sid;
      if sid in s.entries then Goto(Advance(s), t, SlowLock(s.entries[sid]))
      else Goto(Advance(s).(heap := s.heap + [NewEntry(sid, here)], entries := s.entries[sid := |s.heap|]), t,
        SlowLock(|s.heap|))
    case Recheck(t) =>
      var l := s.threads[t];
      var e := s.heap[l.pc.e];
      if Fresh(e, l.project, now)
      then Finish(Hold(Advance(s), l.pc.e, None), t, HitAnswer(l, e, here))
      else Goto(Advance(s), t, Reading(l.pc.e))
    case Read(t, fail) =>
      var l := s.threads[t];
      var s' := Advance(s).(fetches := s.fetches + [StoreRead(l.pc.e, l.project, l.begin, here)]);
      if fail
      then Finish(Hold(s', l.pc.e, None), t, Answer(l.sid, l.project, l.begin, here, None, false, here, here))
      else Goto(s', t, Filling(l.pc.e, ReadStore(s.cfg, store, l.project, l.sid), here))
    case Fill(t) =>
      var l := s.threads[t];
      var filled := FillEntry(s.heap[l.pc.e], l.project, l.pc.st, now + s.cfg.ttl)
                    .(fillerBegin := l.begin, readAt := l.pc.readAt, filledAt := here);
      Finish(Advance(s).(heap := s.heap[l.pc.e := filled],
                         fills := s.fills + [Filled(l.pc.e, l.project, l.begin, here)]),
             t, Answer(l.sid, l.project, l.begin, here, Some(l.pc.st), false, l.pc.readAt, here))
    case BeginRevoke(t, project, sid) =>
      Advance(s).(threads := s.threads[t := Revoker({sid}, Some(KeyOf(s.cfg, project, sid)), here)])
    case BeginRevokeUser(t) =>
      Advance(s).(threads := s.threads[t := Revoker(s.entries.Keys, None, here)],
                  fences := s.fences + [AllBut(s.entries.Keys, here)])
    case Drop(t, sid) =>
      var r := s.threads[t];
      Advance(s).(entries := s.entries - {sid}, fences := s.fences + [One(sid, here)],
                  threads := s.threads[t := r.(todo := r.todo - {sid})])
    case Pass(t, sid) =>
      var r := s.threads[t];
      Advance(s).(threads := s.threads[t := r.(todo := r.todo - {sid})])
    case Write(t, targets, ok) =>
      var r := s.threads[t];
      if ok
      then s.(moments := s.moments + [Moment(now, RevokeRows(store, targets))], threads := s.threads - {t},
              revokes := s.revokes + [Revocation(targets, r.begin, here)])
      else Advance(s).(threads := s.threads - {t})
  }

  /** A run: every step enabled where it is taken. */
  ghost predicate Legal(s: State, steps: seq<Step>)
    decreases |steps|
  {
    steps == [] || (Enabled(s, steps[0]) && Legal(Apply(s, steps[0]), steps[1..]))
  }

  ghost function Exec(s: State, steps: seq<Step>): State
    requires Legal(s, steps)
    decreases |steps|
  {
    if steps == [] then s else Exec(Apply(s, steps[0]), steps[1..])
  }

  ghost predicate Reachable(cfg: Config, s: State) {
    exists now: nat, store: Store, steps: seq<Step> ::
      Legal(Init(cfg, now, store), steps) && s == Exec(Init(cfg, now, store), steps)
  }
}
