/** The request path from project resolution through token authentication to the
    project-scope guard, as three stages composed in chain order.

    Token verification, the tenant directory, the project control plane and the
    session cache are functions of the deployment.
*/
module AuthPipeline {
  import opened Prelude
  import opened Text

  type Headers = map<string, string>

  const USER_ID := "X-Authenticated-User-Id"
  const TENANT := "X-Authenticated-Tenant"
  const PROJECT := "X-Authenticated-Project"
  const AUTH_TIME := "X-Authenticated-Auth-Time"
  const SESSION_ID := "X-Authenticated-Session-Id"
  const AUTHORIZATION := "Authorization"
  const PROJECT_KEY := "X-Project-Key"

  function IdentityHeaders(): set<string> { {USER_ID, TENANT, PROJECT, AUTH_TIME, SESSION_ID} }

  function Get(h: Headers, name: string): string { if name in h then h[name] else "" }

  // ------------------------------------------------------------- deployment

  datatype Claims = Claims(sub: string, sid: string, tenant: string, project: string, authTime: int)
  datatype Resolution = Found(project: string) | Absent | Unavailable
  datatype TenantStatus = Status(value: string) | Unreadable
  datatype SessionLookup = Active | Revoked | Missing | LookupFailed

  /** selectable None is a nil tenant directory; control None is no control plane. */
  datatype Deployment = Deployment(
    verify: string -> Option<Claims>,
    defaultTenant: string, selectable: Option<(string, string) -> TenantStatus>,
    control: Option<Control>, defaultProject: string,
    session: (string, string) -> SessionLookup,
    exempt: set<string>)

  datatype Control = Control(byKey: string -> Resolution, byHost: string -> Resolution)

  /** form is the parsed hosted-OAuth form, None when it is malformed. */
  datatype Request = Request(path: string, host: string, headers: Headers, form: Option<Form>, queryKey: string)
  datatype Form = Form(projectKey: string, state: string)

  // ------------------------------------------------------- project resolution

  function JoinKeyState(key: string, token: string): string { if key == "" then token else key + [':'] + token }

  function SplitKeyState(state: string): (string, string) {
    var i := LastIndex(state, ':');
    if i >= 0 then (state[..i], state[i + 1..]) else ("", state)
  }

  /** Reading back, the token half never holds a colon, whatever the state was. */
  lemma SplitTokenIsPlain(state: string)
    ensures ':' !in SplitKeyState(state).1
  {
    LastIndexIs(state, ':');
    assert state[0..] == state;
  }

  /** The routing key survives the provider round trip exactly when the signed token has no colon. */
  lemma KeyStateRoundTrip(key: string, token: string)
    ensures SplitKeyState(JoinKeyState(key, token)) == (key, token) <==> ':' !in token
  {
    SplitTokenIsPlain(JoinKeyState(key, token));
    if ':' !in token {
      if key == "" {
        LastIndexAt("", token, ':');
        assert "" + token == token;
      } else {
        LastIndexAt(key + [':'], token, ':');
        assert JoinKeyState(key, token)[..|key|] == key;
        assert JoinKeyState(key, token)[|key| + 1..] == token;
      }
    }
  }

  function ProjectKey(r: Request): Option<string> {
    if Get(r.headers, PROJECT_KEY) != "" then Some(Get(r.headers, PROJECT_KEY))
    else if "/oauth/" <= r.path then
      if r.form.None? then None
      else if r.form.value.projectKey != "" then Some(r.form.value.projectKey)
      else Some(SplitKeyState(r.form.value.state).0)
    else if "/auth/" <= r.path then Some(r.queryKey)
    else Some("")
  }

  /** A scope (None: unscoped) or an error status. */
  datatype Scoped = Scoped(project: Option<string>) | Unscoped(status: nat)

  function Resolve(d: Deployment, r: Request): Scoped {
    if d.control.None? && d.defaultProject == "" then Scoped(None)
    else
      var key := ProjectKey(r);
      if key.None? then Unscoped(400)
      else if key.value != "" && d.control.Some? then
        match d.control.value.byKey(key.value)
        case Unavailable => Unscoped(503)
        case Absent => Unscoped(401)
        case Found(p) => Scoped(Some(p))
      else
        var host := if d.control.Some? && r.host != "" then d.control.value.byHost(r.host) else Absent;
        match host
        case Unavailable => Unscoped(503)
        case Found(p) => Scoped(Some(p))
        case Absent => Scoped(if d.defaultProject == "" then None else Some(d.defaultProject))
  }

  // ------------------------------------------------------------ authentication

  predicate Exempt(d: Deployment, path: string) {
    || path == "/.well-known/oauth-authorization-server" || path in d.exempt
    || "/oauth/" <= path || "/auth/" <= path || path == "/scim/v2" || "/scim/v2/" <= path
  }

  function BearerToken(h: Headers): string {
    var auth := Get(h, AUTHORIZATION);
    if "Bearer " <= auth then auth[7..] else ""
  }

  datatype Verdict = Verified(claims: Claims) | Bad | TenantUnreadable

  /** TokenTenants.accept, after the token itself verified. */
  function Accept(d: Deployment, c: Claims): Verdict {
    if d.defaultTenant == "" || c.tenant == d.defaultTenant then Verified(c)
    else if d.selectable.None? || c.tenant == "" || c.project == "" then Bad
    else
      match d.selectable.value(c.project, c.tenant)
      case Unreadable => TenantUnreadable
      case Status(s) => if s == "claimed" then Verified(c) else Bad
  }

  function VerifyRequestToken(d: Deployment, token: string): Verdict {
    var claims := d.verify(token);
    if claims.None? then Bad else Accept(d, claims.value)
  }

  function Decimal(n: nat): string {
    if n < 10 then [('0' as int + n) as char] else Decimal(n / 10) + [('0' as int + n % 10) as char]
  }

  function Clear(h: Headers): Headers { h - IdentityHeaders() }

  function SetIf(h: Headers, name: string, value: string): Headers { if value == "" then h else h[name := value] }

  function SetIdentity(h: Headers, c: Claims): Headers {
    var h1 := SetIf(h[USER_ID := c.sub], SESSION_ID, c.sid);
    var h2 := SetIf(SetIf(h1, TENANT, c.tenant), PROJECT, c.project);
    if c.authTime > 0 then h2[AUTH_TIME := Decimal(c.authTime)] else h2
  }

  datatype Auth = Next(headers: Headers) | Stop(status: nat)

  function PlainAuth(d: Deployment, path: string, headers: Headers): Auth {
    var h := Clear(headers);
    var token := BearerToken(h);
    if Exempt(d, path) then
      if token == "" then Next(h)
      else
        match VerifyRequestToken(d, token)
        case Verified(c) => Next(SetIdentity(h, c))
        case TenantUnreadable => Stop(503)
        case Bad => Next(h)
    else if token == "" then Stop(401)
    else
      match VerifyRequestToken(d, token)
      case Verified(c) => Next(SetIdentity(h, c))
      case TenantUnreadable => Stop(503)
      case Bad => Stop(401)
  }

  function SessionAuth(d: Deployment, project: string, path: string, headers: Headers): Auth {
    var h := Clear(headers);
    var token := BearerToken(h);
    if Exempt(d, path) then
      if token == "" then Next(h)
      else
        match VerifyRequestToken(d, token)
        case TenantUnreadable => Stop(503)
        case Bad => Next(h)
        case Verified(c) =>
          if c.sid == "" || d.session(project, c.sid).Active? then Next(SetIdentity(h, c)) else Next(h)
    else if token == "" then Stop(401)
    else
      match VerifyRequestToken(d, token)
      case TenantUnreadable => Stop(503)
      case Bad => Stop(401)
      case Verified(c) =>
        if c.sid == "" then Next(SetIdentity(h, c))
        else
          match d.session(project, c.sid)
          case LookupFailed => Stop(503)
          case Active => Next(SetIdentity(h, c))
          case _ => Stop(401)
  }

  // ---------------------------------------------------------- guard and chain

  predicate GuardPasses(scope: Option<string>, headers: Headers) {
    !(scope.Some? && scope.value != "" && Get(headers, PROJECT) != "" && scope.value != Get(headers, PROJECT))
  }

  datatype Outcome = Reached(project: Option<string>, headers: Headers) | Refused(status: nat)

  function ScopeId(scope: Option<string>): string { if scope.Some? then scope.value else "" }

  /** Resolver, then auth in the given mode, then guard. */
  function Chain(d: Deployment, sessions: bool, r: Request): Outcome {
    match Resolve(d, r)
    case Unscoped(status) => Refused(status)
    case Scoped(scope) =>
      var auth :=
        if sessions then SessionAuth(d, ScopeId(scope), r.path, r.headers)
        else PlainAuth(d, r.path, r.headers);
      if auth.Stop? then Refused(auth.status)
      else if GuardPasses(scope, auth.headers) then Reached(scope, auth.headers)
      else Refused(403)
  }

  // --------------------------------------------------------------- properties

  /** The same request up to the identity headers the client chose to send. */
  ghost predicate SameButIdentity(r: Request, r': Request) {
    r' == r.(headers := r'.headers) && Clear(r.headers) == Clear(r'.headers)
  }

  lemma GetOutsideIdentity(h: Headers, name: string)
    requires name !in IdentityHeaders()
    ensures Get(Clear(h), name) == Get(h, name)
  {
  }

  /** Nothing the chain does or shows the handler depends on client-sent identity headers. */
  lemma ClientIdentityIsIgnored(d: Deployment, sessions: bool, r: Request, r': Request)
    requires SameButIdentity(r, r')
    ensures Chain(d, sessions, r) == Chain(d, sessions, r')
  {
    GetOutsideIdentity(r.headers, PROJECT_KEY);
    GetOutsideIdentity(r'.headers, PROJECT_KEY);
    assert ProjectKey(r) == ProjectKey(r');
    assert Resolve(d, r) == Resolve(d, r');
  }

  /** The tenant of a verified token is unrestricted, the default, or claimed in its project. */
  predicate TenantAccepted(d: Deployment, c: Claims) {
    || d.defaultTenant == "" || c.tenant == d.defaultTenant
    || (d.selectable.Some? && c.tenant != "" && c.project != ""
      && d.selectable.value(c.project, c.tenant) == Status("claimed"))
  }

  /** The request's token is one this chain lets speak for its user. */
  ghost predicate Speaks(d: Deployment, sessions: bool, project: string, headers: Headers, c: Claims) {
    && BearerToken(headers) != "" && d.verify(BearerToken(headers)) == Some(c) && TenantAccepted(d, c)
    && (sessions && c.sid != "" ==> d.session(project, c.sid).Active?)
  }

  /** The request's token verifies and selects a tenant whose status cannot be read. */
  ghost predicate Undecided(d: Deployment, headers: Headers) {
    && BearerToken(headers) != "" && d.verify(BearerToken(headers)).Some?
    && var c := d.verify(BearerToken(headers)).value;
       && !TenantAccepted(d, c) && d.selectable.Some? && c.tenant != "" && c.project != ""
       && d.selectable.value(c.project, c.tenant).Unreadable?
  }

  /** A resolved project and a token's project that are both present are equal. */
  predicate SameProject(scope: string, c: Claims) { scope == "" || c.project == "" || scope == c.project }

  lemma IdentityAfterSet(h: Headers, c: Claims)
    ensures var h' := SetIdentity(Clear(h), c);
            && USER_ID in h' && h'[USER_ID] == c.sub
            && Get(h', PROJECT) == c.project && Get(h', TENANT) == c.tenant && Get(h', SESSION_ID) == c.sid
            && Clear(h') == Clear(h)
  {
  }

  lemma VerdictIs(d: Deployment, headers: Headers)
    requires BearerToken(headers) != ""
    ensures var v := VerifyRequestToken(d, BearerToken(headers));
            && BearerToken(Clear(headers)) == BearerToken(headers)
            && (v.TenantUnreadable? <==> Undecided(d, headers))
            && (v.Verified? <==>
                  d.verify(BearerToken(headers)).Some? && TenantAccepted(d, d.verify(BearerToken(headers)).value))
            && (v.Verified? ==> d.verify(BearerToken(headers)) == Some(v.claims))
  {
  }

  /** A request reaches the handler exactly when its project resolves, its token's tenant
      can be read, its path is exempt or its token speaks for a user, and a token that
      speaks is of the resolved project. */
  lemma HandlerIsReachedIff(d: Deployment, sessions: bool, r: Request)
    ensures Chain(d, sessions, r).Reached? <==>
              && Resolve(d, r).Scoped? && !Undecided(d, r.headers)
              && var project := ScopeId(Resolve(d, r).project);
                 && (Exempt(d, r.path) || exists c :: Speaks(d, sessions, project, r.headers, c))
                 && forall c | Speaks(d, sessions, project, r.headers, c) :: SameProject(project, c)
  {
    GetOutsideIdentity(r.headers, AUTHORIZATION);
    if BearerToken(r.headers) != "" {
      VerdictIs(d, r.headers);
      var v := VerifyRequestToken(d, BearerToken(r.headers));
      if v.Verified? && Resolve(d, r).Scoped? {
        IdentityAfterSet(r.headers, v.claims);
        assert !sessions || v.claims.sid == "" || d.session(ScopeId(Resolve(d, r).project), v.claims.sid).Active?
               ==> Speaks(d, sessions, ScopeId(Resolve(d, r).project), r.headers, v.claims);
      }
    }
  }

  /** There a user id is seen exactly when a token of the request speaks for one; then
      exactly that token's identity is seen on the client's other headers, and otherwise
      no identity header at all. */
  lemma IdentityIsVerified(d: Deployment, sessions: bool, r: Request)
    requires Chain(d, sessions, r).Reached?
    ensures var out := Chain(d, sessions, r); var project := ScopeId(out.project);
            && (USER_ID in out.headers <==> exists c :: Speaks(d, sessions, project, r.headers, c))
            && (forall c | Speaks(d, sessions, project, r.headers, c) ::
                out.headers == SetIdentity(Clear(r.headers), c))
            && (USER_ID !in out.headers ==> out.headers == Clear(r.headers))
            && Clear(out.headers) == Clear(r.headers)
  {
    GetOutsideIdentity(r.headers, AUTHORIZATION);
    if BearerToken(r.headers) != "" {
      VerdictIs(d, r.headers);
      var v := VerifyRequestToken(d, BearerToken(r.headers));
      var out := Chain(d, sessions, r);
      if v.Verified? {
        IdentityAfterSet(r.headers, v.claims);
        if USER_ID in out.headers {
          assert Speaks(d, sessions, ScopeId(out.project), r.headers, v.claims);
        }
      }
    }
  }

  // ------------------------------------------------------------- explicit keys

  ghost predicate Names(d: Deployment, key: string, project: string) {
    d.control.Some? && d.control.value.byKey(key) == Found(project)
  }

  /** An explicit key, from the header, the hosted form, its state or the query, names the
      project a reached handler works in exactly when there is a control plane. Without
      one it is downgraded to the default project, or to none. */
  lemma ExplicitKeyDecides(d: Deployment, sessions: bool, r: Request)
    requires ProjectKey(r).Some? && ProjectKey(r).value != "" && Chain(d, sessions, r).Reached?
    ensures var project := ScopeId(Chain(d, sessions, r).project);
            && (Names(d, ProjectKey(r).value, project) <==> d.control.Some?)
            && (d.control.None? ==> project == d.defaultProject)
  {
  }

  /** The same request up to where it carries a project key. */
  ghost predicate SameButKey(r: Request, r': Request) {
    && r' == r.(headers := r'.headers, form := r'.form, queryKey := r'.queryKey)
    && ProjectKey(r).Some? && ProjectKey(r').Some?
  }

  /** There no key makes any difference to the project. */
  lemma KeyIsIgnored(d: Deployment, r: Request, r': Request)
    requires d.control.None? && SameButKey(r, r')
    ensures Resolve(d, r) == Resolve(d, r')
  {
  }

  // --------------------------------------------------------- session and plain

  /** At the auth stage session mode lets through a subset of plain mode, with the
      same headers or, on an exempt path, with none. */
  lemma SessionAuthRefines(d: Deployment, project: string, path: string, headers: Headers)
    requires SessionAuth(d, project, path, headers).Next?
    ensures PlainAuth(d, path, headers).Next?
    ensures var s, p := SessionAuth(d, project, path, headers).headers, PlainAuth(d, path, headers).headers;
            s == p || (Exempt(d, path) && s == Clear(headers))
  {
  }

  /** Through the whole chain an authenticated request of session mode is one of plain mode. */
  lemma SessionChainRefines(d: Deployment, r: Request)
    requires Chain(d, true, r).Reached? && USER_ID in Chain(d, true, r).headers
    ensures Chain(d, false, r) == Chain(d, true, r)
  {
    SessionAuthRefines(d, ScopeId(Chain(d, true, r).project), r.path, r.headers);
  }

  /** The token names a session that is not active in the resolved project. */
  ghost predicate StaleSession(d: Deployment, project: string, headers: Headers) {
    var v := VerifyRequestToken(d, BearerToken(Clear(headers)));
    BearerToken(Clear(headers)) != "" && v.Verified? && v.claims.sid != "" && !d.session(project, v.claims.sid).Active?
  }

  /** Without such a session the two modes agree on everything; tokens without a sid never have one. */
  lemma ModesAgree(d: Deployment, r: Request)
    requires Resolve(d, r).Scoped? ==> !StaleSession(d, ScopeId(Resolve(d, r).project), r.headers)
    ensures Chain(d, true, r) == Chain(d, false, r)
  {
  }

  /** Unauthenticated requests are not a subset: session mode reaches a handler that
      plain mode refuses exactly when, on an exempt path, a stale session is dropped
      whose token belongs to another project than the one resolved. */
  lemma SessionChainAdmitsMore(d: Deployment, r: Request)
    ensures Chain(d, true, r).Reached? && !Chain(d, false, r).Reached? <==>
              && Resolve(d, r).Scoped? && Exempt(d, r.path)
              && var project := ScopeId(Resolve(d, r).project);
                 && StaleSession(d, project, r.headers)
                 && var claims := VerifyRequestToken(d, BearerToken(Clear(r.headers))).claims;
                    project != "" && claims.project != "" && project != claims.project
  {
  }

  /** It does happen: a revoked session of project B on an exempt path of project A. */
  lemma StaleTokenPassesUnauthenticated() returns (d: Deployment, r: Request)
    ensures Chain(d, true, r).Reached? && USER_ID !in Chain(d, true, r).headers
    ensures Chain(d, false, r) == Refused(403)
  {
    var c := Claims("user", "session", "", "B", 0);
    d := Deployment(_ => Some(c), "", None, None, "A", (_, _) => Revoked, {});
    r := Request("/auth/page", "", map[AUTHORIZATION := "Bearer token"], None, "");
    assert r.path[1] == 'a' && "/oauth/"[1] == 'o';
    assert ProjectKey(r) == Some("") && Resolve(d, r) == Scoped(Some("A")) && Exempt(d, r.path);
    assert BearerToken(Clear(r.headers)) == "token";
    IdentityAfterSet(r.headers, c);
  }

  // ----------------------------------------------------------------- in place

  /** The request whose headers the middleware edits. */
  class HttpRequest {
    const path: string
    var headers: Headers

    constructor (path: string, headers: Headers)
      ensures this.path == path && this.headers == headers
    {
      this.path, this.headers := path, headers;
    }

    method ClearAuthHeaders()
      modifies this`headers
      ensures headers == Clear(old(headers))
    {
      headers := headers - {USER_ID};
      headers := headers - {TENANT};
      headers := headers - {PROJECT};
      headers := headers - {AUTH_TIME};
      headers := headers - {SESSION_ID};
    }

    method SetAuthHeaders(c: Claims)
      modifies this`headers
      ensures headers == SetIdentity(old(headers), c)
    {
      headers := headers[USER_ID := c.sub];
      if c.sid != "" {
        headers := headers[SESSION_ID := c.sid];
      }
      if c.tenant != "" {
        headers := headers[TENANT := c.tenant];
      }
      if c.project != "" {
        headers := headers[PROJECT := c.project];
      }
      if c.authTime > 0 {
        headers := headers[AUTH_TIME := Decimal(c.authTime)];
      }
    }

    /** status 0 hands the request on. */
    method AuthMiddleware(d: Deployment) returns (status: nat)
      modifies this`headers
      ensures var auth := PlainAuth(d, path, old(headers));
              if status == 0 then auth == Next(headers) else auth == Stop(status)
    {
      ClearAuthHeaders();
      var token := BearerToken(headers);
      if Exempt(d, path) {
        if token != "" {
          var v := VerifyRequestToken(d, token);
          match v {
            case Verified(c) => SetAuthHeaders(c);
            case TenantUnreadable => return 503;
            case Bad =>
          }
        }
        return 0;
      }
      if token == "" {
        return 401;
      }
      var v := VerifyRequestToken(d, token);
      match v {
        case Verified(c) => SetAuthHeaders(c);
        case TenantUnreadable => return 503;
        case Bad => return 401;
      }
      return 0;
    }

    method SessionAuthMiddleware(d: Deployment, project: string) returns (status: nat)
      modifies this`headers
      ensures var auth := SessionAuth(d, project, path, old(headers));
              if status == 0 then auth == Next(headers) else auth == Stop(status)
    {
      ClearAuthHeaders();
      var token := BearerToken(headers);
      if Exempt(d, path) {
        if token != "" {
          var v := VerifyRequestToken(d, token);
          if v.TenantUnreadable? {
            return 503;
          }
          if v.Verified? {
            if v.claims.sid != "" {
              var state := d.session(project, v.claims.sid);
              if state.Active? {
                SetAuthHeaders(v.claims);
              }
            } else {
              SetAuthHeaders(v.claims);
            }
          }
        }
        return 0;
      }
      if token == "" {
        return 401;
      }
      var v := VerifyRequestToken(d, token);
      if v.TenantUnreadable? {
        return 503;
      }
      if v.Bad? {
        return 401;
      }
      if v.claims.sid != "" {
        var state := d.session(project, v.claims.sid);
        if state.LookupFailed? {
          return 503;
        }
        if !state.Active? {
          return 401;
        }
      }
      SetAuthHeaders(v.claims);
      return 0;
    }
  }
}
