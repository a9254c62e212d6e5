/** The hosted OAuth CSRF cookie: a bounded list of pending tokens that lives in
    the browser as text, parsed on every request and printed on every response.
*/
module CsrfCookie {
  import opened Prelude
  import opened Text

  type Token = string
  datatype Cookie = Cookie(name: string, value: string)

  const MAX_TOKENS := 16
  const PREFIX := "__Host-oauth_csrf_"

  predicate Printable(t: Token) { t != "" && '.' !in t }

  function Print(tokens: seq<Token>): string { Join(tokens, '.') }

  /** The parse of one cookie value. */
  function ParseValue(value: string): Option<seq<Token>> {
    var tokens := Split(value, '.');
    if |tokens| > MAX_TOKENS || "" in tokens then None else Some(tokens)
  }

  /** The values of the cookies with the provider's name. */
  function Named(cookies: seq<Cookie>, name: string): seq<string> {
    if cookies == [] then []
    else (if cookies[0].name == name then [cookies[0].value] else []) + Named(cookies[1..], name)
  }

  lemma {:induction false} NamedConcat(a: seq<Cookie>, b: seq<Cookie>, name: string)
    ensures Named(a + b, name) == Named(a, name) + Named(b, name)
  {
    if a == [] {
      assert a + b == b;
    } else {
      assert (a + b)[1..] == a[1..] + b;
      NamedConcat(a[1..], b, name);
    }
  }

  /** The value of the one cookie of the name; None when there is none or more than one. */
  method FindCookie(cookies: seq<Cookie>, name: string) returns (value: Option<string>)
    ensures var found := Named(cookies, name);
            value == if |found| == 1 then Some(found[0]) else None
  {
    value := None;
    for i := 0 to |cookies|
      invariant Named(cookies[..i], name) == if value.Some? then [value.value] else []
    {
      assert cookies[..i + 1] == cookies[..i] + [cookies[i]];
      NamedConcat(cookies[..i], [cookies[i]], name);
      if cookies[i].name != name {
        continue;
      }
      if value.Some? {
        assert cookies == cookies[..i + 1] + cookies[i + 1..];
        NamedConcat(cookies[..i + 1], cookies[i + 1..], name);
        return None;
      }
      value := Some(cookies[i].value);
    }
    assert cookies[..|cookies|] == cookies;
  }

  /** hostedOAuthCSRFTokens: exactly one cookie of the name, and it parses. */
  method Tokens(cookies: seq<Cookie>, provider: string) returns (tokens: Option<seq<Token>>)
    ensures var found := Named(cookies, PREFIX + provider);
            tokens == if |found| == 1 then ParseValue(found[0]) else None
    ensures tokens.Some? ==> 0 < |tokens.value| <= MAX_TOKENS && forall t <- tokens.value :: Printable(t)
  {
    var value := FindCookie(cookies, PREFIX + provider);
    if value.None? {
      return None;
    }
    var parts := Split(value.value, '.');
    if |parts| > MAX_TOKENS {
      return None;
    }
    for i := 0 to |parts|
      invariant forall j | 0 <= j < i :: parts[j] != ""
    {
      if parts[i] == "" {
        return None;
      }
    }
    return Some(parts);
  }

  function Append(tokens: seq<Token>, t: Token): seq<Token> {
    (if |tokens| == MAX_TOKENS then tokens[1..] else tokens) + [t]
  }

  method Remove(tokens: seq<Token>, t: Token) returns (remaining: seq<Token>)
    ensures remaining == Without(tokens, t)
  {
    remaining := [];
    for i := 0 to |tokens|
      invariant remaining == Without(tokens[..i], t)
    {
      assert tokens[..i + 1] == tokens[..i] + [tokens[i]];
      WithoutConcat(tokens[..i], [tokens[i]], t);
      if tokens[i] != t {
        remaining := remaining + [tokens[i]];
      }
    }
    assert tokens[..|tokens|] == tokens;
  }

  // ------------------------------------------------------------ the round trip

  /** What was printed is what is parsed back, exactly for a non-empty list of at
      most 16 non-empty dot-free tokens. */
  lemma ParsePrint(tokens: seq<Token>)
    ensures ParseValue(Print(tokens)) == Some(tokens)
            <==> 0 < |tokens| <= MAX_TOKENS && forall t <- tokens :: Printable(t)
  {
    SplitJoin(tokens, '.');
  }

  // --------------------------------------------------------------------- runs

  /** One browser and one provider: the cookie value held, if any. starts and
      spent are history. */
  datatype Browser = Browser(cookie: Option<string>, starts: seq<Token>, spent: set<Token>)

  /** A start whose state could be issued; a callback that verified the state of
      the flow whose token it spends. Refused requests set no cookie. */
  datatype Step = Start(t: Token) | Callback(t: Token)

  function Held(b: Browser): Option<seq<Token>> { if b.cookie.None? then None else ParseValue(b.cookie.value) }

  /** A callback gets as far as spending only when its token is among the pending ones. */
  predicate Enabled(b: Browser, step: Step) {
    match step
    case Start(t) => Printable(t) && t !in b.starts
    case Callback(t) => Held(b).Some? && t in Held(b).value
  }

  function Apply(b: Browser, step: Step): Browser
    requires Enabled(b, step)
  {
    match step
    case Start(t) =>
      var tokens := if Held(b).Some? then Held(b).value else [];
      b.(cookie := Some(Print(Append(tokens, t))), starts := b.starts + [t])
    case Callback(t) =>
      var remaining := Without(Held(b).value, t);
      b.(cookie := if remaining == [] then None else Some(Print(remaining)), spent := b.spent + {t})
  }

  predicate Legal(b: Browser, steps: seq<Step>)
    decreases |steps|
  {
    steps == [] || (Enabled(b, steps[0]) && Legal(Apply(b, steps[0]), steps[1..]))
  }

  function Run(b: Browser, steps: seq<Step>): Browser
    requires Legal(b, steps)
    decreases |steps|
  {
    if steps == [] then b else Run(Apply(b, steps[0]), steps[1..])
  }

  function Fresh(): Browser { Browser(None, [], {}) }

  // ------------------------------------------------- what every run maintains

  predicate Distinct(s: seq<Token>) { forall i, j | 0 <= i < j < |s| :: s[i] != s[j] }

  /** Positions in increasing order, all below n. */
  predicate Increasing(pos: seq<nat>, n: nat) {
    && (forall i | 0 <= i < |pos| :: pos[i] < n)
    && (forall i, j | 0 <= i < j < |pos| :: pos[i] < pos[j])
  }

  function At(starts: seq<Token>, pos: seq<nat>): seq<Token>
    requires forall i | 0 <= i < |pos| :: pos[i] < |starts|
  {
    seq(|pos|, i requires 0 <= i < |pos| => starts[pos[i]])
  }

  /** The cookie holds the starts at pos: at most 16, in start order, none spent,
      and every unspent start with fewer than 16 later ones is among them. */
  ghost predicate Holds(b: Browser, pos: seq<nat>) {
    && Increasing(pos, |b.starts|) && |pos| <= MAX_TOKENS
    && b.cookie == (if pos == [] then None else Some(Print(At(b.starts, pos))))
    && (forall k <- pos :: b.starts[k] !in b.spent)
    && (forall k | 0 <= k < |b.starts| && b.starts[k] !in b.spent && |b.starts| - 1 - k < MAX_TOKENS :: k in pos)
  }

  ghost predicate Sound(b: Browser) {
    && Distinct(b.starts) && (forall t <- b.starts :: Printable(t)) && (forall t <- b.spent :: t in b.starts)
    && exists pos: seq<nat> :: Holds(b, pos)
  }

  lemma HeldTokens(b: Browser, pos: seq<nat>)
    requires Holds(b, pos) && forall t <- b.starts :: Printable(t)
    ensures Held(b) == if pos == [] then None else Some(At(b.starts, pos))
  {
    ParsePrint(At(b.starts, pos));
  }

  lemma {:induction false} WithoutAt(s: seq<Token>, k: nat)
    requires Distinct(s) && k < |s|
    ensures Without(s, s[k]) == s[..k] + s[k + 1..]
  {
    if k == 0 {
      WithoutNone(s[1..], s[0]);
    } else {
      WithoutAt(s[1..], k - 1);
      assert s[0] != s[k] && s[1..][k - 1] == s[k];
      assert [s[0]] + (s[1..][..k - 1] + s[1..][k..]) == s[..k] + s[k + 1..];
    }
  }

  lemma {:induction false} IncreasingGap(pos: seq<nat>, n: nat)
    requires Increasing(pos, n) && pos != []
    ensures pos[0] + |pos| <= n
  {
    if |pos| > 1 {
      IncreasingGap(pos[1..], n);
    }
  }

  /** The positions held after one more start: the oldest goes when the list is full. */
  function StartPos(pos: seq<nat>, n: nat): seq<nat> {
    (if |pos| == MAX_TOKENS then pos[1..] else pos) + [n]
  }

  lemma StartPosKeeps(pos: seq<nat>, n: nat)
    requires Increasing(pos, n) && |pos| <= MAX_TOKENS
    ensures Increasing(StartPos(pos, n), n + 1) && |StartPos(pos, n)| <= MAX_TOKENS
    ensures forall k <- StartPos(pos, n) :: k == n || k in pos
    ensures forall k | k == n || (k in pos && n - k < MAX_TOKENS) :: k in StartPos(pos, n)
  {
    if |pos| == MAX_TOKENS {
      IncreasingGap(pos, n);
      forall k | k in pos && n - k < MAX_TOKENS
        ensures k in pos[1..]
      {
        var i :| 0 <= i < |pos| && pos[i] == k;
        assert pos[1..][i - 1] == k;
      }
    }
    assert StartPos(pos, n)[|StartPos(pos, n)| - 1] == n;
  }

  lemma StartTokens(starts: seq<Token>, pos: seq<nat>, t: Token)
    requires Increasing(pos, |starts|) && |pos| <= MAX_TOKENS
    ensures var pos' := StartPos(pos, |starts|);
            (forall i | 0 <= i < |pos'| :: pos'[i] <= |starts|) && At(starts + [t], pos') == Append(At(starts, pos), t)
  {
  }

  lemma StartHolds(b: Browser, pos: seq<nat>, t: Token)
    requires Holds(b, pos) && (forall u <- b.starts :: Printable(u)) && t !in b.spent && Enabled(b, Start(t))
    ensures Holds(Apply(b, Start(t)), StartPos(pos, |b.starts|))
  {
    HeldTokens(b, pos);
    StartPosKeeps(pos, |b.starts|);
    StartTokens(b.starts, pos, t);
  }

  /** The positions held once the k-th is spent. */
  function Skip(pos: seq<nat>, k: nat): seq<nat>
    requires k < |pos|
  {
    pos[..k] + pos[k + 1..]
  }

  lemma SkipKeeps(pos: seq<nat>, k: nat, n: nat)
    requires Increasing(pos, n) && k < |pos|
    ensures Increasing(Skip(pos, k), n)
    ensures forall i :: i in Skip(pos, k) <==> i in pos && i != pos[k]
  {
  }

  lemma SkipTokens(starts: seq<Token>, pos: seq<nat>, k: nat)
    requires Increasing(pos, |starts|) && k < |pos| && Distinct(starts)
    ensures Increasing(Skip(pos, k), |starts|)
    ensures Without(At(starts, pos), starts[pos[k]]) == At(starts, Skip(pos, k))
  {
    var held := At(starts, pos);
    SkipKeeps(pos, k, |starts|);
    WithoutAt(held, k);
    assert At(starts, Skip(pos, k)) == held[..k] + held[k + 1..];
  }

  lemma CallbackHolds(b: Browser, pos: seq<nat>, k: nat)
    requires Holds(b, pos) && (forall u <- b.starts :: Printable(u)) && Distinct(b.starts) && k < |pos|
    requires Enabled(b, Callback(b.starts[pos[k]]))
    ensures Holds(Apply(b, Callback(b.starts[pos[k]])), Skip(pos, k))
  {
    HeldTokens(b, pos);
    SkipKeeps(pos, k, |b.starts|);
    SkipTokens(b.starts, pos, k);
    var b' := Apply(b, Callback(b.starts[pos[k]]));
    assert b'.cookie == (if Skip(pos, k) == [] then None else Some(Print(At(b'.starts, Skip(pos, k)))));
    forall i <- Skip(pos, k)
      ensures b'.starts[i] !in b'.spent
    {
      assert b.starts[i] != b.starts[pos[k]];
    }
  }

  lemma StepKeepsSound(b: Browser, step: Step)
    requires Sound(b) && Enabled(b, step)
    ensures Sound(Apply(b, step))
  {
    var pos: seq<nat> :| Holds(b, pos);
    if step.Start? {
      StartHolds(b, pos, step.t);
    } else {
      HeldTokens(b, pos);
      var k :| 0 <= k < |pos| && At(b.starts, pos)[k] == step.t;
      CallbackHolds(b, pos, k);
    }
  }

  lemma {:induction false} RunKeepsSound(b: Browser, steps: seq<Step>)
    requires Sound(b) && Legal(b, steps)
    ensures Sound(Run(b, steps))
    decreases |steps|
  {
    if steps != [] {
      StepKeepsSound(b, steps[0]);
      RunKeepsSound(Apply(b, steps[0]), steps[1..]);
    }
  }

  /** After any run of starts and callbacks: a cookie that is present parses, to a
      list in start order of at most 16 tokens, none of them spent, with every
      unspent token that has fewer than 16 later starts. */
  lemma PendingTokensSurvive(steps: seq<Step>)
    requires Legal(Fresh(), steps)
    ensures var b := Run(Fresh(), steps);
            && (b.cookie.Some? <==> Held(b).Some?)
            && var held := if Held(b).Some? then Held(b).value else [];
               && |held| <= MAX_TOKENS
               && (forall t <- held :: t in b.starts && t !in b.spent)
               && (forall k | 0 <= k < |b.starts| && |b.starts| - 1 - k < MAX_TOKENS
                   && b.starts[k] !in b.spent :: b.starts[k] in held)
               && exists pos: seq<nat> :: Increasing(pos, |b.starts|) && held == At(b.starts, pos)
  {
    var b := Run(Fresh(), steps);
    assert Holds(Fresh(), []);
    RunKeepsSound(Fresh(), steps);
    var pos: seq<nat> :| Holds(b, pos);
    HeldTokens(b, pos);
    forall k | 0 <= k < |b.starts| && |b.starts| - 1 - k < MAX_TOKENS && b.starts[k] !in b.spent
      ensures b.starts[k] in At(b.starts, pos)
    {
      var i :| 0 <= i < |pos| && pos[i] == k;
      assert At(b.starts, pos)[i] == b.starts[k];
    }
  }

  /** A spent token is never held again, whatever follows. */
  lemma {:induction false} SpentStaysSpent(before: seq<Step>, t: Token, after: seq<Step>)
    requires Legal(Fresh(), before) && Enabled(Run(Fresh(), before), Callback(t))
    requires Legal(Apply(Run(Fresh(), before), Callback(t)), after)
    ensures var b := Run(Apply(Run(Fresh(), before), Callback(t)), after);
            Held(b).Some? ==> t !in Held(b).value
  {
    assert Holds(Fresh(), []);
    RunKeepsSound(Fresh(), before);
    var b1 := Apply(Run(Fresh(), before), Callback(t));
    StepKeepsSound(Run(Fresh(), before), Callback(t));
    RunKeepsSound(b1, after);
    SpentGrows(b1, after);
    var b := Run(b1, after);
    var pos: seq<nat> :| Holds(b, pos);
    HeldTokens(b, pos);
  }

  lemma {:induction false} SpentGrows(b: Browser, steps: seq<Step>)
    requires Legal(b, steps)
    ensures b.spent <= Run(b, steps).spent
    decreases |steps|
  {
    if steps != [] {
      SpentGrows(Apply(b, steps[0]), steps[1..]);
    }
  }
}
