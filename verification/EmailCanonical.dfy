/** When the canonical form of an address is its own canonical form. */
module EmailCanonical {
  import opened Text
  import opened EmailAddress

  predicate EndsInDot(d: string) { d != "" && d[|d| - 1] == '.' }

  function DropDot(d: string): string { if EndsInDot(d) then d[..|d| - 1] else d }

  predicate Spaceless(s: string) { forall c <- s :: !IsSpace(c) }

  /** Lower-case already. */
  ghost predicate Settled(t: Tables, s: string) { forall c <- s :: t.lower(c) == c }

  /** What the library's tables do: lower-casing settles, and the IDNA form of a domain is the
      domain itself or a settled host name that is its own IDNA form, with or without a
      trailing dot. IDNA may make that dot of another full stop. */
  ghost predicate Lawful(t: Tables) {
    && (forall c :: t.lower(t.lower(c)) == t.lower(c))
    && (forall d :: t.puny(d) == d || HostForm(t, t.puny(d)))
    && t.puny("gmail.com") == "gmail.com" && Settled(t, "gmail.com")
  }

  ghost predicate HostForm(t: Tables, h: string) {
    Settled(t, h) && Spaceless(h) && '@' !in h && t.puny(h) == h && t.puny(DropDot(h)) == DropDot(h)
  }

  // -------------------------------------------------------------------- pieces

  lemma {:induction false} BeforeIsPart(s: string, c: char)
    ensures c !in Before(s, c) && |Before(s, c)| <= |s| && forall x <- Before(s, c) :: x in s
  {
    if s != "" && s[0] != c {
      BeforeIsPart(s[1..], c);
    }
  }

  lemma {:induction false} WithoutIsPart(s: string, c: char)
    ensures c !in Without(s, c) && |Without(s, c)| <= |s| && forall x <- Without(s, c) :: x in s
  {
    if s != "" {
      WithoutIsPart(s[1..], c);
    }
  }

  /** A local part only loses characters, and has nothing more to lose. */
  lemma LocalShrinks(local: string, domain: string)
    ensures var l := CanonicalLocal(local, domain);
            && |l| <= |local| && (forall x <- l :: x in local)
            && '+' !in l && (domain == "gmail.com" ==> '.' !in l)
  {
    BeforeIsPart(local, '+');
    WithoutIsPart(Before(local, '+'), '.');
  }

  lemma LocalSettles(l: string, domain: string)
    requires '+' !in l && (domain == "gmail.com" ==> '.' !in l)
    ensures CanonicalLocal(l, domain) == l
  {
    BeforeNone(l, '+');
    if domain == "gmail.com" {
      WithoutNone(l, '.');
    }
  }

  lemma SettledStays(t: Tables, s: string)
    requires Settled(t, s)
    ensures Map(t.lower, s) == s
  {
  }

  lemma LowerSettles(t: Tables, s: string)
    requires Lawful(t)
    ensures Settled(t, Map(t.lower, s))
  {
  }

  // ------------------------------------------------------------------- domains

  /** The domain as it goes to IDNA: trimmed, and without one trailing dot. */
  function Bare(tail: string): string { DropDot(Trim(tail)) }

  /** What a canonical domain looks like: its bare spelling, or a host name. */
  ghost predicate DomainForm(t: Tables, bare: string, d: string) {
    && Settled(t, d) && '@' !in d && d != "googlemail.com" && t.puny(d) == d
    && (d == bare || Spaceless(d))
  }

  lemma DomainIs(t: Tables, tail: string)
    requires Lawful(t) && Settled(t, tail) && '@' !in tail
    ensures DomainForm(t, Bare(tail), CanonicalDomain(t, tail))
  {
    SettledStays(t, tail);
    var i, j := TrimIsMiddle(tail);
    var bare := Bare(tail);
    assert forall c <- bare :: c in tail;
    assert t.puny(bare) == bare || HostForm(t, t.puny(bare));
    GmailIsHost(t);
  }

  lemma GmailIsHost(t: Tables)
    requires Lawful(t)
    ensures DomainForm(t, "", "gmail.com")
  {
  }

  /** A trimmed canonical domain without a trailing dot is its own canonical form. */
  lemma DomainSettles(t: Tables, bare: string, d: string)
    requires DomainForm(t, bare, d) && Trim(d) == d && !EndsInDot(d)
    ensures CanonicalDomain(t, d) == d
  {
    SettledStays(t, d);
  }

  /** One that ends in a dot is not. */
  lemma DomainLosesDot(t: Tables, d: string)
    requires Lawful(t) && Settled(t, d) && Trim(d) == d && EndsInDot(d)
    ensures CanonicalDomain(t, d) != d
  {
    SettledStays(t, d);
    var x := DropDot(d);
    assert t.puny(x) == x || HostForm(t, t.puny(x));
    assert "gmail.com"[8] == 'm';
  }

  /** Nor is one that loses a space at its end. */
  lemma DomainLosesSpace(t: Tables, d: string, k: nat)
    requires Lawful(t) && Settled(t, d) && '@' !in d && k < |d| && IsSpace(d[|d| - 1])
    ensures CanonicalDomain(t, d[..k]) != d
  {
    var d2 := CanonicalDomain(t, d[..k]);
    DomainIs(t, d[..k]);
    var i, j := TrimIsMiddle(d[..k]);
    assert |Bare(d[..k])| <= k;
    assert d[|d| - 1] in d;
  }

  // ----------------------------------------------------------------- addresses

  /** The pieces of a canonical address with an '@'. */
  datatype Parts = Parts(local: string, bare: string, domain: string)

  ghost predicate Forms(t: Tables, c: string, p: Parts) {
    && c == p.local + ['@'] + p.domain && Settled(t, c) && DomainForm(t, p.bare, p.domain)
    && '+' !in p.local && (p.domain == "gmail.com" ==> '.' !in p.local)
  }

  /** The address as it is cut up: trimmed and lower-case. */
  function Spelled(t: Tables, a: string): string { Trim(Map(t.lower, a)) }

  lemma SpelledIs(t: Tables, a: string)
    requires Lawful(t)
    ensures Settled(t, Spelled(t, a)) && Spelled(t, Spelled(t, a)) == Spelled(t, a)
  {
    LowerSettles(t, a);
    var i, j := TrimIsMiddle(Map(t.lower, a));
    var s := Spelled(t, a);
    assert forall c <- s :: c in Map(t.lower, a);
    SettledStays(t, s);
    TrimTrims(Map(t.lower, a));
    TrimFixes(s);
  }

  lemma CanonicalForms(t: Tables, a: string) returns (p: Parts)
    requires Lawful(t) && '@' in Spelled(t, a)
    ensures Forms(t, Canonicalize(t, a), p) && p.bare == Bare(TailOf(Spelled(t, a)))
  {
    var s := Spelled(t, a);
    SpelledIs(t, a);
    LastIndexIs(s, '@');
    var at := LastIndex(s, '@');
    var tail := s[at + 1..];
    DomainIs(t, tail);
    LocalShrinks(s[..at], CanonicalDomain(t, tail));
    p := Parts(CanonicalLocal(s[..at], CanonicalDomain(t, tail)), Bare(tail), CanonicalDomain(t, tail));
    assert '@' in s && s[at] == '@';
  }

  /** What follows the last '@'. */
  function TailOf(s: string): string { s[LastIndex(s, '@') + 1..] }

  /** Trimming such an address cuts only at the outer ends of its pieces. */
  lemma TrimCuts(c: string, local: string, domain: string) returns (i: nat, k: nat)
    requires c == local + ['@'] + domain
    ensures i <= |local| && k <= |domain| && Trim(c) == local[i..] + ['@'] + domain[..k]
    ensures k < |domain| ==> IsSpace(domain[|domain| - 1])
  {
    var lo, hi := TrimIsMiddle(c);
    assert c[|local|] == '@' && !IsSpace('@');
    i, k := lo, hi - |local| - 1;
    assert c[lo..hi] == local[i..] + ['@'] + domain[..k];
    assert k < |domain| ==> c[|c| - 1] == domain[|domain| - 1];
  }

  /** The split at the last '@' is unique. */
  lemma SplitIsUnique(l: string, d: string, l': string, d': string)
    requires '@' !in d && '@' !in d' && l + ['@'] + d == l' + ['@'] + d'
    ensures l == l' && d == d'
  {
    var s := l + ['@'] + d;
    LastIndexAt(l + ['@'], d, '@');
    LastIndexAt(l' + ['@'], d', '@');
    assert s[..|l|] == l && s[..|l'|] == l' && s[|l| + 1..] == d && s[|l'| + 1..] == d';
  }

  lemma PartsDiffer(l: string, d: string, l': string, d': string)
    requires '@' !in d && '@' !in d' && (l != l' || d != d')
    ensures l + ['@'] + d != l' + ['@'] + d'
  {
    if l + ['@'] + d == l' + ['@'] + d' {
      SplitIsUnique(l, d, l', d');
    }
  }

  lemma AgainIs(t: Tables, c: string, p: Parts, i: nat, k: nat)
    requires Lawful(t) && Forms(t, c, p) && i <= |p.local| && k <= |p.domain|
    requires Trim(c) == p.local[i..] + ['@'] + p.domain[..k]
    ensures var d := CanonicalDomain(t, p.domain[..k]);
            Canonicalize(t, c) == CanonicalLocal(p.local[i..], d) + ['@'] + d && '@' !in d
  {
    SettledStays(t, c);
    assert forall x <- p.domain[..k] :: x in p.domain;
    assert '@' !in p.domain[..k] && Settled(t, p.domain[..k]);
    DomainIs(t, p.domain[..k]);
    CanonicalParts(t, p.local[i..], p.domain[..k]);
  }

  /** Cutting either piece changes it for good. */
  lemma CutMoves(t: Tables, p: Parts, i: nat, k: nat)
    requires Lawful(t) && DomainForm(t, p.bare, p.domain) && i <= |p.local| && k <= |p.domain|
    requires i > 0 || k < |p.domain|
    requires k < |p.domain| ==> IsSpace(p.domain[|p.domain| - 1])
    ensures var d := CanonicalDomain(t, p.domain[..k]); CanonicalLocal(p.local[i..], d) != p.local || d != p.domain
  {
    LocalShrinks(p.local[i..], CanonicalDomain(t, p.domain[..k]));
    if k < |p.domain| {
      DomainLosesSpace(t, p.domain, k);
    }
  }

  lemma UntrimmedMoves(t: Tables, c: string, p: Parts, i: nat, k: nat)
    requires Lawful(t) && Forms(t, c, p) && i <= |p.local| && k <= |p.domain| && (i > 0 || k < |p.domain|)
    requires Trim(c) == p.local[i..] + ['@'] + p.domain[..k]
    requires k < |p.domain| ==> IsSpace(p.domain[|p.domain| - 1])
    ensures Canonicalize(t, c) != c
  {
    var d := CanonicalDomain(t, p.domain[..k]);
    AgainIs(t, c, p, i, k);
    CutMoves(t, p, i, k);
    PartsDiffer(p.local, p.domain, CanonicalLocal(p.local[i..], d), d);
  }

  lemma TrimmedStays(t: Tables, c: string, p: Parts)
    requires Lawful(t) && Forms(t, c, p) && Trim(c) == c && !EndsInDot(p.domain) && Trim(p.domain) == p.domain
    ensures Canonicalize(t, c) == c
  {
    assert p.local[0..] == p.local && p.domain[..|p.domain|] == p.domain;
    AgainIs(t, c, p, 0, |p.domain|);
    DomainSettles(t, p.bare, p.domain);
    LocalSettles(p.local, p.domain);
  }

  lemma DottedMoves(t: Tables, c: string, p: Parts)
    requires Lawful(t) && Forms(t, c, p) && Trim(c) == c && EndsInDot(p.domain) && Trim(p.domain) == p.domain
    ensures Canonicalize(t, c) != c
  {
    assert p.local[0..] == p.local && p.domain[..|p.domain|] == p.domain;
    AgainIs(t, c, p, 0, |p.domain|);
    DomainLosesDot(t, p.domain);
    PartsDiffer(p.local, p.domain, CanonicalLocal(p.local, CanonicalDomain(t, p.domain)), CanonicalDomain(t, p.domain));
  }

  /** The domain of a trimmed canonical address is trimmed. */
  lemma DomainIsTrimmed(local: string, domain: string, tail: string)
    requires Trimmed(local + ['@'] + domain) && (domain == Bare(tail) || Spaceless(domain))
    ensures Trim(domain) == domain
  {
    var c := local + ['@'] + domain;
    if domain != "" {
      assert c[|c| - 1] == domain[|domain| - 1] && domain[0] in domain;
      TrimTrims(tail);
      assert domain == Bare(tail) ==> domain[0] == Trim(tail)[0];
    }
    TrimFixes(domain);
  }

  /** The canonical form of an address is its own canonical form exactly when it neither begins
      nor ends with whitespace and its domain does not end in a dot. */
  lemma CanonicalIsFixedIff(t: Tables, a: string)
    requires Lawful(t)
    ensures var c := Canonicalize(t, a); Canonicalize(t, c) == c <==> Trimmed(c) && ('@' in c ==> !EndsInDot(c))
  {
    var c, s := Canonicalize(t, a), Spelled(t, a);
    SpelledIs(t, a);
    if '@' in s {
      var p := CanonicalForms(t, a);
      PartsAreFixedIff(t, c, p, TailOf(s));
    } else {
      LastIndexIs(s, '@');
      assert c == s;
      TrimTrims(Map(t.lower, a));
    }
  }

  lemma PartsAreFixedIff(t: Tables, c: string, p: Parts, tail: string)
    requires Lawful(t) && Forms(t, c, p) && p.bare == Bare(tail)
    ensures Canonicalize(t, c) == c <==> Trimmed(c) && ('@' in c ==> !EndsInDot(c))
  {
    assert c[|p.local|] == '@' && (EndsInDot(c) <==> EndsInDot(p.domain));
    var i, k := TrimCuts(c, p.local, p.domain);
    if Trimmed(c) {
      TrimFixes(c);
      DomainIsTrimmed(p.local, p.domain, tail);
      if EndsInDot(p.domain) {
        DottedMoves(t, c, p);
      } else {
        TrimmedStays(t, c, p);
      }
    } else {
      TrimTrims(c);
      assert i == 0 && k == |p.domain| ==> Trim(c) == c;
      UntrimmedMoves(t, c, p, i, k);
    }
  }

  /** Whitespace that is no space, tab or line end. */
  const VERTICAL_TAB := '\U{000B}'

  /** So the documented idempotence fails even where the canonical form is a usable mailbox: a dot
      before a vertical tab hides it from the first trimming and not from the second. */
  lemma UsableIsNotFixed(t: Tables)
    requires Lawful(t) && GmailTables(t)
    ensures var a, c := Gmail(['.', VERTICAL_TAB, 'a']), Gmail([VERTICAL_TAB, 'a']);
            Canonicalize(t, a) == c && Usable(t, a) && Canonicalize(t, c) != c
  {
    var local, short := ['.', VERTICAL_TAB, 'a'], [VERTICAL_TAB, 'a'];
    HiddenTab(t, local, short);
    CanonicalIsFixedIff(t, Gmail(local));
  }

  lemma HiddenTab(t: Tables, local: string, short: string)
    requires GmailTables(t) && local == ['.', VERTICAL_TAB, 'a'] && short == [VERTICAL_TAB, 'a']
    ensures Canonicalize(t, Gmail(local)) == Gmail(short) && Usable(t, Gmail(local)) && !Trimmed(Gmail(short))
  {
    WithoutNone(short, '.');
    assert local[1..] == short && Without(local, '.') == short;
    assert Map(t.lower, local) == local;
    assert Untagged(t, local);
    GmailCanonical(t, local);
    GmailMailbox(short);
    assert Gmail(short)[0] == VERTICAL_TAB;
  }

  /** It also fails where the domain ends in a full stop that is no ASCII dot and that IDNA makes
      one of, such as the ideographic full stop (U+3002): the first form gains the dot
      that the second drops. */
  lemma MappedStopIsNotFixed(t: Tables, local: string, host: string, stop: char)
    requires Lawful(t) && stop != '.' && t.puny(host + [stop]) == host + ['.']
    requires var a := local + ['@'] + (host + [stop]);
             Settled(t, a) && Trimmed(a) && Trimmed(host + [stop]) && '@' !in host + [stop] && '+' !in local
    ensures var a, c := local + ['@'] + (host + [stop]), local + ['@'] + (host + ['.']);
            !EndsInDot(a) && Canonicalize(t, a) == c && Canonicalize(t, c) != c
  {
    var d := host + [stop];
    var a, c := local + ['@'] + d, local + ['@'] + (host + ['.']);
    SettledStays(t, a);
    TrimFixes(a);
    CanonicalParts(t, local, d);
    StopBecomesDot(t, host, stop, a);
    BeforeNone(local, '+');
    assert c[|c| - 1] == '.' && c[|local|] == '@';
    CanonicalIsFixedIff(t, a);
  }

  lemma StopBecomesDot(t: Tables, host: string, stop: char, a: string)
    requires Settled(t, a) && stop != '.' && t.puny(host + [stop]) == host + ['.'] && Trimmed(host + [stop])
    requires forall x <- host + [stop] :: x in a
    ensures CanonicalDomain(t, host + [stop]) == host + ['.'] != "gmail.com"
  {
    var d, h := host + [stop], host + ['.'];
    assert Settled(t, d);
    SettledStays(t, d);
    TrimFixes(d);
    assert h[|h| - 1] == '.' && "gmail.com"[8] == 'm' && "googlemail.com"[13] == 'm';
  }
}
