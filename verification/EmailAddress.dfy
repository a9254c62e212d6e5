/** When two spellings of an email address name one mailbox, and when proof of
    one address is proof of another.

    Letter case follows the tables of the library: lower is unicode.ToLower,
    orbit names the class of characters strings.EqualFold takes as equal, and
    puny is the IDNA form of a domain, or the domain itself where there is none.
*/
module EmailAddress {
  import opened Prelude
  import opened Text

  datatype Tables = Tables(lower: char -> char, orbit: char -> char, puny: string -> string)

  function CanonicalDomain(t: Tables, domain: string): string {
    var d := Trim(Map(t.lower, domain));
    var a := t.puny(if d != "" && d[|d| - 1] == '.' then d[..|d| - 1] else d);
    if a == "googlemail.com" then "gmail.com" else a
  }

  /** Without its tag, and for Gmail without its dots. */
  function CanonicalLocal(local: string, domain: string): string {
    if domain == "gmail.com" then Without(Before(local, '+'), '.') else Before(local, '+')
  }

  function Canonicalize(t: Tables, addr: string): string { CanonicalFrom(t, Trim(Map(t.lower, addr))) }

  /** From the trimmed lower-case spelling. */
  function CanonicalFrom(t: Tables, s: string): string {
    var at := LastIndex(s, '@');
    if at < 0 then s
    else
      var domain := CanonicalDomain(t, s[at + 1..]);
      CanonicalLocal(s[..at], domain) + "@" + domain
  }

  /** A canonical address with a local part, a dotted domain and no whitespace. */
  predicate IsMailbox(c: string) {
    var at := LastIndex(c, '@');
    && 0 < at < |c| - 1 && '.' in c[at + 1..]
    && ' ' !in c && '\t' !in c && '\r' !in c && '\n' !in c
  }

  /** A '+' before the last '@'. */
  predicate Tagged(s: string) { '+' in s[..if LastIndex(s, '@') < 0 then 0 else LastIndex(s, '@')] }

  predicate AtGmail(c: string) { |c| >= 10 && c[|c| - 10..] == "@gmail.com" }

  // ------------------------------------------------------------- carried proof

  /** The rules as the callers use them: fold is equality up to case and surrounding
      space, canon and usable are Mailbox, rewritable the tag test of a rewrite. */
  datatype Mail = Mail(fold: string -> string, canon: string -> string, usable: string -> bool,
      rewritable: string -> bool)

  function Fold(t: Tables, s: string): string { Map(t.orbit, Trim(s)) }

  predicate Usable(t: Tables, s: string) { IsMailbox(Canonicalize(t, s)) }

  predicate Rewritable(t: Tables, s: string) { Tagged(s) ==> AtGmail(Canonicalize(t, s)) }

  function MailOf(t: Tables): Mail {
    Mail(s => Fold(t, s), s => Canonicalize(t, s), s => Usable(t, s), s => Rewritable(t, s))
  }

  /** canonicalRewriteTarget. */
  function Target(m: Mail, addr: string): Option<string> {
    if m.usable(addr) && m.rewritable(addr) then Some(m.canon(addr)) else None
  }

  /** ProofCarriesTo. */
  predicate Carries(m: Mail, proven: string, stored: string) {
    && stored != ""
    && if m.fold(proven) == m.fold(stored) then m.usable(stored)
       else Target(m, proven).Some? && Target(m, proven) == Target(m, stored)
  }

  /** An address proves itself exactly when it is a usable mailbox. */
  lemma CarriesToItself(m: Mail, a: string)
    ensures Carries(m, a, a) <==> a != "" && m.usable(a)
  {
  }

  /** Among these addresses, those that fold together have one target and are usable together. */
  ghost predicate LawfulOn(m: Mail, addrs: iset<string>) { forall a <- addrs, b <- addrs :: LawfulPair(m, a, b) }

  ghost predicate LawfulPair(m: Mail, a: string, b: string) {
    m.fold(a) == m.fold(b) ==> Target(m, a) == Target(m, b) && m.usable(a) == m.usable(b)
  }

  /** Proof carried in two steps is carried in one, among such addresses. */
  lemma CarriesIsTransitive(m: Mail, addrs: iset<string>, a: string, b: string, c: string)
    requires LawfulOn(m, addrs) && a in addrs && b in addrs && c in addrs && Carries(m, a, b) && Carries(m, b, c)
    ensures Carries(m, a, c)
  {
  }

  // -------------------------------------------------------------------- ASCII

  /** Both tables lower-case ASCII letters and leave other ASCII alone. */
  ghost predicate AsciiTables(t: Tables) {
    && (forall c | c < '\U{0080}' :: t.lower(c) == LowerChar(c))
    && (forall c | c < '\U{0080}' :: t.orbit(c) == LowerChar(c))
  }

  lemma {:induction false} TaggedMeans(s: string)
    ensures Tagged(s) <==> exists i, j | 0 <= i < j < |s| :: s[i] == '+' && s[j] == '@'
  {
    LastIndexIs(s, '@');
    var at := LastIndex(s, '@');
    if i, j :| 0 <= i < j < |s| && s[i] == '+' && s[j] == '@' {
      assert j <= at;
      assert s[..at][i] == '+';
    }
    if Tagged(s) {
      var i :| 0 <= i < at && s[..at][i] == '+';
      assert s[i] == '+' && s[at] == '@';
    }
  }

  lemma TaggedTrims(s: string)
    ensures Tagged(Trim(s)) <==> Tagged(s)
  {
    TaggedMeans(s);
    TaggedMeans(Trim(s));
    var lo, hi := TrimIsMiddle(s);
    assert !IsSpace('+') && !IsSpace('@');
    if i, j :| 0 <= i < j < |s| && s[i] == '+' && s[j] == '@' {
      assert Trim(s)[i - lo] == '+' && Trim(s)[j - lo] == '@';
    }
    if i, j :| 0 <= i < j < |Trim(s)| && Trim(s)[i] == '+' && Trim(s)[j] == '@' {
      assert s[lo + i] == '+' && s[lo + j] == '@';
    }
  }

  lemma TaggedMaps(f: char -> char, s: string)
    requires Ascii(s) && forall c | c < '\U{0080}' :: f(c) == LowerChar(c)
    ensures Tagged(Map(f, s)) <==> Tagged(s)
  {
    TaggedMeans(s);
    TaggedMeans(Map(f, s));
    assert forall i | 0 <= i < |s| :: Map(f, s)[i] == LowerChar(s[i]);
  }

  lemma SameLower(t: Tables, x: string, y: string)
    requires AsciiTables(t) && Ascii(x) && Ascii(y) && Map(t.orbit, x) == Map(t.orbit, y)
    ensures Map(t.lower, x) == Map(t.lower, y)
  {
  }

  lemma AsciiTag(t: Tables, a: string)
    requires AsciiTables(t) && Ascii(a)
    ensures Tagged(a) <==> Tagged(Map(t.lower, Trim(a)))
  {
    var i, j := TrimIsMiddle(a);
    TaggedTrims(a);
    TaggedMaps(t.lower, Trim(a));
  }

  /** ASCII spellings equal up to case and space have one canonical form and one tag test. */
  lemma AsciiFoldsTogether(t: Tables, a: string, b: string)
    requires AsciiTables(t) && Ascii(a) && Ascii(b) && Map(t.orbit, Trim(a)) == Map(t.orbit, Trim(b))
    ensures Canonicalize(t, a) == Canonicalize(t, b) && Tagged(a) == Tagged(b)
  {
    var i, j := TrimIsMiddle(a);
    var k, l := TrimIsMiddle(b);
    SameLower(t, Trim(a), Trim(b));
    TrimMap(t.lower, a);
    TrimMap(t.lower, b);
    AsciiTag(t, a);
    AsciiTag(t, b);
  }

  lemma SameRules(t: Tables, a: string, b: string)
    requires Canonicalize(t, a) == Canonicalize(t, b) && Tagged(a) == Tagged(b)
    ensures Usable(t, a) == Usable(t, b) && Rewritable(t, a) == Rewritable(t, b)
  {
  }

  lemma AsciiPair(t: Tables, a: string, b: string)
    requires AsciiTables(t) && Ascii(a) && Ascii(b)
    ensures LawfulPair(MailOf(t), a, b)
  {
    if Fold(t, a) == Fold(t, b) {
      AsciiFoldsTogether(t, a, b);
      SameRules(t, a, b);
    }
  }

  /** So the law holds among ASCII addresses. */
  lemma AsciiIsLawful(t: Tables)
    requires AsciiTables(t)
    ensures LawfulOn(MailOf(t), AsciiAddresses())
  {
    forall a <- AsciiAddresses(), b <- AsciiAddresses() ensures LawfulPair(MailOf(t), a, b) {
      AsciiPair(t, a, b);
    }
  }

  ghost function AsciiAddresses(): iset<string> { iset s: string | Ascii(s) }

  // ------------------------------------------------------------ beyond ASCII

  function Gmail(local: string): string { local + ['@'] + "gmail.com" }

  /** A lower-case local part without a tag or whitespace. */
  ghost predicate Untagged(t: Tables, local: string) {
    && local != "" && Trimmed(local) && Map(t.lower, local) == local
    && ' ' !in local && '\t' !in local && '\r' !in local && '\n' !in local && '+' !in local
  }

  /** The tables leave gmail.com alone. */
  ghost predicate GmailTables(t: Tables) { AsciiTables(t) && t.puny("gmail.com") == "gmail.com" }

  lemma CanonicalParts(t: Tables, local: string, tail: string)
    requires '@' !in tail
    ensures var domain := CanonicalDomain(t, tail);
            CanonicalFrom(t, local + ['@'] + tail) == CanonicalLocal(local, domain) + "@" + domain
  {
    var s := local + ['@'] + tail;
    LastIndexAt(local + ['@'], tail, '@');
    assert s[..|local|] == local && s[|local| + 1..] == tail;
  }

  lemma GmailDomain(t: Tables)
    requires GmailTables(t)
    ensures Map(t.lower, "gmail.com") == "gmail.com" && CanonicalDomain(t, "gmail.com") == "gmail.com"
  {
    var d := "gmail.com";
    assert Map(t.lower, d) == d;
    TrimFixes(d);
  }

  lemma LowerGmail(t: Tables, local: string)
    requires GmailTables(t) && Map(t.lower, local) == local
    ensures Map(t.lower, Gmail(local)) == Gmail(local)
  {
  }

  lemma TrimGmail(local: string)
    requires local != "" && Trimmed(local)
    ensures Trim(Gmail(local)) == Gmail(local)
  {
  }

  /** Such a Gmail address keeps its spelling but for the dots. */
  lemma GmailCanonical(t: Tables, local: string)
    requires GmailTables(t) && Untagged(t, local)
    ensures Canonicalize(t, Gmail(local)) == Gmail(Without(local, '.')) && Trim(Gmail(local)) == Gmail(local)
  {
    LowerGmail(t, local);
    TrimGmail(local);
    GmailDomain(t);
    BeforeNone(local, '+');
    CanonicalParts(t, local, "gmail.com");
  }

  lemma GmailMailbox(local: string)
    requires local != "" && ' ' !in local && '\t' !in local && '\r' !in local && '\n' !in local && '+' !in local
    ensures IsMailbox(Gmail(local)) && !Tagged(Gmail(local))
  {
    var c, tail := Gmail(local), "gmail.com";
    LastIndexAt(local + ['@'], tail, '@');
    assert c[|local| + 1..] == tail && tail[5] == '.' && c[..|local|] == local;
  }

  lemma RulesAt(t: Tables, x: string, c: string)
    ensures Canonicalize(t, x) == c && IsMailbox(c) && !Tagged(x) && Trim(x) == x ==>
              var m := MailOf(t); m.canon(x) == c && m.usable(x) && m.rewritable(x) && m.fold(x) == Map(t.orbit, x)
  {
  }

  lemma GmailRules(t: Tables, local: string, short: string)
    requires GmailTables(t) && Untagged(t, local) && Untagged(t, short) && Without(local, '.') == short
    ensures var m, x := MailOf(t), Gmail(local);
            m.canon(x) == Gmail(short) && m.usable(x) && m.rewritable(x) && m.fold(x) == Map(t.orbit, x)
  {
    GmailCanonical(t, local);
    GmailMailbox(local);
    GmailMailbox(short);
    RulesAt(t, Gmail(local), Gmail(short));
  }

  function Dotted(local: string): string
    requires local != ""
  {
    local[..1] + (['.'] + local[1..])
  }

  lemma DottedShortens(local: string)
    requires local != "" && '.' !in local
    ensures Without(Dotted(local), '.') == local && Without(local, '.') == local
  {
    var head, tail := local[..1], local[1..];
    assert local == head + tail;
    WithoutNone(local, '.');
    WithoutNone(head, '.');
    WithoutNone(tail, '.');
    assert (['.'] + tail)[1..] == tail;
    assert Without(['.'] + tail, '.') == tail;
    WithoutConcat(head, ['.'] + tail, '.');
  }

  lemma DottedLower(t: Tables, local: string)
    requires AsciiTables(t) && local != "" && Map(t.lower, local) == local
    ensures Map(t.lower, Dotted(local)) == Dotted(local)
  {
  }

  lemma DottedIsUntagged(t: Tables, local: string)
    requires GmailTables(t) && Untagged(t, local)
    ensures Untagged(t, Dotted(local))
  {
    DottedLower(t, local);
  }

  /** Two local parts that fold together and lower-case apart: at Gmail, proof of the first
      spelled with a dot carries to it, and of that to the second, but not from the dotted
      spelling to the second. */
  lemma FoldedPairBreaksTheChain(t: Tables, p: string, q: string)
    requires GmailTables(t) && Untagged(t, p) && Untagged(t, q) && '.' !in p && '.' !in q
    requires p != q && Map(t.orbit, p) == Map(t.orbit, q)
    ensures var m, a, b, c := MailOf(t), Gmail(Dotted(p)), Gmail(p), Gmail(q);
            && m.usable(b) && m.canon(b) == b && m.usable(c) && m.canon(c) == c
            && Carries(m, a, b) && Carries(m, b, c) && !Carries(m, a, c) && a != c
  {
    DottedIsUntagged(t, p);
    DottedShortens(p);
    WithoutNone(q, '.');
    GmailRules(t, Dotted(p), p);
    GmailRules(t, p, p);
    GmailRules(t, q, q);
    GmailFoldsApart(t, p, q);
    SameChain(MailOf(t), Gmail(Dotted(p)), Gmail(p), Gmail(q));
  }

  lemma GmailFoldsApart(t: Tables, p: string, q: string)
    requires p != "" && p != q && Map(t.orbit, p) == Map(t.orbit, q)
    ensures Gmail(p) != Gmail(q) && Map(t.orbit, Gmail(p)) == Map(t.orbit, Gmail(q))
    ensures Gmail(Dotted(p)) != Gmail(q) && Map(t.orbit, Gmail(Dotted(p))) != Map(t.orbit, Gmail(q))
    ensures Map(t.orbit, Gmail(Dotted(p))) != Map(t.orbit, Gmail(p))
  {
    assert |p| == |q| by {
      assert |Map(t.orbit, p)| == |Map(t.orbit, q)|;
    }
    assert Gmail(p)[..|p|] == p && Gmail(q)[..|q|] == q;
    forall i | 0 <= i < |Gmail(p)| ensures t.orbit(Gmail(p)[i]) == t.orbit(Gmail(q)[i]) {
      if i < |p| {
        assert t.orbit(p[i]) == Map(t.orbit, p)[i] == t.orbit(q[i]);
      }
    }
    assert |Gmail(Dotted(p))| == |Gmail(q)| + 1;
  }

  lemma SameChain(m: Mail, a: string, b: string, c: string)
    requires a != "" && b != "" && c != "" && b != c
    requires m.usable(a) && m.rewritable(a) && m.canon(a) == b && m.usable(b) && m.rewritable(b) && m.canon(b) == b
    requires m.usable(c) && m.rewritable(c) && m.canon(c) == c
    requires m.fold(b) == m.fold(c) && m.fold(a) != m.fold(b)
    ensures Carries(m, a, b) && Carries(m, b, c) && !Carries(m, a, c)
  {
  }

  /** The long s (U+017F) is such a character: EqualFold takes it for 's', ToLower leaves it. */
  const LONG_S := '\U{017F}'

  ghost predicate LongSTables(t: Tables) { GmailTables(t) && t.lower(LONG_S) == LONG_S && t.orbit(LONG_S) == 's' }

  const PLAIN := ['s', 'a', 'm']
  const LONG := [LONG_S, 'a', 'm']

  lemma LongSIsFoldedPair(t: Tables)
    requires LongSTables(t)
    ensures Untagged(t, PLAIN) && Untagged(t, LONG) && '.' !in PLAIN && '.' !in LONG
    ensures PLAIN != LONG && Map(t.orbit, PLAIN) == Map(t.orbit, LONG)
  {
  }
}
