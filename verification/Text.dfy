/** The string operations the service's parsers are built on: splitting at and
    joining with a separator character, and trimming white space.
*/
module Text {
  /** strings.Split with a one-character separator. */
  function Split(s: string, sep: char): (parts: seq<string>)
    ensures |parts| > 0
    ensures forall p <- parts :: sep !in p
  {
    if s == "" then [""]
    else if s[0] == sep then [""] + Split(s[1..], sep)
    else var rest := Split(s[1..], sep); [[s[0]] + rest[0]] + rest[1..]
  }

  /** strings.Join with a one-character separator. */
  function Join(parts: seq<string>, sep: char): string {
    if parts == [] then ""
    else if |parts| == 1 then parts[0]
    else parts[0] + [sep] + Join(parts[1..], sep)
  }

  lemma {:induction false} SplitConcat(a: string, b: string, sep: char)
    ensures Split(a + [sep] + b, sep) == Split(a, sep) + Split(b, sep)
  {
    if a == "" {
      assert (a + [sep] + b)[1..] == b;
    } else {
      assert (a + [sep] + b)[1..] == a[1..] + [sep] + b;
      SplitConcat(a[1..], b, sep);
    }
  }

  lemma {:induction false} SplitPlain(s: string, sep: char)
    requires sep !in s
    ensures Split(s, sep) == [s]
  {
    if s != "" {
      SplitPlain(s[1..], sep);
      assert [s[0]] + s[1..] == s;
    }
  }

  lemma {:induction false} JoinConcat(a: seq<string>, b: seq<string>, sep: char)
    requires a != [] && b != []
    ensures Join(a + b, sep) == Join(a, sep) + [sep] + Join(b, sep)
  {
    if |a| == 1 {
      assert (a + b)[1..] == b;
    } else {
      assert (a + b)[1..] == a[1..] + b;
      JoinConcat(a[1..], b, sep);
    }
  }

  lemma {:induction false} JoinSplit(s: string, sep: char)
    ensures Join(Split(s, sep), sep) == s
  {
    if s != "" {
      JoinSplit(s[1..], sep);
      var rest := Split(s[1..], sep);
      if s[0] == sep {
        assert ([""] + rest)[1..] == rest;
      } else {
        assert ([[s[0]] + rest[0]] + rest[1..])[1..] == rest[1..];
      }
    }
  }

  lemma {:induction false} SplitJoinPlain(parts: seq<string>, sep: char)
    requires parts != [] && forall p <- parts :: sep !in p
    ensures Split(Join(parts, sep), sep) == parts
  {
    SplitPlain(parts[0], sep);
    if |parts| > 1 {
      SplitJoinPlain(parts[1..], sep);
      SplitConcat(parts[0], Join(parts[1..], sep), sep);
    }
  }

  /** Parsing returns the list that was printed exactly when it is a non-empty
      list of separator-free parts. */
  lemma SplitJoin(parts: seq<string>, sep: char)
    ensures Split(Join(parts, sep), sep) == parts <==> parts != [] && forall p <- parts :: sep !in p
  {
    if parts != [] && forall p <- parts :: sep !in p {
      SplitJoinPlain(parts, sep);
    }
  }

  lemma SplitPrefixOnly(p: string, s: string, sep: char)
    requires Split(p, sep) <= Split(s, sep)
    ensures s == p || p + [sep] <= s
  {
    var ps, ss := Split(p, sep), Split(s, sep);
    JoinSplit(p, sep);
    JoinSplit(s, sep);
    if |ps| == |ss| {
      assert ps == ss;
    } else {
      assert ss == ps + ss[|ps|..];
      JoinConcat(ps, ss[|ps|..], sep);
    }
  }

  lemma SplitPrefixIf(p: string, s: string, sep: char)
    requires s == p || p + [sep] <= s
    ensures Split(p, sep) <= Split(s, sep)
  {
    if s != p {
      assert s == p + [sep] + s[|p| + 1..];
      SplitConcat(p, s[|p| + 1..], sep);
    }
  }

  /** Part-wise prefix is textual prefix up to a separator or the end. */
  lemma SplitPrefix(p: string, s: string, sep: char)
    ensures Split(p, sep) <= Split(s, sep) <==> s == p || p + [sep] <= s
  {
    if Split(p, sep) <= Split(s, sep) {
      SplitPrefixOnly(p, s, sep);
    } else if s == p || p + [sep] <= s {
      SplitPrefixIf(p, s, sep);
    }
  }

  // --------------------------------------------------------------- searching

  /** strings.LastIndex of one character: -1 when it does not occur. */
  function LastIndex(s: string, c: char): (i: int)
    ensures -1 <= i < |s| && (i >= 0 ==> s[i] == c)
  {
    if s == "" then -1 else if s[|s| - 1] == c then |s| - 1 else LastIndex(s[..|s| - 1], c)
  }

  lemma {:induction false} LastIndexIs(s: string, c: char)
    ensures forall j | LastIndex(s, c) < j < |s| :: s[j] != c
    ensures c !in s[LastIndex(s, c) + 1..]
  {
    if s != "" && s[|s| - 1] != c {
      var init := s[..|s| - 1];
      LastIndexIs(init, c);
      assert forall j | 0 <= j < |init| :: s[j] == init[j];
    }
  }

  /** A tail without the character leaves the last one at the end of the head. */
  lemma {:induction false} LastIndexAt(head: string, tail: string, c: char)
    requires c !in tail && (head == "" || head[|head| - 1] == c)
    ensures LastIndex(head + tail, c) == |head| - 1
    decreases |tail|
  {
    var n := |tail|;
    if n == 0 {
      assert head + tail == head;
    } else {
      assert (head + tail)[..|head| + n - 1] == head + tail[..n - 1];
      LastIndexAt(head, tail[..n - 1], c);
    }
  }

  /** The text before the first occurrence of a character. */
  function Before(s: string, c: char): string {
    if s == "" || s[0] == c then "" else [s[0]] + Before(s[1..], c)
  }

  lemma {:induction false} BeforeNone(s: string, c: char)
    requires c !in s
    ensures Before(s, c) == s
  {
    if s != "" {
      BeforeNone(s[1..], c);
    }
  }

  /** The sequence without any occurrence of an element. */
  function Without<T(==)>(s: seq<T>, x: T): seq<T> {
    if s == [] then [] else (if s[0] == x then [] else [s[0]]) + Without(s[1..], x)
  }

  lemma {:induction false} WithoutNone<T>(s: seq<T>, x: T)
    requires x !in s
    ensures Without(s, x) == s
  {
    if s != [] {
      WithoutNone(s[1..], x);
    }
  }

  lemma {:induction false} WithoutConcat<T>(a: seq<T>, b: seq<T>, x: T)
    ensures Without(a + b, x) == Without(a, x) + Without(b, x)
  {
    if a == [] {
      assert a + b == b;
    } else {
      assert (a + b)[1..] == a[1..] + b;
      WithoutConcat(a[1..], b, x);
    }
  }

  // ---------------------------------------------------------------- trimming

  /** unicode.IsSpace. */
  predicate IsSpace(c: char) {
    || '\t' <= c <= '\r' || c == ' ' || c == '\U{0085}' || c == '\U{00A0}' || c == '\U{1680}'
    || '\U{2000}' <= c <= '\U{200A}' || c == '\U{2028}' || c == '\U{2029}' || c == '\U{202F}'
    || c == '\U{205F}' || c == '\U{3000}'
  }

  function TrimLeft(s: string): string {
    if s != "" && IsSpace(s[0]) then TrimLeft(s[1..]) else s
  }

  function TrimRight(s: string): string {
    if s != "" && IsSpace(s[|s| - 1]) then TrimRight(s[..|s| - 1]) else s
  }

  /** strings.TrimSpace. */
  function Trim(s: string): string { TrimRight(TrimLeft(s)) }

  predicate Trimmed(s: string) {
    s == "" || (!IsSpace(s[0]) && !IsSpace(s[|s| - 1]))
  }

  lemma {:induction false} TrimLeftTrims(s: string)
    ensures var t := TrimLeft(s); t == "" || !IsSpace(t[0])
    ensures exists i | 0 <= i <= |s| :: TrimLeft(s) == s[i..]
  {
    if s != "" && IsSpace(s[0]) {
      TrimLeftTrims(s[1..]);
      var i :| 0 <= i <= |s[1..]| && TrimLeft(s[1..]) == s[1..][i..];
      assert s[1..][i..] == s[i + 1..];
    } else {
      assert s == s[0..];
    }
  }

  lemma {:induction false} TrimRightTrims(s: string)
    ensures var t := TrimRight(s); t <= s && (t == "" || !IsSpace(t[|t| - 1]))
  {
    if s != "" && IsSpace(s[|s| - 1]) {
      TrimRightTrims(s[..|s| - 1]);
    }
  }

  lemma TrimTrims(s: string)
    ensures Trimmed(Trim(s)) && |Trim(s)| <= |s|
  {
    TrimLeftTrims(s);
    TrimRightTrims(TrimLeft(s));
  }

  lemma TrimFixes(s: string)
    requires Trimmed(s)
    ensures Trim(s) == s
  {
  }

  lemma {:induction false} TrimLeftIsSuffix(s: string) returns (i: nat)
    ensures i <= |s| && TrimLeft(s) == s[i..] && forall k | 0 <= k < i :: IsSpace(s[k])
  {
    if s != "" && IsSpace(s[0]) {
      var j := TrimLeftIsSuffix(s[1..]);
      assert s[1..][j..] == s[j + 1..];
      assert forall k | 0 <= k < j :: IsSpace(s[1..][k]);
      return j + 1;
    }
    return 0;
  }

  lemma {:induction false} TrimRightIsPrefix(s: string) returns (j: nat)
    ensures j <= |s| && TrimRight(s) == s[..j] && forall k | j <= k < |s| :: IsSpace(s[k])
  {
    if s != "" && IsSpace(s[|s| - 1]) {
      j := TrimRightIsPrefix(s[..|s| - 1]);
      assert forall k | j <= k < |s| - 1 :: s[..|s| - 1][k] == s[k];
    } else {
      j := |s|;
    }
  }

  /** Trimming cuts whitespace off both ends and nothing else. */
  lemma TrimIsMiddle(s: string) returns (i: nat, j: nat)
    ensures i <= j <= |s| && Trim(s) == s[i..j]
    ensures forall k | 0 <= k < i || j <= k < |s| :: IsSpace(s[k])
  {
    i := TrimLeftIsSuffix(s);
    var n := TrimRightIsPrefix(s[i..]);
    j := i + n;
    forall k | j <= k < |s| ensures IsSpace(s[k]) {
      assert s[i..][k - i] == s[k];
    }
  }

  // -------------------------------------------------------------- letter case

  function LowerChar(c: char): char {
    if 'A' <= c <= 'Z' then (c as int + 32) as char else c
  }

  function Map(f: char -> char, s: string): (t: string)
    ensures |t| == |s| && forall i | 0 <= i < |s| :: t[i] == f(s[i])
  {
    seq(|s|, i requires 0 <= i < |s| => f(s[i]))
  }

  /** strings.ToLower on ASCII text. */
  function Lower(s: string): string { Map(LowerChar, s) }

  predicate Ascii(s: string) { forall i | 0 <= i < |s| :: s[i] < '\U{0080}' }

  /** Lower-casing and trimming commute on ASCII text, under any table that agrees there. */
  lemma TrimMap(f: char -> char, s: string)
    requires Ascii(s) && forall c | c < '\U{0080}' :: f(c) == LowerChar(c)
    ensures Trim(Map(f, s)) == Map(f, Trim(s))
  {
    TrimLeftMap(f, s);
    var i := TrimLeftIsSuffix(s);
    TrimRightMap(f, TrimLeft(s));
  }

  lemma {:induction false} TrimLeftMap(f: char -> char, s: string)
    requires Ascii(s) && forall c | c < '\U{0080}' :: f(c) == LowerChar(c)
    ensures TrimLeft(Map(f, s)) == Map(f, TrimLeft(s))
  {
    if s != "" {
      assert Map(f, s)[1..] == Map(f, s[1..]);
      TrimLeftMap(f, s[1..]);
    }
  }

  lemma {:induction false} TrimRightMap(f: char -> char, s: string)
    requires Ascii(s) && forall c | c < '\U{0080}' :: f(c) == LowerChar(c)
    ensures TrimRight(Map(f, s)) == Map(f, TrimRight(s))
  {
    if s != "" {
      assert Map(f, s)[..|s| - 1] == Map(f, s[..|s| - 1]);
      TrimRightMap(f, s[..|s| - 1]);
    }
  }
}
