/** Given and family names stored as one display name and split back on read. */
module DisplayName {
  import opened Text

  function JoinName(given: string, family: string): string {
    Trim(Trim(given) + " " + Trim(family))
  }

  function SplitName(full: string): (string, string) {
    var s := Trim(full);
    var i := LastIndex(s, ' ');
    if i >= 0 then (Trim(s[..i]), Trim(s[i + 1..])) else (s, "")
  }

  lemma OneName(g: string)
    requires Trimmed(g)
    ensures Trim(g + " ") == g && Trim(" " + g) == g
  {
    assert (g + " ")[..|g|] == g;
    assert (" " + g)[1..] == g;
    TrimFixes(g);
    if g == "" {
      assert " "[1..] == "";
    }
  }

  lemma SplitWithoutSpace(s: string)
    requires Trimmed(s) && ' ' !in s
    ensures SplitName(s) == (s, "")
  {
  }

  lemma SplitAtSpace(s: string)
    requires Trimmed(s) && ' ' in s
    ensures |SplitName(s).0| < |s| && |SplitName(s).1| < |s|
  {
    TrimFixes(s);
    LastIndexIs(s, ' ');
    var i := LastIndex(s, ' ');
    assert s[0..] == s;
    TrimTrims(s[..i]);
    TrimTrims(s[i + 1..]);
  }

  /** A display name that is one name only comes back as a given name. */
  lemma SplitOneName(s: string)
    requires Trimmed(s)
    ensures SplitName(s) == (s, "") <==> ' ' !in s
    ensures s != "" ==> SplitName(s) != ("", s)
  {
    if ' ' in s {
      SplitAtSpace(s);
    } else {
      SplitWithoutSpace(s);
    }
  }

  lemma SplitTwoNames(g: string, f: string)
    requires Trimmed(g) && Trimmed(f) && g != "" && f != ""
    ensures SplitName(g + " " + f) == (g, f) <==> ' ' !in f
  {
    var s := g + " " + f;
    TwoNames(g, f);
    if ' ' !in f {
      LastIndexAt(g + " ", f, ' ');
      assert s[..|g|] == g && s[|g| + 1..] == f;
      TrimFixes(g);
      TrimFixes(f);
    } else {
      LastIndexIs(s, ' ');
      var i := LastIndex(s, ' ');
      var k :| 0 <= k < |f| && f[k] == ' ';
      assert s[|g| + 1 + k] == ' ' && i > |g|;
      TrimTrims(s[i + 1..]);
    }
  }

  lemma TwoNames(g: string, f: string)
    requires Trimmed(g) && Trimmed(f) && g != "" && f != ""
    ensures Trim(g + " " + f) == g + " " + f
  {
  }

  lemma TrimmedRoundTrip(g: string, f: string)
    requires Trimmed(g) && Trimmed(f)
    ensures SplitName(Trim(g + " " + f)) == (g, f) <==> if f == "" then ' ' !in g else g != "" && ' ' !in f
  {
    if f == "" {
      assert g + " " + f == g + " ";
      OneName(g);
      SplitOneName(g);
    } else if g == "" {
      assert g + " " + f == " " + f;
      OneName(f);
      SplitOneName(f);
    } else {
      TwoNames(g, f);
      SplitTwoNames(g, f);
    }
  }

  /** Exactly when given and family names survive being stored as one display name. */
  lemma NameRoundTrip(given: string, family: string)
    ensures SplitName(JoinName(given, family)) == (Trim(given), Trim(family))
            <==> if Trim(family) == "" then ' ' !in Trim(given) else Trim(given) != "" && ' ' !in Trim(family)
  {
    TrimTrims(given);
    TrimTrims(family);
    TrimmedRoundTrip(Trim(given), Trim(family));
  }
}
