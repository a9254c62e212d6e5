/** Client address resolution behind trusted proxies. */
module ClientIp {
  import opened Prelude
  import opened Text

  /** Address parsing and port stripping are the platform's; a network is the addresses it contains. */
  datatype Proxies = Proxies(parse: string -> Option<nat>, host: string -> string, nets: seq<nat -> bool>)

  predicate Contained(nets: seq<nat -> bool>, ip: nat) {
    exists i | 0 <= i < |nets| :: nets[i](ip)
  }

  predicate IpIn(p: Proxies, addr: string) {
    p.parse(addr).Some? && Contained(p.nets, p.parse(addr).value)
  }

  method InNetworks(p: Proxies, addr: string) returns (found: bool)
    ensures found <==> IpIn(p, addr)
  {
    var ip := p.parse(addr);
    if ip.None? {
      return false;
    }
    for i := 0 to |p.nets|
      invariant forall j | 0 <= j < i :: !p.nets[j](ip.value)
    {
      if p.nets[i](ip.value) {
        return true;
      }
    }
    return false;
  }

  /** An entry of the forwarded list that can be the client: not blank, not a trusted proxy. */
  predicate Hop(p: Proxies, part: string) { Trim(part) != "" && !IpIn(p, Trim(part)) }

  predicate HasHop(p: Proxies, parts: seq<string>) { exists i | 0 <= i < |parts| :: Hop(p, parts[i]) }

  /** The right-most hop, or the left-most entry of all when there is none. */
  function Walk(p: Proxies, parts: seq<string>): string
    requires parts != []
  {
    var last := parts[|parts| - 1];
    if Hop(p, last) || |parts| == 1 then Trim(last) else Walk(p, parts[..|parts| - 1])
  }

  function Client(p: Proxies, peerAddr: string, xff: string): string {
    var peer := p.host(peerAddr);
    if !IpIn(p, peer) || xff == "" then peer else Walk(p, Split(xff, ','))
  }

  lemma {:induction false} WalkFinds(p: Proxies, parts: seq<string>, i: nat)
    requires i < |parts| && Hop(p, parts[i]) && forall j | i < j < |parts| :: !Hop(p, parts[j])
    ensures Walk(p, parts) == Trim(parts[i])
    decreases |parts|
  {
    if i < |parts| - 1 {
      WalkFinds(p, parts[..|parts| - 1], i);
    }
  }

  lemma {:induction false} WalkFallsBack(p: Proxies, parts: seq<string>)
    requires parts != [] && !HasHop(p, parts)
    ensures Walk(p, parts) == Trim(parts[0])
    decreases |parts|
  {
    if |parts| > 1 {
      WalkFallsBack(p, parts[..|parts| - 1]);
    }
  }

  /** The right-to-left loop. */
  method ResolveClientIP(p: Proxies, peerAddr: string, xff: string) returns (client: string)
    ensures client == Client(p, peerAddr, xff)
  {
    var peer := p.host(peerAddr);
    var trusted := InNetworks(p, peer);
    if |p.nets| == 0 || !trusted {
      return peer;
    }
    if xff == "" {
      return peer;
    }
    var parts := Split(xff, ',');
    var i := |parts| - 1;
    while i >= 0
      invariant -1 <= i < |parts|
      invariant forall j | i < j < |parts| :: !Hop(p, parts[j])
    {
      var candidate := Trim(parts[i]);
      if candidate != "" {
        var known := InNetworks(p, candidate);
        if !known {
          WalkFinds(p, parts, i);
          return candidate;
        }
      }
      i := i - 1;
    }
    WalkFallsBack(p, parts);
    return Trim(parts[0]);
  }

  /** What is left of a list holding a hop does not matter. */
  lemma {:induction false} WalkIgnoresLeft(p: Proxies, left: seq<string>, parts: seq<string>)
    requires parts != [] && HasHop(p, parts)
    ensures Walk(p, left + parts) == Walk(p, parts)
    decreases |parts|
  {
    var n := |parts| - 1;
    assert (left + parts)[|left| + n] == parts[n];
    if !Hop(p, parts[n]) {
      assert (left + parts)[..|left| + n] == left + parts[..n];
      var i :| 0 <= i < |parts| && Hop(p, parts[i]);
      assert parts[..n][i] == parts[i];
      WalkIgnoresLeft(p, left, parts[..n]);
    }
  }

  /** A list without a hop leaves the choice to what is left of it. */
  lemma {:induction false} WalkYieldsLeft(p: Proxies, left: seq<string>, parts: seq<string>)
    requires left != [] && !HasHop(p, parts)
    ensures Walk(p, left + parts) == Walk(p, left)
    decreases |parts|
  {
    var n := |parts| - 1;
    if parts == [] {
      assert left + parts == left;
    } else {
      assert (left + parts)[|left| + n] == parts[n];
      assert (left + parts)[..|left| + n] == left + parts[..n];
      WalkYieldsLeft(p, left, parts[..n]);
    }
  }

  /** Text a client puts in front of what the proxies appended cannot change the address. */
  lemma ForgedPrefixIsIgnored(p: Proxies, peerAddr: string, forged: string, xff: string)
    requires !IpIn(p, p.host(peerAddr)) || HasHop(p, Split(xff, ','))
    ensures Client(p, peerAddr, forged + [','] + xff) == Client(p, peerAddr, xff)
  {
    SplitConcat(forged, xff, ',');
    if IpIn(p, p.host(peerAddr)) {
      WalkIgnoresLeft(p, Split(forged, ','), Split(xff, ','));
    }
  }

  /** "unknown" is a hop: it is no address, and trimming keeps it. */
  lemma UnknownIsAHop(p: Proxies)
    requires p.parse("unknown").None?
    ensures Trim("unknown") == "unknown" && Hop(p, "unknown") && Split("unknown", ',') == ["unknown"]
  {
    TrimFixes("unknown");
    SplitPlain("unknown", ',');
  }

  /** The address depends only on text the proxies vouch for exactly when the peer is no
      trusted proxy or the list already holds a hop: with every entry trusted or blank, the
      word "unknown" in front becomes the client. */
  lemma PrefixIsIgnoredIff(p: Proxies, peerAddr: string, xff: string)
    requires p.parse("unknown").None?
    ensures (forall forged :: Client(p, peerAddr, forged + [','] + xff) == Client(p, peerAddr, xff))
            <==> !IpIn(p, p.host(peerAddr)) || HasHop(p, Split(xff, ','))
  {
    var parts := Split(xff, ',');
    if !IpIn(p, p.host(peerAddr)) || HasHop(p, parts) {
      forall forged ensures Client(p, peerAddr, forged + [','] + xff) == Client(p, peerAddr, xff) {
        ForgedPrefixIsIgnored(p, peerAddr, forged, xff);
      }
    } else {
      UnknownIsAHop(p);
      SplitConcat("unknown", xff, ',');
      WalkYieldsLeft(p, ["unknown"], parts);
      WalkFallsBack(p, parts);
      assert !Hop(p, parts[0]);
      assert Client(p, peerAddr, "unknown" + [','] + xff) == "unknown" != Client(p, peerAddr, xff);
    }
  }
}
