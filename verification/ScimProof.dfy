/** The link between a verified email and a proof of it, over every run of SCIM
    operations with verifications landing anywhere in it.
*/
module ScimProof {
  import opened Text
  import opened EmailAddress
  import opened ScimStore
  import opened ScimSafety

  /** A verified email is a proven address or one that a proven address carries to. */
  ghost predicate RowBacked(m: Mail, w: World, x: Id)
    requires x in w.users
  {
    w.users[x].verified ==> exists p <- ProvenOf(w, x) :: Proves(m, p, w.users[x].email)
  }

  predicate Proves(m: Mail, p: string, email: string) { p == email || Carries(m, p, email) }

  ghost predicate VerifiedBacked(m: Mail, w: World) { forall x <- w.users :: RowBacked(m, w, x) }

  // --------------------------------------------------- the addresses of a run

  /** What a request for the raw address stores. */
  ghost predicate Stores(m: Mail, raw: string, stored: string) { m.usable(raw) && m.canon(raw) == stored }

  /** Every address the operation can store is among these. */
  ghost predicate Requests(m: Mail, op: Op, stored: iset<string>) {
    match op
    case PutOp(_, req, _) => m.usable(req.email) ==> m.canon(req.email) in stored
    case PatchOp(_, req, _) =>
      && (req.email.Some? && m.usable(req.email.value) ==> m.canon(req.email.value) in stored)
      && (req.userName.Some? && m.usable(req.userName.value) ==> m.canon(req.userName.value) in stored)
    case _ => true
  }

  /** Every row holds one of these addresses and is verified only for one its owner proved. */
  ghost predicate SelfProven(w: World, addrs: iset<string>) {
    forall x <- w.users :: w.users[x].email in addrs && (w.users[x].verified ==> w.users[x].email in ProvenOf(w, x))
  }

  /** From every such start, every run that stores only these addresses stays backed. */
  ghost predicate AlwaysBacked(m: Mail, addrs: iset<string>, stored: iset<string>) {
    forall w: World, ops: seq<Op> | SelfProven(w, addrs) && (forall op <- ops :: Requests(m, op, stored)) ::
      VerifiedBacked(m, Run(m, w, ops))
  }

  /** Proof carried in two writes is carried in one. */
  ghost predicate Chains(m: Mail, addrs: iset<string>, stored: iset<string>) {
    forall a <- addrs, b <- stored, c <- stored | Carries(m, a, b) && Carries(m, b, c) :: Proves(m, a, c)
  }

  // -------------------------------------------------------- chains are enough

  /** Proven by one of the addresses, directly or by one carry to a stored address. */
  ghost predicate Anchors(m: Mail, addrs: iset<string>, stored: iset<string>, p: string, email: string) {
    p in addrs && (p == email || (email in stored && Carries(m, p, email)))
  }

  ghost predicate RowAnchored(m: Mail, addrs: iset<string>, stored: iset<string>, w: World, x: Id)
    requires x in w.users
  {
    && w.users[x].email in addrs
    && (w.users[x].verified ==> exists p <- ProvenOf(w, x) :: Anchors(m, addrs, stored, p, w.users[x].email))
  }

  ghost predicate Anchored(m: Mail, addrs: iset<string>, stored: iset<string>, w: World) {
    forall x <- w.users :: RowAnchored(m, addrs, stored, w, x)
  }

  lemma PerformAnchored(m: Mail, addrs: iset<string>, stored: iset<string>, w: World, act: Act)
    requires Anchored(m, addrs, stored, w)
    ensures Anchored(m, addrs, stored, Perform(w, act))
  {
    var w' := Perform(w, act);
    forall x <- w'.users
      ensures RowAnchored(m, addrs, stored, w', x)
    {
      assert RowAnchored(m, addrs, stored, w, x);
      PerformAnchorsRow(m, addrs, stored, w, act, x);
    }
  }

  lemma PerformAnchorsRow(m: Mail, addrs: iset<string>, stored: iset<string>, w: World, act: Act, x: Id)
    requires x in w.users && RowAnchored(m, addrs, stored, w, x) && x in Perform(w, act).users
    ensures RowAnchored(m, addrs, stored, Perform(w, act), x)
  {
    var w' := Perform(w, act);
    if act == Verify(x) {
      assert w.users[x].email in ProvenOf(w', x) && Anchors(m, addrs, stored, w.users[x].email, w'.users[x].email);
    } else {
      assert ProvenOf(w', x) == ProvenOf(w, x) && w'.users[x] == w.users[x];
    }
  }

  lemma {:induction false} MeanwhileAnchored(m: Mail, addrs: iset<string>, stored: iset<string>, w: World,
      acts: seq<Act>)
    requires Anchored(m, addrs, stored, w)
    ensures Anchored(m, addrs, stored, Meanwhile(w, acts))
    decreases |acts|
  {
    if acts != [] {
      PerformAnchored(m, addrs, stored, w, acts[0]);
      MeanwhileAnchored(m, addrs, stored, Perform(w, acts[0]), acts[1..]);
    }
  }

  lemma SameRowsAnchored(m: Mail, addrs: iset<string>, stored: iset<string>, w: World, w': World)
    requires Anchored(m, addrs, stored, w) && w'.users.Keys <= w.users.Keys && w'.proven == w.proven
    requires forall x <- w'.users :: w'.users[x] == w.users[x]
    ensures Anchored(m, addrs, stored, w')
  {
  }

  lemma {:induction false} KillsAnchored(m: Mail, addrs: iset<string>, stored: iset<string>, w: World,
      kills: seq<Kill>, beats: seq<Beat>)
    requires Anchored(m, addrs, stored, w)
    ensures Anchored(m, addrs, stored, RunKills(w, kills, beats).0)
    decreases |kills|
  {
    if kills != [] {
      var w1 := Meanwhile(w, BeatAt(beats, 0).acts);
      MeanwhileAnchored(m, addrs, stored, w, BeatAt(beats, 0).acts);
      SameRowsAnchored(m, addrs, stored, w1, Slain(w1, kills[0]));
      if BeatAt(beats, 0).fault.Fine? {
        KillsAnchored(m, addrs, stored, Slain(w1, kills[0]), kills[1..], Rest(beats));
      }
    }
  }

  /** The unverify rule: an email that changes keeps its flag only if the old one carries to it. */
  ghost predicate WritesSafely(m: Mail, stored: iset<string>, email: string, f: Fields) {
    f.email.Some? ==> f.email.value in stored && (f.unverify || Carries(m, email, f.email.value))
  }

  lemma UpdateAnchored(m: Mail, addrs: iset<string>, stored: iset<string>, w: World, id: Id, f: Fields, fault: Fault)
    requires Chains(m, addrs, stored) && stored <= addrs && Anchored(m, addrs, stored, w)
    requires id in w.users ==> WritesSafely(m, stored, w.users[id].email, f)
    ensures Anchored(m, addrs, stored, UpdateRow(w, id, f, fault).0)
  {
    var w' := UpdateRow(w, id, f, fault).0;
    forall x <- w'.users
      ensures RowAnchored(m, addrs, stored, w', x)
    {
      assert RowAnchored(m, addrs, stored, w, x);
      if x == id && w'.users[x].verified && w' != w && f.email.Some? {
        var b, c := w.users[x].email, f.email.value;
        var p :| p in ProvenOf(w, x) && Anchors(m, addrs, stored, p, b);
        assert p == b || Carries(m, p, b);
        assert Proves(m, p, c);
        assert p in ProvenOf(w', x) && Anchors(m, addrs, stored, p, w'.users[x].email);
      }
    }
  }

  lemma CommitAnchored(m: Mail, addrs: iset<string>, stored: iset<string>, w: World, id: Id, ch: Change, chance: Chance)
    requires Chains(m, addrs, stored) && stored <= addrs && Anchored(m, addrs, stored, w)
    requires id in w.users && WritesSafely(m, stored, w.users[id].email, ch.fields)
    ensures Anchored(m, addrs, stored, Commit(w, id, ch, chance).0)
  {
    MeanwhileAnchored(m, addrs, stored, w, chance.during);
    MeanwhileFrame(w, chance.during);
    UpdateAnchored(m, addrs, stored, Meanwhile(w, chance.during), id, ch.fields, chance.update);
    var w1 := Write(w, id, ch, chance).0;
    SettleAnchored(m, addrs, stored, w1, id, ch, chance);
  }

  lemma SettleAnchored(m: Mail, addrs: iset<string>, stored: iset<string>, w: World, id: Id, ch: Change, chance: Chance)
    requires Anchored(m, addrs, stored, w)
    ensures Anchored(m, addrs, stored, Settle(w, id, ch, chance).0)
  {
    var w1 := Audited(w, id, ch);
    SameRowsAnchored(m, addrs, stored, w, w1);
    KillsAnchored(m, addrs, stored, w1, KillsOf(w, id, ch), chance.revoke);
    var w2 := RunKills(w1, KillsOf(w, id, ch), chance.revoke).0;
    MeanwhileAnchored(m, addrs, stored, w2, chance.after);
    var w3 := Meanwhile(w2, chance.after);
    if id in w3.users {
      SameRowsAnchored(m, addrs, stored, w3, Emit(w3, id, ch, w3.users[id]));
    }
  }

  lemma DeleteAnchored(m: Mail, addrs: iset<string>, stored: iset<string>, w: World, id: Id, chance: Chance)
    requires Anchored(m, addrs, stored, w)
    ensures Anchored(m, addrs, stored, Delete(w, id, chance).0)
  {
    KillsAnchored(m, addrs, stored, w, Kills(w, id), chance.revoke);
    var w1 := RunKills(w, Kills(w, id), chance.revoke).0;
    MeanwhileAnchored(m, addrs, stored, w1, chance.during);
    var w2 := Meanwhile(w1, chance.during);
    if Load(w, id, chance.load).Done? && RunKills(w, Kills(w, id), chance.revoke).1 {
      SameRowsAnchored(m, addrs, stored, w2, Delete(w, id, chance).0);
    }
  }

  lemma {:induction false} RunAnchored(m: Mail, addrs: iset<string>, stored: iset<string>, w: World, ops: seq<Op>)
    requires Chains(m, addrs, stored) && stored <= addrs && Anchored(m, addrs, stored, w)
    requires forall op <- ops :: Requests(m, op, stored)
    ensures Anchored(m, addrs, stored, Run(m, w, ops))
    decreases |ops|
  {
    if ops != [] {
      var op := ops[0];
      assert Requests(m, op, stored);
      if op.Others? {
        MeanwhileAnchored(m, addrs, stored, w, op.acts);
      } else if op.DeleteOp? {
        DeleteAnchored(m, addrs, stored, w, op.id, op.chance);
      } else if ChangeOf(m, w, op).Some? {
        CommitAnchored(m, addrs, stored, w, op.id, ChangeOf(m, w, op).value, op.chance);
      }
      RunAnchored(m, addrs, stored, Apply(m, w, op).0, ops[1..]);
    }
  }

  lemma ChainsAreEnough(m: Mail, addrs: iset<string>, stored: iset<string>)
    requires Chains(m, addrs, stored) && stored <= addrs
    ensures AlwaysBacked(m, addrs, stored)
  {
    forall w: World, ops: seq<Op> | SelfProven(w, addrs) && (forall op <- ops :: Requests(m, op, stored))
      ensures VerifiedBacked(m, Run(m, w, ops))
    {
      forall x <- w.users ensures RowAnchored(m, addrs, stored, w, x) {
        assert w.users[x].verified ==> Anchors(m, addrs, stored, w.users[x].email, w.users[x].email);
      }
      RunAnchored(m, addrs, stored, w, ops);
      var w' := Run(m, w, ops);
      forall x <- w'.users ensures RowBacked(m, w', x) {
        assert RowAnchored(m, addrs, stored, w', x);
        if w'.users[x].verified {
          var p :| p in ProvenOf(w', x) && Anchors(m, addrs, stored, p, w'.users[x].email);
          assert Proves(m, p, w'.users[x].email);
        }
      }
    }
  }

  // ------------------------------------------------------- chains are needed

  function Sole(email: string, proven: set<string>): World {
    World(map["u" := User(email, true, "", "", "active", false, "", false)], {}, {}, map[], multiset{}, [], [],
      map["u" := proven])
  }

  function Rename(raw: string): Op {
    PutOp("u", PutReq(raw, "", "", "", true), Chance(Fine, [], Fine, [], [], Fine))
  }

  /** A PUT to an address the old one carries to keeps the flag and proves nothing new. */
  lemma RenameKeepsFlag(m: Mail, w: World, raw: string)
    requires "u" in w.users && Addressable(w.users["u"]) && w.users["u"].verified
    requires m.usable(raw) && Carries(m, w.users["u"].email, m.canon(raw))
    ensures var w' := Apply(m, w, Rename(raw)).0;
            && "u" in w'.users && w'.users["u"].email == m.canon(raw) && w'.users["u"].verified
            && Addressable(w'.users["u"]) && w'.proven == w.proven
  {
  }

  /** Two PUTs along a chain that does not close end with an unproven verified address. */
  lemma BrokenChainUnbacks(m: Mail, a: string, rawB: string, rawC: string)
    requires m.usable(rawB) && m.usable(rawC)
    requires Carries(m, a, m.canon(rawB)) && Carries(m, m.canon(rawB), m.canon(rawC)) && !Proves(m, a, m.canon(rawC))
    ensures VerifiedBacked(m, Sole(a, {a}))
    ensures !VerifiedBacked(m, Run(m, Sole(a, {a}), [Rename(rawB), Rename(rawC)]))
  {
    var w := Sole(a, {a});
    assert a in ProvenOf(w, "u") && Proves(m, a, a);
    RenameKeepsFlag(m, w, rawB);
    var w1 := Apply(m, w, Rename(rawB)).0;
    RenameKeepsFlag(m, w1, rawC);
    var w2 := Apply(m, w1, Rename(rawC)).0;
    assert [Rename(rawB), Rename(rawC)][1..] == [Rename(rawC)] && [Rename(rawC)][1..] == [];
    assert Run(m, w1, [Rename(rawC)]) == w2;
    assert Run(m, w, [Rename(rawB), Rename(rawC)]) == w2;
    assert !RowBacked(m, w2, "u");
  }

  /** Over every run, with verifications landing anywhere in it, no account is marked
      verified for an address nothing proven carries to, exactly when proof carried in
      two writes is carried in one, among the addresses held or stored. */
  lemma VerifiedStaysBackedIff(m: Mail, addrs: iset<string>, stored: iset<string>)
    requires stored <= addrs && forall s <- stored :: exists raw :: Stores(m, raw, s)
    ensures AlwaysBacked(m, addrs, stored) <==> Chains(m, addrs, stored)
  {
    if Chains(m, addrs, stored) {
      ChainsAreEnough(m, addrs, stored);
    } else {
      var a, b, c :| a in addrs && b in stored && c in stored && Carries(m, a, b) && Carries(m, b, c)
        && !Proves(m, a, c);
      var rawB :| Stores(m, rawB, b);
      var rawC :| Stores(m, rawC, c);
      BrokenChainUnbacks(m, a, rawB, rawC);
      assert SelfProven(Sole(a, {a}), addrs);
      assert forall op <- [Rename(rawB), Rename(rawC)] :: Requests(m, op, stored);
    }
  }

  // ----------------------------------------------------- the rules in the code

  /** Among ASCII addresses they chain, so every run over them stays backed. */
  lemma AsciiRunsStayBacked(t: Tables, stored: iset<string>)
    requires AsciiTables(t) && forall s <- stored :: Ascii(s)
    ensures AlwaysBacked(MailOf(t), AsciiAddresses(), stored)
  {
    var m := MailOf(t);
    AsciiIsLawful(t);
    forall a <- AsciiAddresses(), b <- stored, c <- stored | Carries(m, a, b) && Carries(m, b, c)
      ensures Proves(m, a, c)
    {
      CarriesIsTransitive(m, AsciiAddresses(), a, b, c);
    }
    ChainsAreEnough(m, AsciiAddresses(), stored);
  }

  /** Beyond ASCII they do not, under any tables that fold two local parts together and
      lower-case them apart: an account verified at Gmail for the first spelled with a dot is
      renamed to the first and then to the second, and stays marked verified. */
  lemma FoldedPairRunIsUnbacked(t: Tables, p: string, q: string)
    requires GmailTables(t) && Untagged(t, p) && Untagged(t, q) && '.' !in p && '.' !in q
    requires p != q && Map(t.orbit, p) == Map(t.orbit, q)
    ensures var m, w := MailOf(t), Sole(Gmail(Dotted(p)), {Gmail(Dotted(p))});
            VerifiedBacked(m, w) && !VerifiedBacked(m, Run(m, w, [Rename(Gmail(p)), Rename(Gmail(q))]))
  {
    FoldedPairBreaksTheChain(t, p, q);
    BrokenChainUnbacks(MailOf(t), Gmail(Dotted(p)), Gmail(p), Gmail(q));
  }

  /** So it is for s.am, sam and the spelling with a long s. */
  lemma LongSRunIsUnbacked(t: Tables)
    requires LongSTables(t)
    ensures var m, a := MailOf(t), Gmail(Dotted(PLAIN));
            VerifiedBacked(m, Sole(a, {a}))
              && !VerifiedBacked(m, Run(m, Sole(a, {a}), [Rename(Gmail(PLAIN)), Rename(Gmail(LONG))]))
  {
    LongSIsFoldedPair(t);
    FoldedPairRunIsUnbacked(t, PLAIN, LONG);
  }
}
