/**
 * The verdicts on signed answers in terms of the CNAMEs followed, at particular zones and in
 * particular worlds, and what a secure verdict does not cover.
 */
module SignedCases {
  import opened Bytes
  import opened Names
  import opened Messages
  import opened Seqs
  import opened Zones
  import opened Lookups
  import opened Rrsigs
  import opened Trust
  import opened Verdicts
  import opened SignedZones
  import opened SignedDenials
  import opened SignedAnswers

  // ------------------------------------------------------------------ the trail

  /** The CNAMEs a lookup follows, in order. */
  function Links(z: Zone, name: DnsName, qtype: nat, steps: nat): seq<Record>
    decreases steps
  {
    var node := FindNode(z, name);
    if steps == 0 || node.None? || Matched(node.value, qtype) != [] then []
    else
      var cname := FirstCname(node.value);
      if cname.None? || !cname.value.rdata.Cname? then []
      else
        [cname.value] +
        if EndsWith(cname.value.rdata.alias, z.origin) then Links(z, cname.value.rdata.alias, qtype, steps - 1) else []
  }

  /** The records it ends with, if it finds any. */
  function Final(z: Zone, name: DnsName, qtype: nat, steps: nat): seq<Record>
    decreases steps
  {
    var node := FindNode(z, name);
    if steps == 0 || node.None? then []
    else if Matched(node.value, qtype) != [] then Matched(node.value, qtype)
    else
      var cname := FirstCname(node.value);
      if cname.None? || !cname.value.rdata.Cname? || !EndsWith(cname.value.rdata.alias, z.origin) then []
      else Final(z, cname.value.rdata.alias, qtype, steps - 1)
  }

  /** The CNAME that a lookup follows within the zone from here, if it does. */
  function NextLink(z: Zone, name: DnsName, qtype: nat, steps: nat): (c: Option<Record>)
    ensures c.Some? ==> c.value.rdata.Cname?
  {
    var node := FindNode(z, name);
    if steps == 0 || node.None? || Matched(node.value, qtype) != [] then None
    else
      var cname := FirstCname(node.value);
      if cname.Some? && cname.value.rdata.Cname? && EndsWith(cname.value.rdata.alias, z.origin) then cname else None
  }

  lemma SplitHere(z: Zone, name: DnsName, qtype: nat, answers: seq<Record>, steps: nat)
    requires NextLink(z, name, qtype, steps).None?
    ensures var found := LookupFrom(z, name, qtype, answers, steps);
      found.Looked? ==> found.answers == answers + (Links(z, name, qtype, steps) + Final(z, name, qtype, steps))
  {
    hide FindNode, HasNamesBelow, Matched, EndsWith;
  }

  lemma SplitNext(z: Zone, name: DnsName, qtype: nat, answers: seq<Record>, steps: nat)
    requires NextLink(z, name, qtype, steps).Some?
    ensures steps > 0 && var c := NextLink(z, name, qtype, steps).value;
      && LookupFrom(z, name, qtype, answers, steps) == LookupFrom(z, c.rdata.alias, qtype, answers + [c], steps - 1)
      && Links(z, name, qtype, steps) == [c] + Links(z, c.rdata.alias, qtype, steps - 1)
      && Final(z, name, qtype, steps) == Final(z, c.rdata.alias, qtype, steps - 1)
  {
    hide FindNode, HasNamesBelow, Matched, EndsWith;
  }

  /** The answer is the CNAMEs followed and then what they end at. */
  lemma {:induction false} LookupSplit(z: Zone, name: DnsName, qtype: nat, answers: seq<Record>, steps: nat)
    ensures var found := LookupFrom(z, name, qtype, answers, steps);
      found.Looked? ==> found.answers == answers + (Links(z, name, qtype, steps) + Final(z, name, qtype, steps))
    decreases steps
  {
    hide NextLink, LookupFrom, Links, Final;
    var next := NextLink(z, name, qtype, steps);
    if next.None? {
      SplitHere(z, name, qtype, answers, steps);
    } else {
      var c := next.value;
      SplitNext(z, name, qtype, answers, steps);
      LookupSplit(z, c.rdata.alias, qtype, answers + [c], steps - 1);
      var links, final := Links(z, c.rdata.alias, qtype, steps - 1), Final(z, c.rdata.alias, qtype, steps - 1);
      assert answers + [c] + (links + final) == answers + ([c] + links + final);
    }
  }

  /** Each link is a CNAME, at an existing name the first one stored there, and is not what was asked for. */
  lemma {:induction false} LinksAre(z: Zone, name: DnsName, qtype: nat, steps: nat)
    requires ZoneOk(z)
    ensures forall r :: r in Links(z, name, qtype, steps) ==>
      && Type(r) == TYPE_CNAME && qtype != TYPE_CNAME && qtype != TYPE_ANY
      && (r.name in z.records ==> FirstCname(z.records[r.name]) == Some(r))
    decreases steps
  {
    hide FindNode, Matched, EndsWith, ZoneOk;
    var node := FindNode(z, name);
    if steps > 0 && node.Some? && Matched(node.value, qtype) == [] {
      var cname := FirstCname(node.value);
      if cname.Some? && cname.value.rdata.Cname? {
        MatchedNone(node.value, qtype);
        NodeNamed(z, name);
        LinksAre(z, cname.value.rdata.alias, qtype, steps - 1);
      }
    }
  }

  /** What a lookup ends with is all there is of those types at one name. */
  lemma {:induction false} FinalWhole(z: Zone, name: DnsName, qtype: nat, steps: nat, r: Record)
    requires ZoneOk(z) && r in Final(z, name, qtype, steps)
    ensures qtype == TYPE_ANY || Type(r) == qtype
    ensures r.name in z.records ==>
      SetOf(Final(z, name, qtype, steps), r.name, Type(r)) == SetOf(z.records[r.name], r.name, Type(r))
    decreases steps
  {
    hide FindNode, Matched, EndsWith, ZoneOk, SetOf;
    var node := FindNode(z, name).value;
    if Matched(node, qtype) != [] {
      NodeNamed(z, name);
      MatchedSet(node, qtype, r);
    } else {
      FinalWhole(z, FirstCname(node).value.rdata.alias, qtype, steps - 1, r);
    }
  }

  lemma MatchedSet(node: seq<Record>, qtype: nat, r: Record)
    requires r in Matched(node, qtype)
    ensures r in node && (qtype == TYPE_ANY || Type(r) == qtype)
    ensures SetOf(Matched(node, qtype), r.name, Type(r)) == SetOf(node, r.name, Type(r))
  {
    var wanted := (x: Record) => qtype == TYPE_ANY || Type(x) == qtype;
    var inSet := (x: Record) => x.name == r.name && Type(x) == Type(r);
    FilterIn(node, wanted);
    FilterTwice(node, wanted, inSet, inSet);
  }

  /** The CNAMEs stored at `o` are one and the same, up to TTLs, as many times as the lookup came by. */
  predicate Follows(z: Zone, links: seq<Record>, o: DnsName)
    requires o in z.records
  {
    var cs := SetOf(z.records[o], o, TYPE_CNAME);
    && |cs| == |SetOf(links, o, TYPE_CNAME)|
    && forall c :: c in cs ==> c.(ttl := 0) == cs[0].(ttl := 0)
  }

  lemma CopiesWhole(a: seq<Record>, cs: seq<Record>, c: Record)
    requires (forall x :: x in a ==> x == c) && c in cs
    ensures multiset(Stripped(a)) == multiset(Stripped(cs)) <==>
      |cs| == |a| && forall x :: x in cs ==> x.(ttl := 0) == cs[0].(ttl := 0)
  {
    var c' := c.(ttl := 0);
    assert |multiset(Stripped(a))| == |a| && |multiset(Stripped(cs))| == |cs|;
    if multiset(Stripped(a)) == multiset(Stripped(cs)) {
      forall i | 0 <= i < |cs| ensures cs[i].(ttl := 0) == c' {
        assert Stripped(cs)[i] in multiset(Stripped(cs));
        assert Stripped(cs)[i] in Stripped(a);
        var j :| 0 <= j < |a| && Stripped(a)[j] == Stripped(cs)[i];
        assert a[j] in a;
      }
    }
    if |cs| == |a| && forall x :: x in cs ==> x.(ttl := 0) == cs[0].(ttl := 0) {
      assert cs[0].(ttl := 0) == c';
      forall i | 0 <= i < |a| ensures Stripped(a)[i] == Stripped(cs)[i] {
        assert a[i] in a && cs[i] in cs;
      }
      assert Stripped(a) == Stripped(cs);
    }
  }

  lemma SetJoin(a: seq<Record>, b: seq<Record>, owner: DnsName, t: nat)
    ensures SetOf(a + b, owner, t) == SetOf(a, owner, t) + SetOf(b, owner, t)
  {
    FilterAppend(a, b, (x: Record) => x.name == owner && Type(x) == t);
  }

  lemma SetNone(rs: seq<Record>, owner: DnsName, t: nat)
    requires forall r :: r in rs ==> Type(r) != t
    ensures SetOf(rs, owner, t) == []
  {
    FilterNone(rs, (x: Record) => x.name == owner && Type(x) == t);
  }

  /** The zone holds no NSEC3 parameters that would be signed along with the program's own. */
  predicate PlainParams(sz: SignedZone) {
    sz.nsec3.Some? ==> SetOf(Node(sz.zone.records, sz.zone.origin), sz.zone.origin, TYPE_NSEC3PARAM) == []
  }

  lemma StoredPlain(sz: SignedZone, r: Record)
    requires ZoneOk(sz.zone) && PlainParams(sz) && r.name in sz.zone.records && r in sz.zone.records[r.name]
    ensures Stored(sz, (r.name, Type(r))) == SetOf(sz.zone.records[r.name], r.name, Type(r))
  {
    hide ZoneOk;
    var z := sz.zone;
    if sz.nsec3.Some? && r.name == z.origin {
      SetNamed(z.records[z.origin], (z.origin, TYPE_NSEC3PARAM));
      SetMore(z.records[z.origin], ParamRecord(z, sz.nsec3.value), z.origin, Type(r));
    }
  }

  /** An answer's set at an existing name is whole, unless it is a CNAME followed that does not stand for all stored ones. */
  lemma WholeExact(sz: SignedZone, qname: DnsName, qtype: nat, r: Record)
    requires ZoneOk(sz.zone) && PlainParams(sz) && Lookup(sz.zone, qname, qtype).Looked?
    requires r in Lookup(sz.zone, qname, qtype).answers && r.name in sz.zone.records
    ensures var links := Links(sz.zone, qname, qtype, MAX_CNAME_STEPS);
      Whole(sz, Lookup(sz.zone, qname, qtype).answers, r) <==> (r in links ==> Follows(sz.zone, links, r.name))
  {
    hide Links, Final, LookupFrom, SetOf, Stripped, ZoneOk, Stored, PlainParams;
    var z := sz.zone;
    LookupFaithful(z, qname, qtype, [], MAX_CNAME_STEPS);
    StoredPlain(sz, r);
    var links, final := Links(z, qname, qtype, MAX_CNAME_STEPS), Final(z, qname, qtype, MAX_CNAME_STEPS);
    LookupSplit(z, qname, qtype, [], MAX_CNAME_STEPS);
    assert [] + (links + final) == links + final;
    SetJoin(links, final, r.name, Type(r));
    LinksAre(z, qname, qtype, MAX_CNAME_STEPS);
    forall x | x in final ensures qtype == TYPE_ANY || Type(x) == qtype {
      FinalWhole(z, qname, qtype, MAX_CNAME_STEPS, x);
    }
    if r in links {
      SetNone(final, r.name, TYPE_CNAME);
      SetNamed(links, (r.name, TYPE_CNAME));
      SetNamed(z.records[r.name], (r.name, TYPE_CNAME));
      CopiesWhole(SetOf(links, r.name, TYPE_CNAME), SetOf(z.records[r.name], r.name, TYPE_CNAME), r);
      assert SetOf(links, r.name, TYPE_CNAME) + [] == SetOf(links, r.name, TYPE_CNAME);
    } else {
      FinalWhole(z, qname, qtype, MAX_CNAME_STEPS, r);
      SetNone(links, r.name, Type(r));
      assert [] + SetOf(final, r.name, Type(r)) == SetOf(final, r.name, Type(r));
    }
  }

  /**
   * So the verdict on an answer can be read off the zone: bogus exactly when a CNAME followed
   * at an existing name is not the only one there, visited once (or its copies as often as there are),
   * else secure exactly when any name shown exists.
   */
  lemma TrailVerdict(sz: SignedZone, qname: DnsName, qtype: nat)
    requires ZoneOk(sz.zone) && PlainParams(sz) && Lookup(sz.zone, qname, qtype).Looked?
    ensures var z, answers := sz.zone, Lookup(sz.zone, qname, qtype).answers;
      var links := Links(z, qname, qtype, MAX_CNAME_STEPS);
      AnswerJudged(sz, answers) ==
      if exists r :: r in links && r.name in z.records && !Follows(z, links, r.name) then Bogus
      else if exists r :: r in answers && r.name in z.records then Secure
      else Insecure
  {
    hide Links, LookupFrom, Whole, ZoneOk, Follows, PlainParams, Groups;
    GroupNames(sz);
    var answers, links := Lookup(sz.zone, qname, qtype).answers, Links(sz.zone, qname, qtype, MAX_CNAME_STEPS);
    forall r | r in answers && r.name in sz.zone.records
      ensures Whole(sz, answers, r) <==> (r in links ==> Follows(sz.zone, links, r.name))
    {
      WholeExact(sz, qname, qtype, r);
    }
    LookupSplit(sz.zone, qname, qtype, [], MAX_CNAME_STEPS);
    assert forall r :: r in links ==> r in answers;
  }

  lemma GroupNames(sz: SignedZone)
    requires ZoneOk(sz.zone)
    ensures forall o :: o in Groups(sz) <==> o in sz.zone.records
  {
  }

  // ------------------------------------------------------------ particular zones

  const SUB: DnsName := [[98], [97]]
  const WILD: DnsName := [STAR, [97]]

  function Alias(owner: DnsName, target: DnsName): Record { Record(owner, CLASS_IN, 0, Cname(target)) }

  lemma CaseNames()
    ensures ValidName(APEX) && ValidName(SUB) && ValidName(WILD)
    ensures EndsWith(SUB, APEX) && EndsWith(WILD, APEX) && EndsWith(APEX, APEX) && EndsWith(SUB, SUB)
    ensures WildcardAt(SUB, 1) == Some(WILD)
  {
    assert SUB[1..] == APEX && WILD[1..] == APEX && APEX[1..] == [];
    assert [STAR] + SUB[1..] == WILD;
  }

  lemma CaseFit(owner: DnsName, node: seq<Record>)
    requires owner == SUB || owner == WILD
    requires node != [] && forall r :: r in node ==> r.name == owner && r.ttl == 0 && Type(r) == TYPE_CNAME
    ensures Fit(Pair(owner, node))
  {
    hide EndsWith, ValidName;
    CaseNames();
    PairOk(owner, node);
  }

  /** Following one CNAME to the apex finds the SOA. */
  lemma ToApex(z: Zone, name: DnsName, c: Record)
    requires z.origin == APEX && APEX in z.records && z.records[APEX] == [TinySoa(7, 0)]
    requires FindNode(z, name).Some? && FirstCname(FindNode(z, name).value) == Some(c) && c.rdata == Cname(APEX)
    requires forall r :: r in FindNode(z, name).value ==> Type(r) == TYPE_CNAME
    ensures Lookup(z, name, TYPE_SOA) == Looked(RCODE_NOERROR, [c, TinySoa(7, 0)], false, None)
  {
    hide EndsWith, FindNode, HasNamesBelow;
    CaseNames();
    var soa := TinySoa(7, 0);
    FilterNone(FindNode(z, name).value, (r: Record) => TYPE_SOA == TYPE_ANY || Type(r) == TYPE_SOA);
    assert FindNode(z, APEX) == Some([soa]) by { AtApex(z); }
    FilterAll([soa], (r: Record) => TYPE_SOA == TYPE_ANY || Type(r) == TYPE_SOA);
    assert LookupFrom(z, APEX, TYPE_SOA, [c], 7) == Looked(RCODE_NOERROR, [c] + [soa], false, None);
    assert [] + [c] == [c] && [c] + [soa] == [c, soa];
  }

  lemma AtApex(z: Zone)
    requires APEX in z.records
    ensures FindNode(z, APEX) == Some(z.records[APEX])
  {
  }

  /** A wildcard CNAME to the apex: the answer is unsigned at the name asked for, signed at its end, and secure. */
  lemma WildcardAliasSecure(e: Env, ring: Keyring, names: seq<DnsName>, msg: Message)
    requires Honest(e, ring, APEX)
    requires var sz := SignedZone(Pair(WILD, [Alias(WILD, APEX)]), ring, None);
      Responds(e.hash, sz, names, msg) && msg.questions[0].qname == SUB && msg.questions[0].qtype == TYPE_SOA
    ensures Validate(e, msg) == Secure
  {
    hide Honest, Validate, Responds, ValidName, EndsWith, Fit, AnswerJudged, Lookup;
    var z := Pair(WILD, [Alias(WILD, APEX)]);
    var sz := SignedZone(z, ring, None);
    CaseFit(WILD, [Alias(WILD, APEX)]);
    WildcardJudged(ring);
    LookupVerdict(e, sz, names, msg);
  }

  lemma WildcardFound()
    ensures FindNode(Pair(WILD, [Alias(WILD, APEX)]), SUB) == Some([Alias(SUB, APEX)])
  {
    var z := Pair(WILD, [Alias(WILD, APEX)]);
    CaseNames();
    assert SUB != APEX && SUB != WILD && SUB !in z.records;
    assert Renamed([Alias(WILD, APEX)], SUB) == [Alias(SUB, APEX)];
  }

  lemma WildcardJudged(ring: Keyring)
    ensures var sz := SignedZone(Pair(WILD, [Alias(WILD, APEX)]), ring, None);
      var found := Lookup(sz.zone, SUB, TYPE_SOA);
      found.Looked? && found.answers != [] && Unsigned(found.answers) && AnswerJudged(sz, found.answers) == Secure
  {
    hide EndsWith, LookupFrom, Links, Final, Follows, AnswerJudged, FindNode;
    var z := Pair(WILD, [Alias(WILD, APEX)]);
    CaseNames();
    PairOk(WILD, [Alias(WILD, APEX)]);
    WildcardFound();
    var c, soa := Alias(SUB, APEX), TinySoa(7, 0);
    ToApex(z, SUB, c);
    TrailVerdict(SignedZone(z, ring, None), SUB, TYPE_SOA);
    LinksAre(z, SUB, TYPE_SOA, MAX_CNAME_STEPS);
    LookupSplit(z, SUB, TYPE_SOA, [], MAX_CNAME_STEPS);
    assert forall r :: r in Links(z, SUB, TYPE_SOA, MAX_CNAME_STEPS) ==> r in [c, soa];
    assert soa in [c, soa];
  }

  /** Two CNAMEs at one name: the server shows the first but signed both, and its own answer is bogus. */
  lemma TwoAliasesBogus(e: Env, ring: Keyring, names: seq<DnsName>, msg: Message)
    requires Honest(e, ring, APEX) && Strict(e, ring, APEX)
    requires var sz := SignedZone(Pair(SUB, [Alias(SUB, APEX), Alias(SUB, SUB)]), ring, None);
      Responds(e.hash, sz, names, msg) && msg.questions[0].qname == SUB && msg.questions[0].qtype == TYPE_SOA
    ensures Validate(e, msg) == Bogus
  {
    hide Honest, Strict, Validate, Responds, ValidName, EndsWith, Fit, AnswerJudged, Lookup, Encodable;
    var node := [Alias(SUB, APEX), Alias(SUB, SUB)];
    var sz := SignedZone(Pair(SUB, node), ring, None);
    CaseFit(SUB, node);
    PairEncodable(ring, node);
    TwoJudged(ring);
    LookupVerdict(e, sz, names, msg);
  }

  lemma TwoJudged(ring: Keyring)
    ensures var sz := SignedZone(Pair(SUB, [Alias(SUB, APEX), Alias(SUB, SUB)]), ring, None);
      var found := Lookup(sz.zone, SUB, TYPE_SOA);
      found.Looked? && found.answers != [] && Unsigned(found.answers) && AnswerJudged(sz, found.answers) == Bogus
  {
    hide EndsWith, LookupFrom, Links, Follows, AnswerJudged;
    var node := [Alias(SUB, APEX), Alias(SUB, SUB)];
    CaseNames();
    PairOk(SUB, node);
    ToApex(Pair(SUB, node), SUB, Alias(SUB, APEX));
    TwoUnfollowed();
    TrailVerdict(SignedZone(Pair(SUB, node), ring, None), SUB, TYPE_SOA);
  }

  lemma TwoUnfollowed()
    ensures var z := Pair(SUB, [Alias(SUB, APEX), Alias(SUB, SUB)]);
      var links := Links(z, SUB, TYPE_SOA, MAX_CNAME_STEPS);
      Alias(SUB, APEX) in links && SUB in z.records && !Follows(z, links, SUB)
  {
    hide EndsWith;
    var node := [Alias(SUB, APEX), Alias(SUB, SUB)];
    var z := Pair(SUB, node);
    CaseNames();
    FilterNone(node, (r: Record) => TYPE_SOA == TYPE_ANY || Type(r) == TYPE_SOA);
    SetNamed(node, (SUB, TYPE_CNAME));
    assert node[0] in node && node[1] in node;
    assert node[0].(ttl := 0) != node[1].(ttl := 0);
  }

  lemma PairEncodable(ring: Keyring, node: seq<Record>)
    requires forall r :: r in node ==>
      r.name == SUB && r.class_ == CLASS_IN && r.ttl == 0 && (r.rdata == Cname(APEX) || r.rdata == Cname(SUB))
    ensures Encodable(SignedZone(Pair(SUB, node), ring, None))
  {
    hide ValidName;
    CaseNames();
  }

  /** A CNAME to itself: it is shown eight times and signed once, and the answer is bogus. */
  lemma LoopBogus(e: Env, ring: Keyring, names: seq<DnsName>, msg: Message)
    requires Honest(e, ring, APEX) && Strict(e, ring, APEX)
    requires var sz := SignedZone(Pair(SUB, [Alias(SUB, SUB)]), ring, None);
      Responds(e.hash, sz, names, msg) && msg.questions[0].qname == SUB && msg.questions[0].qtype == TYPE_SOA
    ensures Validate(e, msg) == Bogus
  {
    hide Honest, Strict, Validate, Responds, ValidName, EndsWith, Fit, AnswerJudged, Lookup, Encodable;
    var sz := SignedZone(Pair(SUB, [Alias(SUB, SUB)]), ring, None);
    CaseFit(SUB, [Alias(SUB, SUB)]);
    PairEncodable(ring, [Alias(SUB, SUB)]);
    LoopJudged(ring);
    LookupVerdict(e, sz, names, msg);
  }

  lemma LoopJudged(ring: Keyring)
    ensures var sz := SignedZone(Pair(SUB, [Alias(SUB, SUB)]), ring, None);
      var found := Lookup(sz.zone, SUB, TYPE_SOA);
      found.Looked? && found.answers != [] && Unsigned(found.answers) && AnswerJudged(sz, found.answers) == Bogus
  {
    hide EndsWith, LookupFrom, Links, Follows, AnswerJudged;
    CaseNames();
    PairOk(SUB, [Alias(SUB, SUB)]);
    Loops([], MAX_CNAME_STEPS);
    LoopUnfollowed();
    TrailVerdict(SignedZone(Pair(SUB, [Alias(SUB, SUB)]), ring, None), SUB, TYPE_SOA);
  }

  lemma {:induction false} Loops(answers: seq<Record>, steps: nat)
    ensures var z, c := Pair(SUB, [Alias(SUB, SUB)]), Alias(SUB, SUB);
      && LookupFrom(z, SUB, TYPE_SOA, answers, steps) ==
         Looked(RCODE_SERVFAIL, answers + seq(steps, _ => c), false, None)
      && Links(z, SUB, TYPE_SOA, steps) == seq(steps, _ => c)
    decreases steps
  {
    hide EndsWith;
    var z, c := Pair(SUB, [Alias(SUB, SUB)]), Alias(SUB, SUB);
    CaseNames();
    FilterNone([c], (r: Record) => TYPE_SOA == TYPE_ANY || Type(r) == TYPE_SOA);
    if steps > 0 {
      Loops(answers + [c], steps - 1);
      assert [c] + seq(steps - 1, _ => c) == seq(steps, _ => c);
      assert answers + [c] + seq(steps - 1, _ => c) == answers + seq(steps, _ => c);
    }
  }

  lemma LoopUnfollowed()
    ensures var z, links := Pair(SUB, [Alias(SUB, SUB)]), seq(MAX_CNAME_STEPS, _ => Alias(SUB, SUB));
      SUB in z.records && links[0] in links && !Follows(z, links, SUB)
  {
    var links := seq(MAX_CNAME_STEPS, _ => Alias(SUB, SUB));
    SetAll(links, SUB, TYPE_CNAME);
    SetAll([Alias(SUB, SUB)], SUB, TYPE_CNAME);
  }

  // -------------------------------------------------- what secure does not cover

  /**
   * The verdict is about signed rrsets only: one more record, of an rrset that has no signature, leaves
   * the verdict secure.
   */
  lemma UnsignedUnjudged(e: Env, ring: Keyring, origin: DnsName, rs: seq<Record>, extra: Record, msg: Message)
    requires Honest(e, ring, origin) && SignedSection(ring, rs) && exists s :: s in rs && Type(s) == TYPE_RRSIG
    requires Type(extra) != TYPE_RRSIG && SetOf(rs, extra.name, Type(extra)) == []
    requires msg.answers == rs + [extra] && msg.authorities == []
    ensures SigsOver(msg.answers, extra.name, Type(extra)) == [] && Validate(e, msg) == Secure
  {
    hide Honest, SetOf, SigsOver, ParseRrsig, Validate, SomeSet, DenialProven, MadeBy, NearSigners, Stripped;
    var all := rs + [extra];
    forall s | s in all && Type(s) == TYPE_RRSIG
      ensures exists k, rrset :: SignedOver(ring, all, s, k, rrset)
      ensures !(s.rdata.Unknown? && s.name == extra.name && ParseRrsig(s.rdata.data).Some? &&
        ParseRrsig(s.rdata.data).value.typeCovered == Type(extra))
    {
      var k, rrset :| SignedOver(ring, rs, s, k, rrset);
      SigReads(e, ring, origin, s, k, rrset);
      OtherSet(ring, rs, extra, s, k, rrset);
    }
    var sigs := SigsOver(all, extra.name, Type(extra));
    if sigs != [] {
      SigFound(all, extra.name, Type(extra), sigs[0]);
    }
    SectionVerdict(e, ring, origin, all);
    KeysThere(e, ring, origin);
    VerdictExact(e, msg);
  }

  lemma OtherSet(ring: Keyring, rs: seq<Record>, extra: Record, s: Record, k: Signer, rrset: seq<Record>)
    requires SignedOver(ring, rs, s, k, rrset) && SetOf(rs, extra.name, Type(extra)) == []
    ensures SignedOver(ring, rs + [extra], s, k, rrset)
    ensures rrset != [] && !(s.name == extra.name && Type(rrset[0]) == Type(extra))
  {
    hide SignRrset, ValidName;
    var r := Presented(ring, rs, s, k, rrset);
    SetNamed(rs, (extra.name, Type(extra)));
    assert !(r.name == extra.name && Type(r) == Type(extra));
    var inSet := (x: Record) => x.name == rrset[0].name && Type(x) == Type(rrset[0]);
    FilterAppend(rs, [extra], inSet);
    FilterNone([extra], inSet);
    assert Filter(rs, inSet) + [] == Filter(rs, inSet);
  }

  /** Nor need the signer enclose the owner: what a trusted zone's keys sign is secure, whosever name it bears. */
  lemma OutsideSecure(e: Env, ring: Keyring, origin: DnsName, rrset: seq<Record>, msg: Message)
    requires Honest(e, ring, origin) && GoodRrset(rrset) && !EndsWith(rrset[0].name, origin)
    requires msg.answers == rrset + SignAll(ring, ring.keys, rrset) && msg.authorities == []
    ensures Validate(e, msg) == Secure
  {
    hide Honest, SetOf, Validate, SomeSet, SignRrset, NearSigners, Stripped, ValidName, EndsWith;
    var sigs := SignAll(ring, ring.keys, rrset);
    KeysThere(e, ring, origin);
    forall s | s in sigs ensures Type(s) == TYPE_RRSIG && exists k :: MadeBy(ring, s, k, rrset) {
      SignIn(ring, ring.keys, rrset, s);
      var k :| k in ring.keys && s == SigRecord(ring, k, rrset);
      assert MadeBy(ring, s, k, rrset);
    }
    SetBeside(rrset, sigs, rrset[0].name, Type(rrset[0]));
    SetAll(rrset, rrset[0].name, Type(rrset[0]));
    forall s | s in msg.answers && Type(s) == TYPE_RRSIG
      ensures exists k, set_ :: SignedOver(ring, msg.answers, s, k, set_)
    {
      var k :| MadeBy(ring, s, k, rrset);
      assert SignedOver(ring, msg.answers, s, k, rrset);
    }
    assert sigs[0] in sigs && sigs[0] in msg.answers;
    SectionVerdict(e, ring, origin, msg.answers);
    VerdictExact(e, msg);
  }

  // --------------------------------------------------------- an honest, strict world

  /** A signature that is the data itself. */
  function Mark(origin: DnsName): Keyring {
    Keyring([Signer(Key(8, 256, [], origin, 1032), (d: Bytes) => d)], 0, 0)
  }

  function MarkedKeys(origin: DnsName): Message {
    var rrset := [Record(origin, CLASS_IN, 0, Unknown(TYPE_DNSKEY, KEY))];
    Message(0, Flags(true, 0, false, false, false, false, false, false, 0), [],
      rrset + [SigRecord(Mark(origin), Mark(origin).keys[0], rrset)], [], [], None, None, None)
  }

  /** The origin is its own anchor, and only the data itself passes as its signature. */
  function StrictWorld(origin: DnsName): Env {
    Env([Anchor(origin, DS)], (_, _, data, sig) => data == sig, (_, _) => [], (_, _) => [],
      (_: nat, _: DnsName, _: nat) => Some(MarkedKeys(origin)))
  }

  /** So for every origin of at most 20 labels some validator and keys are honest and strict. */
  lemma StrictWorldOk(origin: DnsName)
    requires ValidName(origin) && |origin| <= MAX_DEPTH
    ensures Honest(StrictWorld(origin), Mark(origin), origin) && Strict(StrictWorld(origin), Mark(origin), origin)
  {
    hide PlainKeys, ValidName;
    var e, k := StrictWorld(origin), Mark(origin).keys[0];
    GoodTag();
    assert DnskeyRdata(k.key) == KEY;
    MarkedTrusted(origin);
  }

  lemma MarkedTrusted(origin: DnsName)
    requires ValidName(origin)
    ensures PlainKeys(StrictWorld(origin), origin) == Some([KEY])
  {
    hide OfType, DataOf, VerifyRrsig, MarkedKeys;
    var e, msg := StrictWorld(origin), MarkedKeys(origin);
    assert AnchorFor(e.anchors, origin) == Some(DS);
    MarkedReads(origin);
    MarkedVouched(origin);
    MarkedSigned(origin);
  }

  lemma MarkedReads(origin: DnsName)
    ensures var answers := MarkedKeys(origin).answers;
      && OfType(answers, TYPE_DNSKEY) == answers[..1] && Dnskeys(MarkedKeys(origin)) == [KEY]
      && |answers| == 2 && answers[1].rdata.Unknown? && DataOf(OfType(answers, TYPE_RRSIG)) == [answers[1].rdata.data]
  {
    hide SignRrset;
    var answers := MarkedKeys(origin).answers;
    var first, second := answers[0], answers[1];
    assert answers == [first] + [second];
    FilterAppend([first], [second], (r: Record) => Type(r) == TYPE_DNSKEY);
    FilterAll([first], (r: Record) => Type(r) == TYPE_DNSKEY);
    FilterNone([second], (r: Record) => Type(r) == TYPE_DNSKEY);
    FilterAppend([first], [second], (r: Record) => Type(r) == TYPE_RRSIG);
    FilterNone([first], (r: Record) => Type(r) == TYPE_RRSIG);
    FilterAll([second], (r: Record) => Type(r) == TYPE_RRSIG);
    OneData(first);
    OneData(second);
  }

  lemma MarkedVouched(origin: DnsName)
    ensures Vouched(StrictWorld(origin), origin, [KEY], [DS]) == [KEY]
  {
    hide KeyTag, PlainWire, MarkedKeys;
    var e := StrictWorld(origin);
    GoodTag();
    assert VerifyDs(e, origin, KEY, DS);
    assert DS in [DS] && IsVouched(e, origin, KEY, [DS]);
    FilterAll([KEY], (k: Bytes) => IsVouched(e, origin, k, [DS]));
  }

  lemma MarkedSigned(origin: DnsName)
    requires ValidName(origin)
    ensures var answers := MarkedKeys(origin).answers;
      SignedBy(StrictWorld(origin), answers, OfType(answers, TYPE_DNSKEY), [KEY])
  {
    hide OfType, DataOf, VerifyRrsig, SignRrset, ValidName, KeyTag;
    var e, k := StrictWorld(origin), Mark(origin).keys[0];
    var answers := MarkedKeys(origin).answers;
    MarkedReads(origin);
    GoodTag();
    assert DnskeyRdata(k.key) == KEY;
    var rrset := answers[..1];
    assert rrset == [Record(origin, CLASS_IN, 0, Unknown(TYPE_DNSKEY, KEY))];
    RrsigAgrees(e.check, k.key, k.sign, origin, TYPE_DNSKEY, rrset, 0, 0, rrset);
    assert answers[1].rdata.data in DataOf(OfType(answers, TYPE_RRSIG)) && KEY in [KEY];
  }
}
