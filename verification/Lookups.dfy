/** Authoritative lookup in a zone: exact and wildcard nodes, and the bounded CNAME chase. */
module Lookups {
  import opened Bytes
  import opened Names
  import opened Messages
  import opened Seqs
  import opened Zones

  const MAX_CNAME_STEPS: nat := 8

  /** `Stuck` is the chase meeting a CNAME whose rdata is not a name, which aborts the lookup. */
  datatype LookupResult =
    | Looked(rcode: nat, answers: seq<Record>, negative: bool, offsite: Option<DnsName>)
    | Stuck

  function Renamed(rs: seq<Record>, name: DnsName): (r: seq<Record>)
    ensures |r| == |rs| && forall i :: 0 <= i < |rs| ==> r[i] == rs[i].(name := name)
  {
    seq(|rs|, i requires 0 <= i < |rs| => rs[i].(name := name))
  }

  /** The nearest wildcard above `name`, from `skip` labels up. */
  function FindWildcard(z: Zone, name: DnsName, skip: nat): Option<seq<Record>>
    requires |z.origin| <= |name|
    decreases |name| - skip
  {
    if skip > |name| - |z.origin| then None
    else
      var w := WildcardAt(name, skip);
      if w.Some? && w.value in z.records then Some(Renamed(z.records[w.value], name))
      else FindWildcard(z, name, skip + 1)
  }

  function FindNode(z: Zone, name: DnsName): Option<seq<Record>> {
    if name in z.records then Some(z.records[name])
    else if |name| < |z.origin| then None
    else FindWildcard(z, name, 1)
  }

  predicate HasNamesBelow(z: Zone, name: DnsName) {
    exists k :: k in z.records && k != name && EndsWith(k, name)
  }

  function Matched(node: seq<Record>, qtype: nat): seq<Record> {
    Filter(node, (r: Record) => qtype == TYPE_ANY || Type(r) == qtype)
  }

  function FirstCname(node: seq<Record>): (r: Option<Record>)
    ensures r.Some? ==> r.value in node && Type(r.value) == TYPE_CNAME
    ensures r.None? ==> forall x :: x in node ==> Type(x) != TYPE_CNAME
  {
    if node == [] then None
    else if Type(node[0]) == TYPE_CNAME then Some(node[0])
    else FirstCname(node[1..])
  }

  /** The chase from `name`, holding the answers so far, with `steps` left. */
  function LookupFrom(z: Zone, name: DnsName, qtype: nat, answers: seq<Record>, steps: nat): LookupResult
    decreases steps
  {
    if steps == 0 then Looked(RCODE_SERVFAIL, answers, false, None)
    else
      var node := FindNode(z, name);
      if node.None? then
        var rcode := if HasNamesBelow(z, name) || answers != [] then RCODE_NOERROR else RCODE_NXDOMAIN;
        Looked(rcode, answers, true, None)
      else if Matched(node.value, qtype) != [] then
        Looked(RCODE_NOERROR, answers + Matched(node.value, qtype), false, None)
      else
        var cname := FirstCname(node.value);
        if cname.None? then Looked(RCODE_NOERROR, answers, true, None)
        else if !cname.value.rdata.Cname? then Stuck
        else
          var target := cname.value.rdata.alias;
          if EndsWith(target, z.origin) then LookupFrom(z, target, qtype, answers + [cname.value], steps - 1)
          else Looked(RCODE_NOERROR, answers + [cname.value], false, Some(target))
  }

  function Lookup(z: Zone, qname: DnsName, qtype: nat): LookupResult {
    LookupFrom(z, qname, qtype, [], MAX_CNAME_STEPS)
  }

  method RunFindNode(z: Zone, name: DnsName) returns (node: Option<seq<Record>>)
    ensures node == FindNode(z, name)
  {
    if name in z.records {
      return Some(z.records[name]);
    }
    if |name| < |z.origin| {
      return None;
    }
    var maxSkip := |name| - |z.origin|;
    for skip := 1 to maxSkip + 1
      invariant FindWildcard(z, name, skip) == FindWildcard(z, name, 1)
    {
      var w := WildcardAt(name, skip);
      if w.Some? && w.value in z.records {
        return Some(Renamed(z.records[w.value], name));
      }
    }
    node := None;
  }

  method RunLookup(z: Zone, qname: DnsName, qtype: nat) returns (r: LookupResult)
    ensures r == Lookup(z, qname, qtype)
  {
    hide FindNode, HasNamesBelow, Matched;
    var answers: seq<Record> := [];
    var name := qname;
    for step := 0 to MAX_CNAME_STEPS
      invariant LookupFrom(z, name, qtype, answers, MAX_CNAME_STEPS - step) == Lookup(z, qname, qtype)
    {
      var node := RunFindNode(z, name);
      if node.None? {
        var rcode := if HasNamesBelow(z, name) || answers != [] then RCODE_NOERROR else RCODE_NXDOMAIN;
        return Looked(rcode, answers, true, None);
      }
      var matched := Matched(node.value, qtype);
      if matched != [] {
        return Looked(RCODE_NOERROR, answers + matched, false, None);
      }
      var cname := FirstCname(node.value);
      if cname.None? {
        return Looked(RCODE_NOERROR, answers, true, None);
      }
      if !cname.value.rdata.Cname? {
        return Stuck;
      }
      answers := answers + [cname.value];
      var target := cname.value.rdata.alias;
      if !EndsWith(target, z.origin) {
        return Looked(RCODE_NOERROR, answers, false, Some(target));
      }
      name := target;
    }
    r := Looked(RCODE_SERVFAIL, answers, false, None);
  }

  // ------------------------------------------------- what a negative result means

  lemma MatchedNone(node: seq<Record>, qtype: nat)
    requires Matched(node, qtype) == []
    ensures forall r :: r in node ==> qtype != TYPE_ANY && Type(r) != qtype
  {
    FilterIn(node, (r: Record) => qtype == TYPE_ANY || Type(r) == qtype);
  }

  lemma {:induction false} ChaseNotNxdomain(z: Zone, name: DnsName, qtype: nat, answers: seq<Record>, steps: nat)
    requires answers != []
    ensures var r := LookupFrom(z, name, qtype, answers, steps); r.Looked? ==> r.rcode != RCODE_NXDOMAIN
    decreases steps
  {
    hide FindNode, HasNamesBelow, Matched;
    if steps > 0 && FindNode(z, name).Some? {
      var cname := FirstCname(FindNode(z, name).value);
      if cname.Some? && cname.value.rdata.Cname? {
        ChaseNotNxdomain(z, cname.value.rdata.alias, qtype, answers + [cname.value], steps - 1);
      }
    }
  }

  /**
   * A negative result, however long the chase, never names a type held at the queried name, and it
   * is NXDOMAIN only where there is no node, exact or synthesised, and nothing below.
   */
  lemma NegativeMeans(z: Zone, qname: DnsName, qtype: nat)
    requires Lookup(z, qname, qtype).Looked? && Lookup(z, qname, qtype).negative
    ensures qname in z.records ==> forall r :: r in z.records[qname] ==> Type(r) != qtype
    ensures Lookup(z, qname, qtype).rcode == RCODE_NXDOMAIN ==>
      FindNode(z, qname) == None && qname !in z.records && !HasNamesBelow(z, qname)
  {
    hide HasNamesBelow, Matched;
    var node := FindNode(z, qname);
    if node.Some? {
      if Matched(node.value, qtype) == [] {
        MatchedNone(node.value, qtype);
        var cname := FirstCname(node.value);
        if cname.Some? && cname.value.rdata.Cname? {
          ChaseNotNxdomain(z, cname.value.rdata.alias, qtype, [cname.value], MAX_CNAME_STEPS - 1);
          assert [] + [cname.value] == [cname.value];
        }
      }
    }
  }

  // ---------------------------------------------------- when a lookup aborts

  /** The first CNAME at the node has rdata that is not a name. */
  predicate Bare(node: seq<Record>) { FirstCname(node).Some? && !FirstCname(node).value.rdata.Cname? }

  lemma {:induction false} RenamedCname(node: seq<Record>, name: DnsName)
    ensures Bare(Renamed(node, name)) <==> Bare(node)
    decreases |node|
  {
    if node != [] {
      assert Renamed(node, name)[1..] == Renamed(node[1..], name);
      RenamedCname(node[1..], name);
    }
  }

  lemma {:induction false} WildcardHeld(z: Zone, name: DnsName, skip: nat)
    requires |z.origin| <= |name| && FindWildcard(z, name, skip).Some?
    ensures exists o :: o in z.records && FindWildcard(z, name, skip).value == Renamed(z.records[o], name)
    decreases |name| - skip
  {
    if skip <= |name| - |z.origin| {
      var w := WildcardAt(name, skip);
      if !(w.Some? && w.value in z.records) {
        WildcardHeld(z, name, skip + 1);
      }
    }
  }

  /** The owner's first CNAME has no name, and the owner holds nothing of type `qtype`. */
  predicate Aborting(node: seq<Record>, qtype: nat) { Bare(node) && Matched(node, qtype) == [] }

  lemma {:induction false} RenamedMatched(node: seq<Record>, name: DnsName, qtype: nat)
    ensures Matched(Renamed(node, name), qtype) == [] <==> Matched(node, qtype) == []
    decreases |node|
  {
    if node != [] {
      assert Renamed(node, name)[1..] == Renamed(node[1..], name);
      RenamedMatched(node[1..], name, qtype);
    }
  }

  lemma NodeHeld(z: Zone, name: DnsName, qtype: nat)
    requires FindNode(z, name).Some? && Aborting(FindNode(z, name).value, qtype)
    ensures exists o :: o in z.records && Aborting(z.records[o], qtype)
  {
    hide Bare, Matched;
    if name !in z.records {
      WildcardHeld(z, name, 1);
      var o :| o in z.records && FindWildcard(z, name, 1).value == Renamed(z.records[o], name);
      RenamedCname(z.records[o], name);
      RenamedMatched(z.records[o], name, qtype);
    }
  }

  lemma {:induction false} StuckMeans(z: Zone, name: DnsName, qtype: nat, answers: seq<Record>, steps: nat)
    requires LookupFrom(z, name, qtype, answers, steps).Stuck?
    ensures exists o :: o in z.records && Aborting(z.records[o], qtype)
    decreases steps
  {
    hide FindNode, HasNamesBelow, Matched;
    var node := FindNode(z, name).value;
    var cname := FirstCname(node).value;
    if cname.rdata.Cname? {
      StuckMeans(z, cname.rdata.alias, qtype, answers + [cname], steps - 1);
    } else {
      NodeHeld(z, name, qtype);
    }
  }

  lemma BareAborts(z: Zone, o: DnsName, qtype: nat)
    requires o in z.records && Aborting(z.records[o], qtype)
    ensures Lookup(z, o, qtype).Stuck?
  {
    hide Matched;
  }

  /**
   * Some lookup for a type aborts if and only if some owner without that type has a first CNAME whose
   * rdata is not a name.
   */
  lemma AbortsExactly(z: Zone, qtype: nat)
    ensures (exists qname :: Lookup(z, qname, qtype).Stuck?) <==>
      exists o :: o in z.records && Aborting(z.records[o], qtype)
  {
    hide Aborting, LookupFrom;
    if qname :| Lookup(z, qname, qtype).Stuck? {
      StuckMeans(z, qname, qtype, [], MAX_CNAME_STEPS);
    }
    if o :| o in z.records && Aborting(z.records[o], qtype) {
      BareAborts(z, o, qtype);
    }
  }

  /** A dynamic update can bring that about: an added CNAME without rdata is stored as it came. */
  lemma UpdateAborts(z: Zone, name: DnsName, ttl: nat, qtype: nat)
    requires name !in z.records && qtype != TYPE_CNAME && qtype != TYPE_ANY
    ensures var u := Record(name, CLASS_IN, ttl, Unknown(TYPE_CNAME, []));
      Lookup(z.(records := UpdateOne(z.origin, z.records, u)), name, qtype).Stuck?
  {
    hide LookupFrom;
    var u := Record(name, CLASS_IN, ttl, Unknown(TYPE_CNAME, []));
    var z' := z.(records := UpdateOne(z.origin, z.records, u));
    assert z'.records[name] == [u];
    FilterNone([u], (r: Record) => qtype == TYPE_ANY || Type(r) == qtype);
    BareAborts(z', name, qtype);
  }
}
