/**
 * Whole dynamic updates: exactly which lists of update records leave the store in order. Only what
 * they do to SOA records matters, and that can be read off the list alone.
 */
module UpdateRuns {
  import opened Names
  import opened Messages
  import opened Seqs
  import opened Zones

  function SoaPart(node: seq<Record>): seq<Record> { Filter(node, IsSoa) }

  // ------------------------------------------------ the SOA part of one node

  lemma PartOfFilter(node: seq<Record>, p: Record -> bool)
    ensures SoaPart(Filter(node, p)) == Filter(SoaPart(node), p)
  {
    var both := (r: Record) => p(r) && IsSoa(r);
    FilterTwice(node, p, IsSoa, both);
    FilterTwice(node, IsSoa, p, both);
  }

  lemma {:induction false} PartOfRefresh(node: seq<Record>, u: Record)
    requires IsSoa(u)
    ensures SoaPart(RefreshTtl(node, u)) == RefreshTtl(SoaPart(node), u)
    decreases |node|
  {
    if node != [] {
      PartOfRefresh(node[1..], u);
      var head := if SameRr(node[0], u) then node[0].(ttl := u.ttl) else node[0];
      var tail := if SameRr(node[0], u) then node[1..] else RefreshTtl(node[1..], u);
      FilterAppend([head], tail, IsSoa);
      PartOfOne(head);
      if IsSoa(node[0]) {
        assert SoaPart(node) == [node[0]] + SoaPart(node[1..]);
      } else {
        assert SoaPart(node) == SoaPart(node[1..]);
        assert [] + SoaPart(tail) == SoaPart(tail);
      }
    }
  }

  lemma PartOfOne(r: Record)
    ensures SoaPart([r]) == if IsSoa(r) then [r] else []
  {
    if IsSoa(r) {
      FilterAll([r], IsSoa);
    } else {
      FilterNone([r], IsSoa);
    }
  }

  lemma PartOfAdd(node: seq<Record>, u: Record)
    ensures SoaPart(AddRr(node, u)) == if IsSoa(u) then AddRr(SoaPart(node), u) else SoaPart(node)
  {
    hide Filter;
    FilterIn(node, IsSoa);
    FilterAppend(node, [u], IsSoa);
    PartOfOne(u);
    if IsSoa(u) {
      PartOfRefresh(node, u);
      assert HasRr(node, u) <==> HasRr(SoaPart(node), u);
    } else {
      RefreshTtlSame(node, u);
      assert SoaPart(node) + [] == SoaPart(node);
    }
  }

  /** Two nodes with the same SOA part still have it after the same update record. */
  lemma PartOfUpdated(origin: DnsName, a: seq<Record>, b: seq<Record>, u: Record)
    requires SoaPart(a) == SoaPart(b)
    ensures SoaPart(UpdatedNode(origin, a, u)) == SoaPart(UpdatedNode(origin, b, u))
  {
    hide SoaPart, AddRr;
    PartOfAdd(a, u);
    PartOfAdd(b, u);
    var p, q, k := (r: Record) => Type(r) == TYPE_SOA || Type(r) == TYPE_NS, (r: Record) => Type(r) != Type(u),
      (r: Record) => !SameRr(r, u);
    PartOfFilter(a, p);
    PartOfFilter(b, p);
    PartOfFilter(a, q);
    PartOfFilter(b, q);
    PartOfFilter(a, k);
    PartOfFilter(b, k);
  }

  // ---------------------------------------------------------- the whole store

  /** Everything the store invariant says that is not about SOA records. */
  ghost predicate Shaped(origin: DnsName, m: Store) {
    forall o :: o in m ==> EndsWith(o, origin) && m[o] != [] && forall r :: r in m[o] ==> r.name == o
  }

  /** The apex holds exactly the SOA and no other name holds one. */
  ghost predicate PartsOk(origin: DnsName, soa: Record, m: Store) {
    forall o :: SoaPart(Node(m, o)) == if o == origin then [soa] else []
  }

  lemma StoreOkIs(origin: DnsName, soa: Record, m: Store)
    requires IsSoa(soa) && soa.name == origin
    ensures StoreOk(origin, soa, m) <==> Shaped(origin, m) && PartsOk(origin, soa, m)
  {
    hide EndsWith;
    if StoreOk(origin, soa, m) {
      forall o ensures SoaPart(Node(m, o)) == if o == origin then [soa] else [] {
        if o in m && o != origin {
          assert NodeOk(origin, o, m[o]);
          FilterNone(m[o], IsSoa);
        }
      }
      assert forall o :: o in m ==> NodeOk(origin, o, m[o]);
    } else if Shaped(origin, m) && PartsOk(origin, soa, m) {
      PartsStore(origin, soa, m);
    }
  }

  lemma PartsStore(origin: DnsName, soa: Record, m: Store)
    requires IsSoa(soa) && soa.name == origin && Shaped(origin, m) && PartsOk(origin, soa, m)
    ensures StoreOk(origin, soa, m)
  {
    hide EndsWith;
    assert SoaPart(Node(m, origin)) == [soa];
    forall o | o in m ensures NodeOk(origin, o, m[o]) {
      assert SoaPart(Node(m, o)) == if o == origin then [soa] else [];
      FilterIn(m[o], IsSoa);
    }
  }

  lemma ShapedKept(origin: DnsName, m: Store, u: Record)
    requires Shaped(origin, m) && EndsWith(u.name, origin)
    ensures Shaped(origin, UpdateOne(origin, m, u))
  {
    hide EndsWith, UpdatedNode;
    UpdatedNamed(origin, Node(m, u.name), u);
  }

  lemma UpdatedNamed(origin: DnsName, node: seq<Record>, u: Record)
    requires forall r :: r in node ==> r.name == u.name
    ensures forall r :: r in UpdatedNode(origin, node, u) ==> r.name == u.name
  {
    FilterIn(node, (r: Record) => Type(r) == TYPE_SOA || Type(r) == TYPE_NS);
    FilterIn(node, (r: Record) => Type(r) != Type(u));
    FilterIn(node, (r: Record) => !SameRr(r, u));
    RefreshNamed(node, u);
  }

  lemma {:induction false} RefreshNamed(node: seq<Record>, u: Record)
    requires forall r :: r in node ==> r.name == u.name
    ensures forall r :: r in RefreshTtl(node, u) ==> r.name == u.name
    decreases |node|
  {
    if node != [] {
      assert node[0] in node && forall r :: r in node[1..] ==> r in node;
      RefreshNamed(node[1..], u);
    }
  }

  ghost predicate SameParts(a: Store, b: Store) { forall o :: SoaPart(Node(a, o)) == SoaPart(Node(b, o)) }

  lemma SamePartsKept(origin: DnsName, a: Store, b: Store, u: Record)
    requires SameParts(a, b)
    ensures SameParts(UpdateOne(origin, a, u), UpdateOne(origin, b, u))
  {
    hide UpdatedNode, SoaPart;
    PartOfUpdated(origin, Node(a, u.name), Node(b, u.name), u);
    forall o ensures SoaPart(Node(UpdateOne(origin, a, u), o)) == SoaPart(Node(UpdateOne(origin, b, u), o)) {
      NodeAfter(origin, a, u, o);
      NodeAfter(origin, b, u, o);
    }
  }

  lemma NodeAfter(origin: DnsName, m: Store, u: Record, o: DnsName)
    ensures Node(UpdateOne(origin, m, u), o) == if o == u.name then UpdatedNode(origin, Node(m, o), u) else Node(m, o)
  {
    hide UpdatedNode;
  }

  lemma {:induction false} RunSame(origin: DnsName, a: Store, b: Store, us: seq<Record>)
    requires SameParts(a, b)
    ensures Updates(origin, a, us).0 == Updates(origin, b, us).0
    ensures SameParts(Updates(origin, a, us).1, Updates(origin, b, us).1)
    decreases |us|
  {
    hide SameParts, UpdateOne;
    if us != [] && KnownClass(us[0]) {
      SamePartsKept(origin, a, b, us[0]);
      RunSame(origin, UpdateOne(origin, a, us[0]), UpdateOne(origin, b, us[0]), us[1..]);
    }
  }

  lemma {:induction false} RunShaped(origin: DnsName, m: Store, us: seq<Record>)
    requires Shaped(origin, m) && forall u :: u in us ==> EndsWith(u.name, origin)
    ensures Shaped(origin, Updates(origin, m, us).1)
    decreases |us|
  {
    hide Shaped, UpdateOne, EndsWith;
    if us != [] && KnownClass(us[0]) {
      assert us[0] in us;
      ShapedKept(origin, m, us[0]);
      RunShaped(origin, UpdateOne(origin, m, us[0]), us[1..]);
    }
  }

  // ------------------------------------------------------------- the results

  /** Run on the bare SOA, the updates end with that SOA at the apex and none elsewhere. */
  ghost predicate SoaReturns(origin: DnsName, soa: Record, us: seq<Record>) {
    PartsOk(origin, soa, Updates(origin, map[origin := [soa]], us).1)
  }

  /** A list of updates keeps the store in order if and only if the SOA comes back, whatever else it does. */
  lemma UpdatesExact(origin: DnsName, soa: Record, m: Store, us: seq<Record>)
    requires StoreOk(origin, soa, m) && forall u :: u in us ==> EndsWith(u.name, origin)
    ensures StoreOk(origin, soa, Updates(origin, m, us).1) <==> SoaReturns(origin, soa, us)
  {
    hide StoreOk, EndsWith, Updates, Shaped, SoaPart;
    var bare: Store := map[origin := [soa]];
    StoreSoa(origin, soa, m);
    StoreOkIs(origin, soa, m);
    PartOfOne(soa);
    BareParts(origin, soa);
    assert SameParts(m, bare);
    RunSame(origin, m, bare, us);
    RunShaped(origin, m, us);
    StoreOkIs(origin, soa, Updates(origin, m, us).1);
    PartsAgree(origin, soa, Updates(origin, m, us).1, Updates(origin, bare, us).1);
  }

  lemma BareParts(origin: DnsName, soa: Record)
    requires IsSoa(soa)
    ensures PartsOk(origin, soa, map[origin := [soa]])
  {
    PartOfOne(soa);
  }

  lemma PartsAgree(origin: DnsName, soa: Record, a: Store, b: Store)
    requires SameParts(a, b)
    ensures PartsOk(origin, soa, a) <==> PartsOk(origin, soa, b)
  {
    hide SoaPart;
  }

  /** A dynamic update that succeeds keeps the zone's invariant if and only if the SOA comes back. */
  lemma ApplyUpdateExact(z: Zone, prereqs: seq<Record>, us: seq<Record>)
    requires ZoneOk(z) && ApplyUpdate(z, prereqs, us).0 == RCODE_NOERROR
    ensures ZoneOk(ApplyUpdate(z, prereqs, us).1) <==> SoaReturns(z.origin, z.soa, us)
  {
    hide StoreOk, Updates, SoaReturns, Prereqs, EndsWith, Total;
    UpdatesExact(z.origin, z.soa, z.records, us);
  }

  /** Deleting the SOA and adding it back is such a list, although its first half alone is not. */
  lemma DeleteThenAdd(origin: DnsName, soa: Record)
    requires IsSoa(soa) && soa.name == origin && soa.class_ == CLASS_IN
    ensures SoaReturns(origin, soa, [soa.(class_ := CLASS_NONE), soa])
    ensures !SoaReturns(origin, soa, [soa.(class_ := CLASS_NONE)])
  {
    hide SoaPart;
    var gone := soa.(class_ := CLASS_NONE);
    var bare: Store := map[origin := [soa]];
    FilterNone([soa], (r: Record) => !SameRr(r, gone));
    assert UpdateOne(origin, bare, gone) == map[];
    var empty: Store := map[];
    NoPart(origin);
    assert AddRr([], soa) == [soa];
    assert UpdateOne(origin, empty, soa) == map[origin := [soa]];
    assert [gone, soa][1..] == [soa] && [soa][1..] == [] && [gone][1..] == [];
    assert Updates(origin, empty, [soa]).1 == bare;
    assert Updates(origin, bare, [gone, soa]).1 == bare;
    assert Updates(origin, bare, [gone]).1 == empty;
    assert !PartsOk(origin, soa, empty);
    BareParts(origin, soa);
  }

  lemma NoPart(origin: DnsName)
    ensures SoaPart(Node(map[], origin)) == []
  {
  }
}
