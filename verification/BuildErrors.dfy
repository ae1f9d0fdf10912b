/** When a document cannot be built for its fields, said of ports, rules and the trunks they map to. */
module BuildErrors {
  import opened Collections
  import opened Model
  import opened SgOrder
  import opened Names
  import opened PortConfig
  import opened Policies
  import opened Compiler
  import opened Assembly
  import opened PortClaims
  import opened Segments

  // ------------------------------------------------------------ a rule's ports

  /** The bounds make a port, or a range of ports. */
  predicate PortsSane(r: SgRule) {
    r.portMin.Some? ==>
      var hi := if r.portMax.Some? then r.portMax.value else r.portMin.value;
      1 <= r.portMin.value <= hi <= 65535
  }

  /** The driver understands the rule's protocol, and pf the rule's family. */
  predicate Understood(r: SgRule) {
    r.protocol.None? || (Known(r.protocol.value) && (r.ipv6 ==> ProtocolMeant(r.protocol.value) == Some(ICMP6)))
  }

  lemma PortsOfBody(r: SgRule)
    requires Kept(r)
    ensures (RuleOf(BodyOf(r)).port.Some? ==> PortOk(RuleOf(BodyOf(r)).port.value)) <==> PortsSane(r)
  {
  }

  lemma TablePortsOk(rules: seq<SgRule>, d: SgDirection)
    ensures RulePortsOk(PortTable(rules, d)) <==> forall i :: 0 <= i < |rules| && Kept(rules[i]) && rules[i].direction == d ==> PortsSane(rules[i])
  {
    hide Kept, BodyOf, PortsSane, PortOk, SortBodies, Bodies, RuleOf, InfraRules;
    var bodies := SortBodies(Bodies(rules, d));
    var port := if d.Ingress? then DHCP_CLIENT_PORT else DHCP_SERVER_PORT;
    var table := PortTable(rules, d);
    InfraPortsOk(port);
    if forall i :: 0 <= i < |rules| && Kept(rules[i]) && rules[i].direction == d ==> PortsSane(rules[i]) {
      forall n | n in table && table[n].port.Some? ensures PortOk(table[n].port.value) {
        TableHolds(port, RuleList(bodies), n);
        if table[n] in RuleList(bodies) {
          var j :| 0 <= j < |bodies| && RuleList(bodies)[j] == table[n];
          SortedBodyIsBody(Bodies(rules, d), bodies[j]);
          BodiesComeFrom(rules, d, bodies[j]);
          var i :| 0 <= i < |rules| && Kept(rules[i]) && rules[i].direction == d && BodyOf(rules[i]) == bodies[j];
          PortsOfBody(rules[i]);
        }
      }
    }
    if RulePortsOk(table) {
      forall i | 0 <= i < |rules| && Kept(rules[i]) && rules[i].direction == d ensures PortsSane(rules[i]) {
        var b := BodyOf(rules[i]);
        BodiesComeFrom(rules, d, b);
        SortedBodyIsBody(Bodies(rules, d), b);
        var j :| 0 <= j < |bodies| && bodies[j] == b;
        assert RuleList(bodies)[j] in RuleList(bodies);
        TableHasAll(port, RuleList(bodies));
        var n :| n in table && table[n] == RuleOf(b);
        PortsOfBody(rules[i]);
      }
    }
  }

  lemma InfraPortsOk(port: int)
    requires port in {67, 68}
    ensures forall n :: n in InfraRules(port) ==> InfraRules(port)[n].port.Some? ==> PortOk(InfraRules(port)[n].port.value)
    ensures 10 in InfraRules(port) && 20 in InfraRules(port)
  {
  }

  /** A secured port's rules have ports that make sense, where they are understood. */
  ghost predicate SaneRules(port: Port, info: SgInfo) {
    forall r :: Governs(port, info, r) && Understood(r) ==> PortsSane(r)
  }

  lemma FilterPortsOk(port: Port, info: SgInfo)
    ensures RulePortsOk(PortFilter(port, info).in_) && RulePortsOk(PortFilter(port, info).out) <==> SaneRules(port, info)
  {
    var rules := PortRules(port, info);
    TablePortsOk(rules, Ingress);
    TablePortsOk(rules, Egress);
    assert PortFilter(port, info).in_ == PortTable(rules, Ingress) && PortFilter(port, info).out == PortTable(rules, Egress);
    hide PortFilter, PortTable, PortRules, RulePortsOk, Kept, Understood, Governs, PortsSane;
    forall r ensures (Kept(r) <==> Understood(r)) && (r in rules <==> Governs(port, info, r)) {
      KeptIsUnderstood(r);
      RulesGovern(port, info, r);
    }
    if SaneRules(port, info) {
      forall i | 0 <= i < |rules| && Kept(rules[i]) ensures PortsSane(rules[i]) {
        assert rules[i] in rules;
      }
    }
  }

  lemma KeptIsUnderstood(r: SgRule)
    ensures Kept(r) <==> Understood(r)
  {
    KeptExactly(r);
  }

  // ------------------------------------------------------------ trunks and segments

  lemma {:induction false} PhysnetsAre(ports: seq<Port>, info: SgInfo, mappings: Mappings, digest: Digest, p: Name)
    ensures var physnets := Drafted(ports, info, mappings, digest).physnets;
            && (p in physnets <==> exists i :: 0 <= i < |ports| && Trunk(ports[i], mappings).Some? && ports[i].physnet == p)
            && (p in physnets ==> p in mappings && physnets[p] == mappings[p])
  {
    if ports != [] {
      PhysnetsAre(ports[..|ports| - 1], info, mappings, digest, p);
      PhysnetsStep(ports, info, mappings, digest);
      TrunkIsMapped(ports[|ports| - 1], mappings);
      SomePortStep(ports, mappings, p);
      hide Drafted, Trunk;
    }
  }

  lemma PhysnetsStep(ports: seq<Port>, info: SgInfo, mappings: Mappings, digest: Digest)
    requires ports != []
    ensures var last, before := ports[|ports| - 1], Drafted(ports[..|ports| - 1], info, mappings, digest).physnets;
            Drafted(ports, info, mappings, digest).physnets ==
            if Trunk(last, mappings).Some? then before[last.physnet := Trunk(last, mappings).value] else before
  {
    hide PortFilter, GroupsUsed, PortRules, IsSecured, MemberOf, MemberName, KeyOf, Trunk;
  }

  lemma TrunkIsMapped(port: Port, mappings: Mappings)
    ensures Trunk(port, mappings).Some? ==> port.physnet in mappings && Trunk(port, mappings).value == mappings[port.physnet]
  {
  }

  lemma SomePortStep(ports: seq<Port>, mappings: Mappings, p: Name)
    requires ports != []
    ensures var rest, last := ports[..|ports| - 1], ports[|ports| - 1];
            (exists i :: 0 <= i < |ports| && Trunk(ports[i], mappings).Some? && ports[i].physnet == p) <==>
              || (Trunk(last, mappings).Some? && last.physnet == p)
              || exists i :: 0 <= i < |rest| && Trunk(rest[i], mappings).Some? && rest[i].physnet == p
  {
    hide Trunk;
    var rest := ports[..|ports| - 1];
    if i :| 0 <= i < |rest| && Trunk(rest[i], mappings).Some? && rest[i].physnet == p {
      assert ports[i] == rest[i];
    }
    if i :| 0 <= i < |ports| && Trunk(ports[i], mappings).Some? && ports[i].physnet == p {
      assert i < |rest| ==> rest[i] == ports[i];
    }
  }

  /** The port's network is reached over a trunk. */
  predicate OverTrunk(port: Port, mappings: Mappings) {
    (port.networkType == "vlan" || port.networkType == "flat") && port.physnet in mappings
  }

  lemma TrunkIs(port: Port, mappings: Mappings)
    ensures Trunk(port, mappings) == if OverTrunk(port, mappings) then Some(mappings[port.physnet]) else None
    ensures SegmentOf(port) == if port.networkType == "vlan" && port.segmentation.Some? then Vlan(port.physnet, port.segmentation.value)
                               else Flat(port.physnet)
  {
  }

  lemma TrunksSane(ports: seq<Port>, info: SgInfo, mappings: Mappings, digest: Digest)
    ensures var c := TreeOf(Drafted(ports, info, mappings, digest), info);
            (forall p :: p in c.physnet ==> 1 <= |c.physnet[p]| <= IFNAME_MAX) <==>
            forall i :: 0 <= i < |ports| && OverTrunk(ports[i], mappings) ==> 1 <= |mappings[ports[i].physnet]| <= 15
  {
    var physnets := Drafted(ports, info, mappings, digest).physnets;
    hide Drafted;
    forall p ensures (p in physnets <==> exists i :: 0 <= i < |ports| && OverTrunk(ports[i], mappings) && ports[i].physnet == p)
             ensures p in physnets ==> p in mappings && physnets[p] == mappings[p]
    {
      PhysnetsAre(ports, info, mappings, digest, p);
      forall i | 0 <= i < |ports| ensures Trunk(ports[i], mappings).Some? <==> OverTrunk(ports[i], mappings) {
        TrunkIs(ports[i], mappings);
      }
    }
    hide Trunk;
    if forall p :: p in physnets ==> 1 <= |physnets[p]| <= IFNAME_MAX {
      forall i | 0 <= i < |ports| && OverTrunk(ports[i], mappings) ensures 1 <= |mappings[ports[i].physnet]| <= 15 {
        assert ports[i].physnet in physnets;
      }
    }
  }

  /** The bridge's segment, if it has one, names a physical network and a vlan that exists. */
  predicate SegmentExists(b: Bridge) {
    b.segment.Some? ==> b.segment.value.physnet != "" && (b.segment.value.Vlan? ==> 1 <= b.segment.value.vid <= 4094)
  }

  predicate PortSegmentExists(port: Port) {
    port.physnet != "" && (port.networkType == "vlan" && port.segmentation.Some? ==> 1 <= port.segmentation.value <= 4094)
  }

  lemma SegmentOfLast(d: Draft, ports: seq<Port>, mappings: Mappings, digest: Digest, i: nat)
    requires Uplinks(ports, mappings, digest, i) && BuiltBridge(d, ports, mappings, digest, BridgeOf(ports[i], digest))
    ensures BridgeOf(ports[i], digest) in d.bridges.at
    ensures SegmentExists(d.bridges.at[BridgeOf(ports[i], digest)]) <==> PortSegmentExists(ports[i])
  {
    hide BridgeOf, Trunk;
    var b := BridgeOf(ports[i], digest);
    if d.bridges.at[b].segment.Some? {
      var j: nat :| j < |ports| && Uplinks(ports, mappings, digest, j) && BridgeOf(ports[j], digest) == b
                     && d.bridges.at[b].segment.value == SegmentOf(ports[j]);
      SameUplink(ports, mappings, digest, i, j);
    }
  }

  lemma LastOfSegment(d: Draft, ports: seq<Port>, mappings: Mappings, digest: Digest, b: Name)
    requires BuiltBridge(d, ports, mappings, digest, b) && b in d.bridges.at && d.bridges.at[b].segment.Some?
    ensures exists i: nat :: i < |ports| && Uplinks(ports, mappings, digest, i) && BridgeOf(ports[i], digest) == b
  {
    hide BridgeOf, Trunk, SegmentOf, Uplinks;
  }

  ghost predicate BridgeSegmentsExist(c: Config) {
    forall b :: b in c.bridge.at ==> SegmentExists(c.bridge.at[b])
  }

  ghost predicate PortSegmentsExist(ports: seq<Port>, mappings: Mappings, digest: Digest) {
    forall i: nat :: i < |ports| && Uplinks(ports, mappings, digest, i) ==> PortSegmentExists(ports[i])
  }

  /** The segments that bridges are on are those of the last ports that have a trunk. */
  lemma SegmentsSane(ports: seq<Port>, info: SgInfo, mappings: Mappings, digest: Digest)
    ensures BridgeSegmentsExist(TreeOf(Drafted(ports, info, mappings, digest), info)) <==> PortSegmentsExist(ports, mappings, digest)
  {
    hide Drafted, BridgeOf, Uplinks, BuiltBridge, PortSegmentExists, SegmentExists;
    var d := Drafted(ports, info, mappings, digest);
    var c := TreeOf(d, info);
    assert c.bridge == d.bridges;
    forall i: nat | i < |ports| && Uplinks(ports, mappings, digest, i)
      ensures BridgeOf(ports[i], digest) in c.bridge.at && (SegmentExists(c.bridge.at[BridgeOf(ports[i], digest)]) <==> PortSegmentExists(ports[i]))
    {
      DraftedBridge(ports, info, mappings, digest, BridgeOf(ports[i], digest));
      SegmentOfLast(d, ports, mappings, digest, i);
    }
    forall b | b in c.bridge.at && !SegmentExists(c.bridge.at[b])
      ensures exists i: nat :: i < |ports| && Uplinks(ports, mappings, digest, i) && BridgeOf(ports[i], digest) == b
    {
      DraftedBridge(ports, info, mappings, digest, b);
      NoSegmentIsFine(c.bridge.at[b]);
      LastOfSegment(d, ports, mappings, digest, b);
    }
  }

  lemma NoSegmentIsFine(b: Bridge)
    ensures b.segment.None? ==> SegmentExists(b)
  {
  }

  // ------------------------------------------------------------------ the error

  /** Every segment can be told the kernel, and every rule that reaches a filter told pf. */
  ghost predicate SanePorts(ports: seq<Port>, info: SgInfo, mappings: Mappings, digest: Digest) {
    && (forall i :: 0 <= i < |ports| && OverTrunk(ports[i], mappings) ==> 1 <= |mappings[ports[i].physnet]| <= 15)
    && PortSegmentsExist(ports, mappings, digest)
    && (forall i: nat :: LastWithFilter(ports, i) ==> SaneRules(ports[i], info))
  }

  ghost predicate FilterSane(f: Filter) {
    RulePortsOk(f.in_) && RulePortsOk(f.out)
  }

  lemma FiltersSane(ports: seq<Port>, info: SgInfo, mappings: Mappings, digest: Digest)
    ensures var filters := Drafted(ports, info, mappings, digest).filters;
            (forall f :: f in filters ==> FilterSane(filters[f])) <==>
            forall i: nat :: LastWithFilter(ports, i) ==> SaneRules(ports[i], info)
  {
    hide Drafted, PortFilter, RulePortsOk, SaneRules, FilterName, IsSecured;
    var filters := Drafted(ports, info, mappings, digest).filters;
    forall i: nat | LastWithFilter(ports, i)
      ensures FilterName(ports[i].id) in filters && (FilterSane(filters[FilterName(ports[i].id)]) <==> SaneRules(ports[i], info))
    {
      FilterOfPort(ports, info, mappings, digest, i);
      FilterPortsOk(ports[i], info);
    }
    hide FilterSane;
    forall f | f in filters ensures exists i: nat :: LastWithFilter(ports, i) && FilterName(ports[i].id) == f {
      var i := PortOfFilter(ports, info, mappings, digest, f);
    }
  }

  lemma FieldsAre(c: Config)
    ensures FieldsOk(c) <==>
              && (forall f :: f in c.filter ==> FilterSane(c.filter[f]))
              && (forall p :: p in c.physnet ==> 1 <= |c.physnet[p]| <= IFNAME_MAX)
              && BridgeSegmentsExist(c)
  {
  }

  /** A build fails for a field exactly when a trunk, a segment or a port range is out of bounds. */
  lemma BadFieldExactly(ports: seq<Port>, info: SgInfo, mappings: Mappings, digest: Digest)
    ensures Built(ports, info, mappings, digest) == Err(BadField) <==> !SanePorts(ports, info, mappings, digest)
  {
    hide Drafted, Uplinks, LastWithFilter, SaneRules, OverTrunk, Resolved, FieldsOk, FilterSane, BridgeSegmentsExist, PortSegmentsExist;
    var c := TreeOf(Drafted(ports, info, mappings, digest), info);
    TrunksSane(ports, info, mappings, digest);
    SegmentsSane(ports, info, mappings, digest);
    FiltersSane(ports, info, mappings, digest);
    FieldsAre(c);
    assert c.filter == Drafted(ports, info, mappings, digest).filters;
    assert FieldsOk(c) <==> SanePorts(ports, info, mappings, digest);
  }

  // ------------------------------------------------------------------- defaults

  lemma {:induction false} AddressTables(ports: seq<Port>, info: SgInfo, mappings: Mappings, digest: Digest, b: Name)
    ensures var at := Drafted(ports, info, mappings, digest).bridges.at; b in at ==> at[b].maxAddresses == 2000
  {
    hide PortFilter, GroupsUsed, PortRules, IsSecured, MemberOf, MemberName, KeyOf;
    if ports != [] {
      AddressTables(ports[..|ports| - 1], info, mappings, digest, b);
    }
  }
}
