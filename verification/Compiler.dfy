/**
 What a rendered anchor does to a packet, and that it is what the security groups say.

 Address matching is a parameter: `inNet(a, ip)` says whether the address or CIDR a covers
 ip. A packet is seen on the host side of a port's tap: pf's Out is toward the workload.
 */
module PfSemantics {
  import opened Collections
  import opened Model
  import opened Pf

  type Ip = string

  /** `proto` is None for a protocol pf rules cannot name, which `other` then names; `dport` for one
      without ports. */
  datatype Packet = Packet(dir: Direction, v6: bool, proto: Option<Proto>, other: string, src: Ip, dst: Ip, dport: Option<nat>)

  type Matcher = (Addr, Ip) -> bool

  predicate InTable(members: set<Addr>, ip: Ip, inNet: Matcher) {
    exists a :: a in members && inNet(a, ip)
  }

  predicate AddrMatches(a: PfAddr, ip: Ip, tables: map<Name, set<Addr>>, inNet: Matcher) {
    match a
    case AnyAddr => true
    case Net(cidr) => inNet(cidr, ip)
    case NotNet(cidr) => !inNet(cidr, ip)
    case Table(t) => InTable(Lookup(tables, t), ip, inNet)
  }

  predicate PortMatches(p: Option<PortSpec>, dport: Option<nat>) {
    match p
    case None => true
    case Some(Single(n)) => dport.Some? && dport.value == n
    case Some(Range(lo, hi)) => dport.Some? && lo <= dport.value <= hi
  }

  predicate RuleMatches(r: PfRule, p: Packet, tables: map<Name, set<Addr>>, inNet: Matcher) {
    && r.dir == p.dir
    && (r.family.Some? ==> r.family.value == if p.v6 then Inet6 else Inet)
    && (r.proto.Some? ==> p.proto == r.proto)
    && AddrMatches(r.src, p.src, tables, inNet)
    && AddrMatches(r.dst, p.dst, tables, inNet)
    && PortMatches(r.port, p.dport)
  }

  /** Every rule is `quick`: the first match decides; None when no rule matches. */
  function Decide(rules: Ruleset, p: Packet, tables: map<Name, set<Addr>>, inNet: Matcher): Option<bool> {
    if rules == [] then None
    else if RuleMatches(rules[0], p, tables, inNet) then Some(rules[0].pass)
    else Decide(rules[1..], p, tables, inNet)
  }

  lemma {:induction false} DecideConcat(a: Ruleset, b: Ruleset, p: Packet, tables: map<Name, set<Addr>>, inNet: Matcher)
    ensures Decide(a + b, p, tables, inNet) ==
            if Decide(a, p, tables, inNet).Some? then Decide(a, p, tables, inNet) else Decide(b, p, tables, inNet)
  {
    if a == [] {
      assert a + b == b;
    } else {
      assert (a + b)[1..] == a[1..] + b;
      DecideConcat(a[1..], b, p, tables, inNet);
    }
  }

  /** A list of pass rules passes what some rule matches and decides nothing else. */
  lemma {:induction false} DecidePasses(rules: Ruleset, p: Packet, tables: map<Name, set<Addr>>, inNet: Matcher)
    requires forall i :: 0 <= i < |rules| ==> rules[i].pass
    ensures Decide(rules, p, tables, inNet) ==
            if exists i :: 0 <= i < |rules| && RuleMatches(rules[i], p, tables, inNet) then Some(true) else None
  {
    if rules != [] {
      DecidePasses(rules[1..], p, tables, inNet);
      if !RuleMatches(rules[0], p, tables, inNet) {
        if i :| 0 <= i < |rules| && RuleMatches(rules[i], p, tables, inNet) {
          assert rules[1..][i - 1] == rules[i];
        }
        if i :| 0 <= i < |rules[1..]| && RuleMatches(rules[1..][i], p, tables, inNet) {
          assert rules[i + 1] == rules[1..][i];
        }
      }
    }
  }
}

/**
 The reference policy, in the workload's view and in Neutron's terms: said of the fields of
 ports, groups and rules, with no help from what builds a document of them.
 */
module Policies {
  import opened Collections
  import opened Model
  import opened Pf
  import opened PortConfig
  import opened PfSemantics

  /** What travels: toward the workload is ingress. */
  predicate IsIngress(p: Packet) {
    p.dir.Out?
  }

  /** The far end of a packet. */
  function FarEnd(p: Packet): Ip {
    if IsIngress(p) then p.src else p.dst
  }

  // ------------------------------------------------------ in Neutron's own terms

  /** The protocol that a name or number stands for, of those that pf rules can name. */
  function ProtocolMeant(s: string): Option<Proto> {
    if s in ["tcp", "6"] then Some(TCP)
    else if s in ["udp", "17"] then Some(UDP)
    else if s in ["icmp", "1"] then Some(ICMP)
    else if s in ["ipv6-icmp", "icmpv6", "icmp6", "58"] then Some(ICMP6)
    else None
  }

  /** A rule that names a protocol is for that one; without one any packet will do. */
  predicate ProtocolIs(protocol: Option<string>, p: Packet) {
    match protocol
    case None => true
    case Some(s) => if ProtocolMeant(s).Some? then p.proto == ProtocolMeant(s) else p.proto.None? && p.other == s
  }

  predicate PortsAllow(r: SgRule, p: Packet) {
    r.portMin.Some? ==>
      && p.dport.Some?
      && r.portMin.value <= p.dport.value <= (if r.portMax.Some? then r.portMax.value else r.portMin.value)
  }

  /** The far end's addresses, in the field of the rule's direction. */
  function RemotePrefix(r: SgRule): string {
    match r.direction
    case Ingress => r.sourcePrefix
    case Egress => r.destPrefix
  }

  /** A member of the group, of either family, covers the address. */
  ghost predicate IsOfGroup(info: SgInfo, group: string, ip: Ip, inNet: Matcher) {
    group in info.memberIps &&
    exists a :: (a in info.memberIps[group].v4 || a in info.memberIps[group].v6) && inNet(a, ip)
  }

  ghost predicate RemoteAllows(r: SgRule, info: SgInfo, p: Packet, inNet: Matcher) {
    if RemotePrefix(r) != "" then inNet(RemotePrefix(r), FarEnd(p))
    else if r.remoteGroup != "" then IsOfGroup(info, r.remoteGroup, FarEnd(p), inNet)
    else true
  }

  /** One security-group rule admits a packet: its direction, ethertype, protocol, ports and remote. */
  ghost predicate SgAllows(r: SgRule, info: SgInfo, p: Packet, inNet: Matcher) {
    && (r.direction.Ingress? <==> IsIngress(p))
    && (p.v6 <==> r.ipv6)
    && ProtocolIs(r.protocol, p)
    && PortsAllow(r, p)
    && RemoteAllows(r, info, p, inNet)
  }

  // ------------------------------------------------ what pf can express of it

  /** The protocols the driver knows by name. */
  predicate Known(protocol: string) {
    protocol in ["tcp", "udp", "icmp", "ipv6-icmp", "icmpv6", "icmp6"]
  }

  /** An IPv4 member of the group covers the address. */
  ghost predicate IsListed(info: SgInfo, group: string, ip: Ip, inNet: Matcher) {
    group in info.memberIps && exists a :: a in info.memberIps[group].v4 && inNet(a, ip)
  }

  /** The remote as far as tables go: of a group, its IPv4 members. */
  ghost predicate RemoteListed(r: SgRule, info: SgInfo, p: Packet, inNet: Matcher) {
    if RemotePrefix(r) != "" then inNet(RemotePrefix(r), FarEnd(p))
    else if r.remoteGroup != "" then IsListed(info, r.remoteGroup, FarEnd(p), inNet)
    else true
  }

  /** pf can express what the rule says of this packet: the protocol is known by name, its ethertype is
      the rule's, and the packet's far end is among the IPv4 members of its group. */
  ghost predicate Expressed(r: SgRule, info: SgInfo, p: Packet, inNet: Matcher) {
    && (r.protocol.Some? ==> Known(r.protocol.value) && (r.ipv6 <==> ProtocolMeant(r.protocol.value) == Some(ICMP6)))
    && RemoteListed(r, info, p, inNet)
  }

  /** A rule for the other family that admits the packet for want of a protocol, or as ICMPv6. */
  ghost predicate OtherFamily(r: SgRule, info: SgInfo, p: Packet, inNet: Matcher) {
    && r.ipv6 != p.v6
    && (r.direction.Ingress? <==> IsIngress(p))
    && (r.protocol.None? || (p.v6 && p.proto == Some(ICMP6) && Known(r.protocol.value) && ProtocolMeant(r.protocol.value) == Some(ICMP6)))
    && PortsAllow(r, p)
    && RemoteListed(r, info, p, inNet)
  }

  // -------------------------------------------------------------- one port

  /** A rule of a group the port is in. */
  ghost predicate Governs(port: Port, info: SgInfo, r: SgRule) {
    port.id in info.devices && exists g :: g in info.devices[port.id] && g in info.groups && r in info.groups[g]
  }

  ghost predicate SomeSg(port: Port, info: SgInfo, p: Packet, inNet: Matcher) {
    exists r :: Governs(port, info, r) && SgAllows(r, info, p, inNet)
  }

  /** The address a port is locked to: its first IPv4 one, if it has a MAC. */
  ghost predicate LockedTo(port: Port, a: Addr) {
    port.mac != "" && exists i :: 0 <= i < |port.fixedIps| && port.fixedIps[i] == a && ':' !in a
                                  && forall j :: 0 <= j < i ==> ':' in port.fixedIps[j]
  }

  /** DHCP for an IPv4 client, and all ICMPv6. */
  predicate InfraAllows(p: Packet) {
    || (!p.v6 && p.proto == Some(UDP) && p.dport == Some(if IsIngress(p) then 68 else 67))
    || (p.v6 && p.proto == Some(ICMP6))
  }

  /** The broadcast a DHCP client sends before it has an address (section 4.1 of RFC 2131). */
  predicate IsDhcpDiscover(p: Packet, inNet: Matcher) {
    && !IsIngress(p) && !p.v6 && p.proto == Some(UDP) && p.dport == Some(67)
    && inNet("0.0.0.0", p.src) && inNet("255.255.255.255", p.dst)
  }

  /** A locked port may ask for its address. */
  ghost predicate MayDiscover(port: Port, p: Packet, inNet: Matcher) {
    IsDhcpDiscover(p, inNet) && exists a :: LockedTo(port, a)
  }

  /** An IPv4 packet from a locked port carries its address. */
  ghost predicate SourceOk(port: Port, p: Packet, inNet: Matcher) {
    forall a :: LockedTo(port, a) && !IsIngress(p) && !p.v6 ==> inNet(a, p.src)
  }

  /** The policy of a secured port: DHCP discovery, and within the source lock the infrastructure
      rules and the security groups. */
  ghost predicate PolicyAllows(port: Port, info: SgInfo, p: Packet, inNet: Matcher) {
    || MayDiscover(port, p, inNet)
    || (SourceOk(port, p, inNet) && (InfraAllows(p) || SomeSg(port, info, p, inNet)))
  }

  /** Of the policy, only rules that pf cannot express admit the packet. */
  ghost predicate Inexpressible(port: Port, info: SgInfo, p: Packet, inNet: Matcher) {
    && !MayDiscover(port, p, inNet) && !InfraAllows(p)
    && forall r :: Governs(port, info, r) && SgAllows(r, info, p, inNet) ==> !Expressed(r, info, p, inNet)
  }

  /** A rule without a protocol, for the other family, admits the packet. */
  ghost predicate Widened(port: Port, info: SgInfo, p: Packet, inNet: Matcher) {
    && SourceOk(port, p, inNet)
    && exists r :: Governs(port, info, r) && r.protocol.None? && OtherFamily(r, info, p, inNet)
  }

  /** What a secured port lets through: the policy, less what pf cannot express of it, and what rules
      without a protocol admit of the other family. */
  ghost predicate PortPasses(port: Port, info: SgInfo, p: Packet, inNet: Matcher) {
    (PolicyAllows(port, info, p, inNet) && !Inexpressible(port, info, p, inNet)) || Widened(port, info, p, inNet)
  }
}

module Compiler {
  import opened Collections
  import opened Model
  import opened Pf
  import opened SgOrder
  import opened Names
  import opened PortConfig
  import opened PfSemantics
  import opened Policies

  // ------------------------------------------------------- numbered rule tables

  lemma {:induction false} NumberedSlots(rules: seq<Rule>)
    ensures forall n :: n in Numbered(rules) <==> exists i :: 0 <= i < |rules| && n == SlotOf(i)
    ensures forall i :: 0 <= i < |rules| ==> SlotOf(i) in Numbered(rules) && Numbered(rules)[SlotOf(i)] == rules[i]
  {
    if rules != [] {
      NumberedSlots(rules[..|rules| - 1]);
    }
  }

  /** The rules of a direction are numbered 100, 110 and so on, in order. */
  lemma {:induction false} NumberedInOrder(rules: seq<Rule>, n: nat)
    ensures n in Numbered(rules) <==> 100 <= n < 100 + 10 * |rules| && n % 10 == 0
    ensures n in Numbered(rules) ==> Numbered(rules)[n] == rules[(n - 100) / 10]
  {
    if rules != [] {
      NumberedInOrder(rules[..|rules| - 1], n);
    }
  }

  /** SG rule numbers never meet the infra numbers, and come after them. */
  lemma {:induction false} InfraNumbersAreFree(port: int, rules: seq<Rule>)
    ensures forall n :: n in Numbered(rules) ==> n >= 100 && n !in InfraRules(port)
    ensures forall n, m :: n in InfraRules(port) && m in Numbered(rules) ==> n < m
  {
    NumberedSlots(rules);
  }

  /** Whatever matches among the numbered rules is an infra rule or one of the list. */
  lemma TableHolds(port: int, rules: seq<Rule>, n: nat)
    requires n in InfraRules(port) + Numbered(rules)
    ensures var r := (InfraRules(port) + Numbered(rules))[n];
            r == InfraRules(port)[10] || r == InfraRules(port)[20] || r in rules
  {
    NumberedSlots(rules);
    if n in Numbered(rules) {
      var i :| 0 <= i < |rules| && n == SlotOf(i);
      assert rules[i] in rules;
    }
  }

  lemma TableHasAll(port: int, rules: seq<Rule>)
    ensures var t := InfraRules(port) + Numbered(rules);
            && 10 in t && t[10] == InfraRules(port)[10]
            && 20 in t && t[20] == InfraRules(port)[20]
            && forall r :: r in rules ==> exists n :: n in t && t[n] == r
  {
    InfraNumbersAreFree(port, rules);
    NumberedSlots(rules);
    var t := InfraRules(port) + Numbered(rules);
    forall r | r in rules ensures exists n :: n in t && t[n] == r {
      var i :| 0 <= i < |rules| && rules[i] == r;
      assert SlotOf(i) in t && t[SlotOf(i)] == r;
    }
  }

  /** Some numbered rule matches, as rendered in one direction. */
  ghost predicate SomeRuleMatches(d: Direction, rules: map<nat, Rule>, p: Packet, tables: map<Name, set<Addr>>, inNet: Matcher) {
    exists n :: n in rules && RuleMatches(RenderRule(d, rules[n]), p, tables, inNet)
  }

  lemma LinesMatch(d: Direction, rules: map<nat, Rule>, p: Packet, tables: map<Name, set<Addr>>, inNet: Matcher)
    requires forall n :: n in rules ==> rules[n].action.Pass?
    ensures Decide(RuleLines(d, rules), p, tables, inNet) ==
            if SomeRuleMatches(d, rules, p, tables, inNet) then Some(true) else None
  {
    var nums := SortedNums(rules.Keys);
    var lines := RuleLines(d, rules);
    DecidePasses(lines, p, tables, inNet);
    if i :| 0 <= i < |lines| && RuleMatches(lines[i], p, tables, inNet) {
      assert nums[i] in rules;
    }
    if SomeRuleMatches(d, rules, p, tables, inNet) {
      var n :| n in rules && RuleMatches(RenderRule(d, rules[n]), p, tables, inNet);
      assert n in nums;
      var i :| 0 <= i < |nums| && nums[i] == n;
      assert RuleMatches(lines[i], p, tables, inNet);
    }
  }

  // ------------------------------------------------------------- one SG rule

  /** Prefixes are CIDRs: none spells a table reference or the word "any". */
  predicate PlainPrefix(r: SgRule) {
    Prefix(r) != "any" && (Prefix(r) != "" ==> Prefix(r)[0] != '@')
  }

  /** The tables of an anchor hold the members of every group a rule names. */
  predicate GroupsLoaded(r: SgRule, info: SgInfo, tables: map<Name, set<Addr>>) {
    NamesGroup(r) ==> Lookup(tables, TableName(r.remoteGroup)) == GroupIps(info, r.remoteGroup)
  }

  function DirectionOf(r: SgRule): Direction {
    if r.direction.Ingress? then In else Out
  }

  lemma RemoteParses(r: SgRule)
    requires PlainPrefix(r)
    ensures ParseRef(Remote(r)) ==
            if Prefix(r) != "" then CidrRef(Prefix(r))
            else if r.remoteGroup != "" then TableRef(TableName(r.remoteGroup))
            else AnyRef
  {
    var reference := "@" + TableName(r.remoteGroup);
    assert reference[0] == '@' && reference[1..] == TableName(r.remoteGroup);
    assert "any"[0] == 'a';
  }

  /** A kept SG rule, rendered, matches exactly the packets that Neutron's rule admits as far as pf can
      express it, and those of the other family that it admits for want of a protocol, or as ICMPv6. */
  lemma RenderedRuleMeans(r: SgRule, info: SgInfo, p: Packet, tables: map<Name, set<Addr>>, inNet: Matcher)
    requires Kept(r) && PlainPrefix(r) && GroupsLoaded(r, info, tables)
    ensures RuleMatches(RenderRule(DirectionOf(r), RuleOf(BodyOf(r))), p, tables, inNet) <==>
              (SgAllows(r, info, p, inNet) && Expressed(r, info, p, inNet)) || OtherFamily(r, info, p, inNet)
  {
    RenderedIsFlattened(r, info, p, tables, inNet);
    FlattenedMeans(r, info, p, inNet);
  }

  /** A flattened rule's family is its protocol's; without a protocol it has none. */
  predicate ProtocolAllows(protocol: Option<string>, p: Packet) {
    protocol.Some? ==>
      && ProtoOf(protocol.value).Some?
      && p.proto == ProtoOf(protocol.value)
      && (p.v6 <==> ProtoOf(protocol.value) == Some(ICMP6))
  }

  /** What is left of a rule once flattened. */
  ghost predicate FlattenedAllows(r: SgRule, info: SgInfo, p: Packet, inNet: Matcher) {
    && (r.direction.Ingress? <==> IsIngress(p))
    && ProtocolAllows(r.protocol, p)
    && PortsAllow(r, p)
    && RemoteListed(r, info, p, inNet)
  }

  /** The driver's table of protocols is Neutron's, as far as it goes. */
  lemma ProtocolsAreMeant(s: string)
    ensures ProtoOf(s) == if Known(s) then ProtocolMeant(s) else None
  {
  }

  /** A rule is kept when it names no protocol, or one that is known and, for IPv6, is ICMPv6. */
  lemma KeptExactly(r: SgRule)
    ensures Kept(r) <==> r.protocol.None? || (Known(r.protocol.value) && (r.ipv6 ==> ProtocolMeant(r.protocol.value) == Some(ICMP6)))
  {
    if r.protocol.Some? {
      ProtocolsAreMeant(r.protocol.value);
    }
    hide ProtoOf, ProtocolMeant, Known;
  }

  lemma ListedAllowed(r: SgRule, info: SgInfo, p: Packet, inNet: Matcher)
    ensures RemoteListed(r, info, p, inNet) ==> RemoteAllows(r, info, p, inNet)
  {
  }

  lemma FlattenedMeans(r: SgRule, info: SgInfo, p: Packet, inNet: Matcher)
    requires Kept(r)
    ensures FlattenedAllows(r, info, p, inNet) <==> (SgAllows(r, info, p, inNet) && Expressed(r, info, p, inNet)) || OtherFamily(r, info, p, inNet)
  {
    KeptExactly(r);
    if r.protocol.Some? {
      ProtocolsAreMeant(r.protocol.value);
    }
    ListedAllowed(r, info, p, inNet);
    hide ProtoOf, ProtocolMeant, Known, RemoteListed, RemoteAllows, PortsAllow, Kept;
  }

  lemma RenderedIsFlattened(r: SgRule, info: SgInfo, p: Packet, tables: map<Name, set<Addr>>, inNet: Matcher)
    requires Kept(r) && PlainPrefix(r) && GroupsLoaded(r, info, tables)
    ensures RuleMatches(RenderRule(DirectionOf(r), RuleOf(BodyOf(r))), p, tables, inNet) <==> FlattenedAllows(r, info, p, inNet)
  {
    RemoteParses(r);
    var rule := RuleOf(BodyOf(r));
    assert ParseRef("any") == AnyRef;
    var remote := ParseRef(Remote(r));
    assert NamesGroup(r) ==> (InTable(GroupIps(info, r.remoteGroup), FarEnd(p), inNet) <==> IsListed(info, r.remoteGroup, FarEnd(p), inNet));
    assert AddrMatches(PfRef(remote), FarEnd(p), tables, inNet) <==> RemoteListed(r, info, p, inNet);
    assert PortMatches(rule.port, p.dport) <==> PortsAllow(r, p);
  }

  lemma {:induction false} BodiesComeFrom(rules: seq<SgRule>, d: SgDirection, b: Body)
    ensures b in Bodies(rules, d) <==>
              exists i :: 0 <= i < |rules| && Kept(rules[i]) && rules[i].direction == d && BodyOf(rules[i]) == b
  {
    if rules != [] {
      var rest, last := rules[..|rules| - 1], rules[|rules| - 1];
      BodiesComeFrom(rest, d, b);
      if i :| 0 <= i < |rest| && Kept(rest[i]) && rest[i].direction == d && BodyOf(rest[i]) == b {
        assert rules[i] == rest[i];
      }
      if i :| 0 <= i < |rules| && Kept(rules[i]) && rules[i].direction == d && BodyOf(rules[i]) == b {
        if i < |rest| {
          assert rest[i] == rules[i];
        }
      }
    }
  }

  // --------------------------------------------------------- one direction

  /** The numbered table of one direction of a secured port. */
  function PortTable(rules: seq<SgRule>, d: SgDirection): map<nat, Rule> {
    InfraRules(if d.Ingress? then DHCP_CLIENT_PORT else DHCP_SERVER_PORT) + Numbered(RuleList(SortBodies(Bodies(rules, d))))
  }

  function ConfigDirection(d: SgDirection): Direction {
    if d.Ingress? then In else Out
  }

  ghost predicate SomeFlattened(rules: seq<SgRule>, info: SgInfo, p: Packet, inNet: Matcher) {
    exists i :: 0 <= i < |rules| && Kept(rules[i]) && FlattenedAllows(rules[i], info, p, inNet)
  }

  lemma SortedBodyIsBody(bodies: seq<Body>, b: Body)
    requires Naturals(bodies)
    ensures b in SortBodies(bodies) <==> b in bodies
  {
    assert b in SortBodies(bodies) <==> b in multiset(SortBodies(bodies));
    assert b in bodies <==> b in multiset(bodies);
  }

  lemma InfraMeans(d: SgDirection, p: Packet, tables: map<Name, set<Addr>>, inNet: Matcher)
    ensures var infra := InfraRules(if d.Ingress? then DHCP_CLIENT_PORT else DHCP_SERVER_PORT);
            (d.Ingress? <==> IsIngress(p)) && InfraAllows(p) <==>
            RuleMatches(RenderRule(ConfigDirection(d), infra[10]), p, tables, inNet)
            || RuleMatches(RenderRule(ConfigDirection(d), infra[20]), p, tables, inNet)
  {
  }

  /** A direction's table admits what infra or a kept SG rule of that direction, flattened, admits. */
  lemma TableMeans(rules: seq<SgRule>, info: SgInfo, d: SgDirection, p: Packet, tables: map<Name, set<Addr>>, inNet: Matcher)
    requires forall i :: 0 <= i < |rules| && Kept(rules[i]) ==> PlainPrefix(rules[i]) && GroupsLoaded(rules[i], info, tables)
    ensures SomeRuleMatches(ConfigDirection(d), PortTable(rules, d), p, tables, inNet) <==>
              (d.Ingress? <==> IsIngress(p)) && (InfraAllows(p) || SomeFlattened(rules, info, p, inNet))
  {
    var bodies := SortBodies(Bodies(rules, d));
    var port := if d.Ingress? then DHCP_CLIENT_PORT else DHCP_SERVER_PORT;
    var table := PortTable(rules, d);
    InfraMeans(d, p, tables, inNet);
    if SomeRuleMatches(ConfigDirection(d), table, p, tables, inNet) {
      var n :| n in table && RuleMatches(RenderRule(ConfigDirection(d), table[n]), p, tables, inNet);
      TableHolds(port, RuleList(bodies), n);
      if table[n] in RuleList(bodies) {
        var i :| 0 <= i < |bodies| && RuleList(bodies)[i] == table[n];
        assert bodies[i] in bodies;
        MatchingBodyAllows(rules, info, d, bodies[i], p, tables, inNet);
      }
    }
    if (d.Ingress? <==> IsIngress(p)) && (InfraAllows(p) || SomeFlattened(rules, info, p, inNet)) {
      TableHasAll(port, RuleList(bodies));
      if SomeFlattened(rules, info, p, inNet) {
        AllowedHasRule(rules, info, d, p, tables, inNet);
      }
    }
  }

  lemma MatchingBodyAllows(rules: seq<SgRule>, info: SgInfo, d: SgDirection, b: Body, p: Packet, tables: map<Name, set<Addr>>, inNet: Matcher)
    requires forall i :: 0 <= i < |rules| && Kept(rules[i]) ==> PlainPrefix(rules[i]) && GroupsLoaded(rules[i], info, tables)
    requires b in SortBodies(Bodies(rules, d))
    requires RuleMatches(RenderRule(ConfigDirection(d), RuleOf(b)), p, tables, inNet)
    ensures (d.Ingress? <==> IsIngress(p)) && SomeFlattened(rules, info, p, inNet)
  {
    SortedBodyIsBody(Bodies(rules, d), b);
    BodiesComeFrom(rules, d, b);
    var j :| 0 <= j < |rules| && Kept(rules[j]) && rules[j].direction == d && BodyOf(rules[j]) == b;
    RenderedIsFlattened(rules[j], info, p, tables, inNet);
  }

  lemma AllowedHasRule(rules: seq<SgRule>, info: SgInfo, d: SgDirection, p: Packet, tables: map<Name, set<Addr>>, inNet: Matcher)
    requires forall i :: 0 <= i < |rules| && Kept(rules[i]) ==> PlainPrefix(rules[i]) && GroupsLoaded(rules[i], info, tables)
    requires (d.Ingress? <==> IsIngress(p)) && SomeFlattened(rules, info, p, inNet)
    ensures SomeRuleMatches(ConfigDirection(d), PortTable(rules, d), p, tables, inNet)
  {
    var j :| 0 <= j < |rules| && Kept(rules[j]) && FlattenedAllows(rules[j], info, p, inNet);
    var bodies := SortBodies(Bodies(rules, d));
    var b := BodyOf(rules[j]);
    assert rules[j].direction == d;
    BodiesComeFrom(rules, d, b);
    SortedBodyIsBody(Bodies(rules, d), b);
    RenderedIsFlattened(rules[j], info, p, tables, inNet);
    var i :| 0 <= i < |bodies| && bodies[i] == b;
    assert RuleList(bodies)[i] in RuleList(bodies);
    TableHasAll(if d.Ingress? then DHCP_CLIENT_PORT else DHCP_SERVER_PORT, RuleList(bodies));
    var n :| n in PortTable(rules, d) && PortTable(rules, d)[n] == RuleOf(b);
  }

  // ------------------------------------------------------------ whole anchors

  /** An IPv4 packet from the workload carries the bound address. */
  predicate BindOk(bind: Option<Bind>, p: Packet, inNet: Matcher) {
    bind.Some? && !IsIngress(p) && !p.v6 ==> inNet(bind.value.address, p.src)
  }

  lemma {:induction false} FirstV4Is(ips: seq<Addr>, a: Addr)
    ensures FirstV4(ips) == Some(a) <==>
              exists i :: 0 <= i < |ips| && ips[i] == a && ':' !in a && forall j :: 0 <= j < i ==> ':' in ips[j]
  {
    if ips != [] {
      FirstV4Is(ips[1..], a);
      if !IsV4(ips[0]) {
        if i :| 0 <= i < |ips[1..]| && ips[1..][i] == a && ':' !in a && forall j :: 0 <= j < i ==> ':' in ips[1..][j] {
          forall j | 0 <= j < i + 1 ensures ':' in ips[j] {
            assert j > 0 ==> ips[j] == ips[1..][j - 1];
          }
          assert ips[i + 1] == a;
        }
        if i :| 0 <= i < |ips| && ips[i] == a && ':' !in a && forall j :: 0 <= j < i ==> ':' in ips[j] {
          assert ips[1..][i - 1] == a;
          forall j | 0 <= j < i - 1 ensures ':' in ips[1..][j] {
            assert ips[1..][j] == ips[j + 1];
          }
        }
      }
    }
  }

  /** A port is bound to its own MAC and the address it is locked to, and unbound without one. */
  lemma BindExactly(port: Port, mac: Mac, a: Addr)
    ensures PortBind(port) == Some(Bind(mac, a)) <==> mac == port.mac && LockedTo(port, a)
  {
    FirstV4Is(port.fixedIps, a);
  }

  lemma BindMeans(port: Port, p: Packet, inNet: Matcher)
    ensures PortBind(port).Some? <==> exists a :: LockedTo(port, a)
    ensures BindOk(PortBind(port), p, inNet) <==> SourceOk(port, p, inNet)
  {
    hide LockedTo, PortBind;
    forall a ensures LockedTo(port, a) <==> PortBind(port) == Some(Bind(port.mac, a)) {
      BindExactly(port, port.mac, a);
    }
    if PortBind(port).Some? {
      BindExactly(port, PortBind(port).value.mac, PortBind(port).value.address);
    }
  }

  lemma BindDecides(bind: Option<Bind>, p: Packet, tables: map<Name, set<Addr>>, inNet: Matcher)
    ensures Decide(BindLines(bind), p, tables, inNet) ==
            if bind.Some? && IsDhcpDiscover(p, inNet) then Some(true)
            else if !BindOk(bind, p, inNet) then Some(false)
            else None
  {
    if bind.Some? {
      DecideTwo(DHCP_DISCOVER, SourceLock(bind.value), p, tables, inNet);
      assert RuleMatches(DHCP_DISCOVER, p, tables, inNet) <==> IsDhcpDiscover(p, inNet);
      assert RuleMatches(SourceLock(bind.value), p, tables, inNet) <==> !BindOk(bind, p, inNet);
    }
  }

  lemma TailBlocks(p: Packet, tables: map<Name, set<Addr>>, inNet: Matcher)
    ensures Decide([DenyAll(Out), DenyAll(In)], p, tables, inNet) == Some(false)
  {
    DecideTwo(DenyAll(Out), DenyAll(In), p, tables, inNet);
  }

  lemma DecideTwo(a: PfRule, b: PfRule, p: Packet, tables: map<Name, set<Addr>>, inNet: Matcher)
    ensures Decide([a, b], p, tables, inNet) ==
            if RuleMatches(a, p, tables, inNet) then Some(a.pass)
            else if RuleMatches(b, p, tables, inNet) then Some(b.pass)
            else None
  {
    var rules: Ruleset := [a, b];
    assert rules[0] == a && rules[1..] == [b];
    DecideOne(b, p, tables, inNet);
  }

  lemma DecideOne(r: PfRule, p: Packet, tables: map<Name, set<Addr>>, inNet: Matcher)
    ensures Decide([r], p, tables, inNet) == if RuleMatches(r, p, tables, inNet) then Some(r.pass) else None
  {
    var rules: Ruleset := [r];
    assert rules[0] == r && rules[1..] == [];
    assert Decide([], p, tables, inNet) == None;
    assert Decide(rules, p, tables, inNet) == if RuleMatches(rules[0], p, tables,
        inNet) then Some(rules[0].pass) else Decide(rules[1..], p, tables, inNet);
  }

  lemma DecideThree(first: Ruleset, body: Ruleset, tail: Ruleset, p: Packet, tables: map<Name, set<Addr>>, inNet: Matcher)
    ensures Decide(first + body + tail, p, tables, inNet) ==
            if Decide(first, p, tables, inNet).Some? then Decide(first, p, tables, inNet)
            else if Decide(body, p, tables, inNet).Some? then Decide(body, p, tables, inNet)
            else Decide(tail, p, tables, inNet)
  {
    DecideConcat(first, body, p, tables, inNet);
    DecideConcat(first + body, tail, p, tables, inNet);
  }

  /** The two directions of a filter, one after the other. */
  lemma FilterDecides(rules: seq<SgRule>, info: SgInfo, p: Packet, tables: map<Name, set<Addr>>, inNet: Matcher)
    requires forall i :: 0 <= i < |rules| && Kept(rules[i]) ==> PlainPrefix(rules[i]) && GroupsLoaded(rules[i], info, tables)
    ensures Decide(RuleLines(In, PortTable(rules, Ingress)) + RuleLines(Out, PortTable(rules, Egress)), p, tables, inNet) ==
            if InfraAllows(p) || SomeFlattened(rules, info, p, inNet) then Some(true) else None
  {
    TablePasses(rules, Ingress);
    TablePasses(rules, Egress);
    LinesMatch(In, PortTable(rules, Ingress), p, tables, inNet);
    LinesMatch(Out, PortTable(rules, Egress), p, tables, inNet);
    TableMeans(rules, info, Ingress, p, tables, inNet);
    TableMeans(rules, info, Egress, p, tables, inNet);
    DecideConcat(RuleLines(In, PortTable(rules, Ingress)), RuleLines(Out, PortTable(rules, Egress)), p, tables, inNet);
  }

  lemma TablePasses(rules: seq<SgRule>, d: SgDirection)
    ensures forall n :: n in PortTable(rules, d) ==> PortTable(rules, d)[n].action.Pass?
  {
    var list := RuleList(SortBodies(Bodies(rules, d)));
    var port := if d.Ingress? then DHCP_CLIENT_PORT else DHCP_SERVER_PORT;
    forall n | n in PortTable(rules, d) ensures PortTable(rules, d)[n].action.Pass? {
      TableHolds(port, list, n);
      if PortTable(rules, d)[n] in list {
        var i :| 0 <= i < |list| && list[i] == PortTable(rules, d)[n];
      }
    }
  }

  /** Every rule of a port can be compiled: its prefix is a CIDR and its group's table is loaded. */
  ghost predicate Compilable(port: Port, info: SgInfo, tables: map<Name, set<Addr>>) {
    var rules := PortRules(port, info);
    forall i :: 0 <= i < |rules| && Kept(rules[i]) ==> PlainPrefix(rules[i]) && GroupsLoaded(rules[i], info, tables)
  }

  lemma {:induction false} RulesOfGroups(groups: map<string, seq<SgRule>>, ids: seq<string>, r: SgRule)
    ensures r in RulesOf(groups, ids) <==> exists g :: g in ids && g in groups && r in groups[g]
  {
    if ids != [] {
      var rest, last := ids[..|ids| - 1], ids[|ids| - 1];
      RulesOfGroups(groups, rest, r);
      assert forall g :: g in ids <==> g in rest || g == last;
    }
  }

  /** The rules a port is compiled from are those of the groups it is in. */
  lemma RulesGovern(port: Port, info: SgInfo, r: SgRule)
    ensures r in PortRules(port, info) <==> Governs(port, info, r)
  {
    if port.id in info.devices {
      RulesOfGroups(info.groups, info.devices[port.id], r);
    }
  }

  lemma SomeFlattenedMeans(port: Port, info: SgInfo, p: Packet, inNet: Matcher)
    ensures SomeFlattened(PortRules(port, info), info, p, inNet) <==>
              exists r :: Governs(port, info, r) && ((SgAllows(r, info, p, inNet) && Expressed(r, info, p, inNet)) || (Kept(r) && OtherFamily(r, info, p, inNet)))
  {
    var rules := PortRules(port, info);
    hide PortRules, SgAllows, Expressed, FlattenedAllows, Governs, OtherFamily, Kept;
    forall r ensures r in rules <==> Governs(port, info, r)
             ensures Expressed(r, info, p, inNet) ==> Kept(r)
             ensures Kept(r) ==> (FlattenedAllows(r, info, p, inNet) <==>
                                  (SgAllows(r, info, p, inNet) && Expressed(r, info, p, inNet)) || OtherFamily(r, info, p, inNet))
    {
      RulesGovern(port, info, r);
      ExpressedIsKept(r, info, p, inNet);
      if Kept(r) {
        FlattenedMeans(r, info, p, inNet);
      }
    }
    if SomeFlattened(rules, info, p, inNet) {
      var i :| 0 <= i < |rules| && Kept(rules[i]) && FlattenedAllows(rules[i], info, p, inNet);
      assert rules[i] in rules;
    }
    if r :| Governs(port, info, r) && ((SgAllows(r, info, p, inNet) && Expressed(r, info, p, inNet)) || (Kept(r) && OtherFamily(r, info, p, inNet))) {
      var i :| 0 <= i < |rules| && rules[i] == r;
    }
  }

  /** What the flattened rules admit against the policy in Neutron's terms. */
  lemma FlattenedAgainstPolicy(port: Port, info: SgInfo, p: Packet, inNet: Matcher)
    ensures PortPasses(port, info, p, inNet) <==>
            || (PortBind(port).Some? && IsDhcpDiscover(p, inNet))
            || (BindOk(PortBind(port), p, inNet) && (InfraAllows(p) || SomeFlattened(PortRules(port, info), info, p, inNet)))
  {
    BindMeans(port, p, inNet);
    SomeFlattenedMeans(port, info, p, inNet);
    forall r ensures OtherFamily(r, info, p, inNet) && !InfraAllows(p) ==> r.protocol.None?
             ensures r.protocol.None? ==> Kept(r) {}
    hide PortRules, PortBind, BindOk, SourceOk, LockedTo, IsDhcpDiscover, SgAllows, Expressed, SomeFlattened, OtherFamily, InfraAllows, Governs, Kept;
  }

  lemma ExpressedIsKept(r: SgRule, info: SgInfo, p: Packet, inNet: Matcher)
    ensures Expressed(r, info, p, inNet) ==> Kept(r)
  {
    KeptExactly(r);
    hide Kept, Known, ProtocolMeant;
  }

  /** The anchor of a secured port decides every packet: it passes exactly what the policy admits as far
      as pf can express it, and what rules without a protocol admit of the other family. */
  lemma AnchorMeansPolicy(port: Port, info: SgInfo, p: Packet, tables: map<Name, set<Addr>>, inNet: Matcher)
    requires Compilable(port, info, tables)
    ensures Decide(Rendered(Some(PortFilter(port, info)), PortBind(port)), p, tables, inNet)
            == Some(PortPasses(port, info, p, inNet))
  {
    var rules, bind := PortRules(port, info), PortBind(port);
    var first, tail := BindLines(bind), [DenyAll(Out), DenyAll(In)];
    var body := RuleLines(In, PortTable(rules, Ingress)) + RuleLines(Out, PortTable(rules, Egress));
    BindDecides(bind, p, tables, inNet);
    FilterDecides(rules, info, p, tables, inNet);
    TailBlocks(p, tables, inNet);
    DecideThree(first, body, tail, p, tables, inNet);
    FlattenedAgainstPolicy(port, info, p, inNet);
    PortFilterLines(port, info);
  }

  /** A rule without protocol, ports or remote lets both families through, whichever its ethertype. */
  lemma AnyRulePassesBothFamilies(port: Port, info: SgInfo, r: SgRule, p: Packet, inNet: Matcher)
    requires Governs(port, info, r) && SourceOk(port, p, inNet)
    requires r.protocol.None? && r.portMin.None? && RemotePrefix(r) == "" && r.remoteGroup == "" && (r.direction.Ingress? <==> IsIngress(p))
    ensures PortPasses(port, info, p, inNet)
  {
    hide Governs, SourceOk, MayDiscover;
    if r.ipv6 == p.v6 {
      assert SgAllows(r, info, p, inNet) && Expressed(r, info, p, inNet);
    } else {
      assert OtherFamily(r, info, p, inNet);
    }
  }

  lemma PortFilterLines(port: Port, info: SgInfo)
    ensures Rendered(Some(PortFilter(port, info)), PortBind(port)) ==
            BindLines(PortBind(port))
            + (RuleLines(In, PortTable(PortRules(port, info), Ingress)) + RuleLines(Out, PortTable(PortRules(port, info), Egress)))
            + [DenyAll(Out), DenyAll(In)]
  {
  }
}

/** Permuting a port's groups, or the rules inside a group, changes nothing. */
module Canonical {
  import opened Collections
  import opened Model
  import opened Pf
  import opened SgOrder
  import opened PortConfig

  lemma {:induction false} BodiesConcat(a: seq<SgRule>, b: seq<SgRule>, d: SgDirection)
    ensures Bodies(a + b, d) == Bodies(a, d) + Bodies(b, d)
  {
    if b == [] {
      assert a + b == a;
    } else {
      assert (a + b)[..|a + b| - 1] == a + b[..|b| - 1];
      BodiesConcat(a, b[..|b| - 1], d);
    }
  }

  /** Taking one element out of two permutations of each other leaves permutations. */
  lemma TakeOut<T>(a: seq<T>, b: seq<T>) returns (before: seq<T>, after: seq<T>)
    requires multiset(a) == multiset(b) && a != []
    ensures b == before + [a[|a| - 1]] + after
    ensures multiset(a[..|a| - 1]) == multiset(before + after)
  {
    var rest, x := a[..|a| - 1], a[|a| - 1];
    assert a == rest + [x];
    assert x in multiset(b);
    var j :| 0 <= j < |b| && b[j] == x;
    before, after := b[..j], b[j + 1..];
    assert b == before + [x] + after;
    assert multiset(rest) == multiset(a) - multiset{x};
    assert multiset(before + after) == multiset(b) - multiset{x};
  }

  lemma EmptyPermutation<T>(a: seq<T>, b: seq<T>)
    requires multiset(a) == multiset(b) && a == []
    ensures b == []
  {
    assert |multiset(b)| == |b|;
  }

  /** The multiset of bodies depends only on the multiset of rules. */
  lemma {:induction false} BodiesForgetOrder(a: seq<SgRule>, b: seq<SgRule>, d: SgDirection)
    requires multiset(a) == multiset(b)
    ensures multiset(Bodies(a, d)) == multiset(Bodies(b, d))
    decreases |a|
  {
    if a == [] {
      EmptyPermutation(a, b);
    } else {
      var rest, x := a[..|a| - 1], a[|a| - 1];
      assert a == rest + [x];
      var before, after := TakeOut(a, b);
      BodiesForgetOrder(rest, before + after, d);
      BodiesConcat(rest, [x], d);
      BodiesConcat(before, after, d);
      BodiesConcat(before, [x], d);
      BodiesConcat(before + [x], after, d);
    }
  }

  /** Two ports whose groups hold the same rules, in whatever order, get the same filter,
      hence the same rule lines and hash. */
  lemma OrderDoesNotMatter(port: Port, info: SgInfo, port': Port, info': SgInfo, bind: Option<Bind>)
    requires multiset(PortRules(port, info)) == multiset(PortRules(port', info'))
    ensures PortFilter(port, info) == PortFilter(port', info')
    ensures Rendered(Some(PortFilter(port, info)), bind) == Rendered(Some(PortFilter(port', info')), bind)
  {
    BodiesForgetOrder(PortRules(port, info), PortRules(port', info'), Ingress);
    BodiesForgetOrder(PortRules(port, info), PortRules(port', info'), Egress);
    SortForgetsOrder(Bodies(PortRules(port, info), Ingress), Bodies(PortRules(port', info'), Ingress));
    SortForgetsOrder(Bodies(PortRules(port, info), Egress), Bodies(PortRules(port', info'), Egress));
  }

  lemma {:induction false} RulesOfConcat(groups: map<string, seq<SgRule>>, a: seq<string>, b: seq<string>)
    ensures RulesOf(groups, a + b) == RulesOf(groups, a) + RulesOf(groups, b)
  {
    if b == [] {
      assert a + b == a;
    } else {
      assert (a + b)[..|a + b| - 1] == a + b[..|b| - 1];
      RulesOfConcat(groups, a, b[..|b| - 1]);
    }
  }

  /** Group lists that are permutations of each other, over groups whose rule lists are. */
  ghost predicate SameGroups(groups: map<string, seq<SgRule>>, groups': map<string, seq<SgRule>>) {
    groups.Keys == groups'.Keys && forall g :: g in groups ==> multiset(groups[g]) == multiset(groups'[g])
  }

  lemma {:induction false} SameGroupsSameRules(groups: map<string, seq<SgRule>>, groups': map<string, seq<SgRule>>, ids: seq<string>)
    requires SameGroups(groups, groups')
    ensures multiset(RulesOf(groups, ids)) == multiset(RulesOf(groups', ids))
  {
    if ids != [] {
      SameGroupsSameRules(groups, groups', ids[..|ids| - 1]);
    }
  }

  lemma {:induction false} PermutedGroups(groups: map<string, seq<SgRule>>, a: seq<string>, b: seq<string>)
    requires multiset(a) == multiset(b)
    ensures multiset(RulesOf(groups, a)) == multiset(RulesOf(groups, b))
    decreases |a|
  {
    if a == [] {
      EmptyPermutation(a, b);
    } else {
      var rest, x := a[..|a| - 1], a[|a| - 1];
      assert a == rest + [x];
      var before, after := TakeOut(a, b);
      PermutedGroups(groups, rest, before + after);
      RulesOfConcat(groups, rest, [x]);
      RulesOfConcat(groups, before, after);
      RulesOfConcat(groups, before, [x]);
      RulesOfConcat(groups, before + [x], after);
    }
  }

  /** A port keeps its filter and hash when its group list, or any group's rule list, is permuted. */
  lemma PermutationsKeepTheFilter(port: Port, info: SgInfo, info': SgInfo, bind: Option<Bind>)
    requires port.id in info.devices && port.id in info'.devices
    requires multiset(info.devices[port.id]) == multiset(info'.devices[port.id])
    requires SameGroups(info.groups, info'.groups)
    ensures PortFilter(port, info) == PortFilter(port, info')
    ensures Rendered(Some(PortFilter(port, info)), bind) == Rendered(Some(PortFilter(port, info')), bind)
  {
    PermutedGroups(info.groups, info.devices[port.id], info'.devices[port.id]);
    SameGroupsSameRules(info.groups, info'.groups, info'.devices[port.id]);
    OrderDoesNotMatter(port, info, port, info', bind);
  }
}
