/**
 The desired document built from Neutron's port and security-group data
 (l2_agent/port_config.py), first as functions, then in the source's form.
 An empty prefix, group, owner or MAC stands for an absent one.
 */
module PortConfig {
  import opened Collections
  import opened Model
  import opened Pf
  import opened SgOrder
  import opened Names

  datatype SgDirection = Ingress | Egress

  datatype SgRule = SgRule(direction: SgDirection, ipv6: bool, protocol: Option<string>,
                           portMin: Option<nat>, portMax: Option<nat>,
                           sourcePrefix: string, destPrefix: string, remoteGroup: string)

  datatype Port = Port(id: string, owner: string, networkType: string, physnet: Name, segmentation: Option<nat>,
                       network: string, mac: Mac, fixedIps: seq<Addr>, portSecurity: bool)

  /** The addresses of a group's members, by family. */
  datatype MemberIps = MemberIps(v4: seq<Addr>, v6: seq<Addr>)

  datatype SgInfo = SgInfo(groups: map<string, seq<SgRule>>, devices: map<string, seq<string>>, memberIps: map<string, MemberIps>)

  // ------------------------------------------------------------- one SG rule

  function ProtoOf(p: string): Option<Proto> {
    if p == "tcp" then Some(TCP)
    else if p == "udp" then Some(UDP)
    else if p == "icmp" then Some(ICMP)
    else if p == "ipv6-icmp" || p == "icmpv6" || p == "icmp6" then Some(ICMP6)
    else None
  }

  /** What pf cannot express is skipped, which blocks that traffic. */
  predicate Kept(r: SgRule) {
    && (r.protocol.Some? ==> ProtoOf(r.protocol.value).Some?)
    && (r.ipv6 && r.protocol.Some? ==> ProtoOf(r.protocol.value) == Some(ICMP6))
  }

  function PortValue(r: SgRule): Option<PortSpec> {
    if r.portMin.None? then None
    else if r.portMax.None? || r.portMin == r.portMax then Some(Single(r.portMin.value))
    else Some(Range(r.portMin.value, r.portMax.value))
  }

  /** The remote's prefix, under whichever of its two names. */
  function Prefix(r: SgRule): string {
    if r.direction.Ingress? then r.sourcePrefix else r.destPrefix
  }

  predicate NamesGroup(r: SgRule) {
    Prefix(r) == "" && r.remoteGroup != ""
  }

  function Remote(r: SgRule): string {
    if Prefix(r) != "" then Prefix(r)
    else if r.remoteGroup != "" then "@" + TableName(r.remoteGroup)
    else "any"
  }

  function BodyOf(r: SgRule): (b: Body)
    requires Kept(r)
    ensures NaturalBody(b)
  {
    Body(
      if r.protocol.Some? then ProtoOf(r.protocol.value) else None,
      PortValue(r),
      if r.direction.Ingress? then Remote(r) else "any",
      if r.direction.Ingress? then "any" else Remote(r))
  }

  // ------------------------------------------------------------- one port's SGs

  function RulesOf(groups: map<string, seq<SgRule>>, ids: seq<string>): seq<SgRule> {
    if ids == [] then [] else
      var id := ids[|ids| - 1];
      RulesOf(groups, ids[..|ids| - 1]) + if id in groups then groups[id] else []
  }

  /** Every rule of the groups a device is in. */
  function PortRules(port: Port, info: SgInfo): seq<SgRule> {
    if port.id in info.devices then RulesOf(info.groups, info.devices[port.id]) else []
  }

  function Bodies(rules: seq<SgRule>, d: SgDirection): (r: seq<Body>)
    ensures Naturals(r)
  {
    if rules == [] then [] else
      var rest, last := Bodies(rules[..|rules| - 1], d), rules[|rules| - 1];
      if Kept(last) && last.direction == d then rest + [BodyOf(last)] else rest
  }

  function GroupsUsed(rules: seq<SgRule>): set<string> {
    set i | 0 <= i < |rules| && Kept(rules[i]) && NamesGroup(rules[i]) :: rules[i].remoteGroup
  }

  const SG_RULE_BASE := 100

  function SlotOf(i: nat): nat {
    SG_RULE_BASE + 10 * i
  }

  function Numbered(rules: seq<Rule>): map<nat, Rule> {
    if rules == [] then map[]
    else Numbered(rules[..|rules| - 1])[SlotOf(|rules| - 1) := rules[|rules| - 1]]
  }

  // ---------------------------------------------------------- validated rules

  /** How the model reads a from/to string. */
  function ParseRef(s: string): Ref {
    if s == "any" then AnyRef
    else if s != "" && s[0] == '@' then TableRef(s[1..])
    else CidrRef(s)
  }

  predicate PortOk(p: PortSpec) {
    match p
    case Single(n) => 1 <= n <= 65535
    case Range(lo, hi) => 1 <= lo <= hi <= 65535
  }

  function RuleOf(b: Body): Rule {
    Rule(Pass, b.proto, b.port, ParseRef(b.from_), ParseRef(b.to))
  }

  function RuleList(bodies: seq<Body>): (r: seq<Rule>)
    ensures |r| == |bodies|
    ensures forall i :: 0 <= i < |r| ==> r[i] == RuleOf(bodies[i])
  {
    seq(|bodies|, i requires 0 <= i < |bodies| => RuleOf(bodies[i]))
  }

  function InfraRules(port: int): map<nat, Rule> {
    map[10 := Rule(Pass, Some(UDP), Some(Single(port)), AnyRef, AnyRef), 20 := Rule(Pass, Some(ICMP6), None, AnyRef, AnyRef)]
  }

  const DHCP_CLIENT_PORT := 68
  const DHCP_SERVER_PORT := 67

  function FilterFrom(inBodies: seq<Body>, outBodies: seq<Body>): Filter {
    Filter(InfraRules(DHCP_CLIENT_PORT) + Numbered(RuleList(inBodies)),
           InfraRules(DHCP_SERVER_PORT) + Numbered(RuleList(outBodies)))
  }

  /** The flattened filter of a secured port. */
  function PortFilter(port: Port, info: SgInfo): Filter {
    var rules := PortRules(port, info);
    FilterFrom(SortBodies(Bodies(rules, Ingress)), SortBodies(Bodies(rules, Egress)))
  }

  predicate RulePortsOk(rules: map<nat, Rule>) {
    forall n :: n in rules ==> rules[n].port.Some? ==> PortOk(rules[n].port.value)
  }

  // ------------------------------------------------------------------ one port

  predicate StartsWith(s: string, prefix: string) {
    prefix <= s
  }

  predicate IsService(port: Port) {
    || StartsWith(port.owner, "network:dhcp")
    || StartsWith(port.owner, "network:router_interface")
    || StartsWith(port.owner, "network:router_gateway")
  }

  predicate IsSecured(port: Port) {
    !IsService(port) && port.portSecurity
  }

  function MemberName(port: Port): Name {
    if StartsWith(port.owner, "network:dhcp") then DhcpIfName(port.id)
    else if IsService(port) then RouterIfName(port.id)
    else TapName(port.id)
  }

  function KeyOf(port: Port): SegmentKey {
    if port.networkType == "vlan" then
      "vlan/" + port.physnet + "/" + if port.segmentation.Some? then Decimal(port.segmentation.value) else "None"
    else if port.networkType == "flat" then "flat/" + port.physnet
    else port.networkType + "/" + if port.segmentation.Some? && port.segmentation.value != 0 then Decimal(port.segmentation.value) else port.network
  }

  predicate IsV4(a: Addr) {
    ':' !in a
  }

  /** The first IPv4 address, if any. */
  function FirstV4(ips: seq<Addr>): Option<Addr> {
    if ips == [] then None else if IsV4(ips[0]) then Some(ips[0]) else FirstV4(ips[1..])
  }

  function PortBind(port: Port): Option<Bind> {
    if FirstV4(port.fixedIps).Some? && port.mac != "" then Some(Bind(port.mac, FirstV4(port.fixedIps).value)) else None
  }

  function MemberOf(port: Port): Member {
    var description := "neutron port " + port.id;
    if IsService(port) then Member(false, "", description, None)
    else if !port.portSecurity then Member(true, "", description, None)
    else Member(true, FilterName(port.id), description, PortBind(port))
  }

  // -------------------------------------------------------------- all the ports

  /** The stanzas built so far, and the remote groups they refer to. */
  datatype Draft = Draft(physnets: map<Name, Name>, bridges: Dict<Bridge>, filters: map<Name, Filter>, used: set<string>)

  function Put<V>(d: Dict<V>, key: Name, value: V): Dict<V> {
    Dict(if key in d.at then d.keys else d.keys + [key], d.at[key := value])
  }

  function EmptyBridge(): Bridge {
    Bridge(2000, None, Dict([], map[]))
  }

  /** The uplink a port's network maps to. */
  function Trunk(port: Port, mappings: map<Name, Name>): Option<Name> {
    if port.networkType in ["vlan", "flat"] && port.physnet in mappings then Some(mappings[port.physnet]) else None
  }

  function SegmentOf(port: Port): Segment {
    if port.networkType == "vlan" && port.segmentation.Some? then Vlan(port.physnet, port.segmentation.value) else Flat(port.physnet)
  }

  function AddPort(d: Draft, port: Port, info: SgInfo, mappings: map<Name, Name>, digest: SegmentKey -> string): Draft {
    var name := BridgeName(KeyOf(port), digest);
    var bridge := if name in d.bridges.at then d.bridges.at[name] else EmptyBridge();
    var trunk := Trunk(port, mappings);
    var placed := if trunk.Some? then bridge.(segment := Some(SegmentOf(port))) else bridge;
    Draft(
      if trunk.Some? then d.physnets[port.physnet := trunk.value] else d.physnets,
      Put(d.bridges, name, placed.(member := Put(placed.member, MemberName(port), MemberOf(port)))),
      if IsSecured(port) then d.filters[FilterName(port.id) := PortFilter(port, info)] else d.filters,
      d.used + if IsSecured(port) then GroupsUsed(PortRules(port, info)) else {})
  }

  function Drafted(ports: seq<Port>, info: SgInfo, mappings: map<Name, Name>, digest: SegmentKey -> string): Draft {
    if ports == [] then Draft(map[], Dict([], map[]), map[], {})
    else AddPort(Drafted(ports[..|ports| - 1], info, mappings, digest), ports[|ports| - 1], info, mappings, digest)
  }

  /** Only IPv4 members go into a table. */
  function GroupIps(info: SgInfo, group: string): set<Addr> {
    if group in info.memberIps then Elements(info.memberIps[group].v4) else {}
  }

  /** Later groups win when truncated table names collide. */
  function TablesFor(groups: seq<string>, info: SgInfo): map<Name, set<Addr>> {
    if groups == [] then map[] else
      var g := groups[|groups| - 1];
      TablesFor(groups[..|groups| - 1], info)[TableName(g) := GroupIps(info, g)]
  }

  ghost function TreeOf(d: Draft, info: SgInfo): Config {
    Config(d.physnets, d.bridges, TablesFor(Sorted(d.used), info), d.filters)
  }

  /** The field checks of the model that built documents can fail. */
  predicate FieldsOk(c: Config) {
    && (forall f :: f in c.filter ==> RulePortsOk(c.filter[f].in_) && RulePortsOk(c.filter[f].out))
    && (forall p :: p in c.physnet ==> 1 <= |c.physnet[p]| <= IFNAME_MAX)
    && (forall b :: b in c.bridge.at && c.bridge.at[b].segment.Some? ==>
          && c.bridge.at[b].segment.value.physnet != ""
          && (c.bridge.at[b].segment.value.Vlan? ==> 1 <= c.bridge.at[b].segment.value.vid <= 4094))
  }

  datatype SchemaError = BadField | DanglingReference

  ghost function Built(ports: seq<Port>, info: SgInfo, mappings: map<Name, Name>, digest: SegmentKey -> string): Result<Config, SchemaError> {
    var c := TreeOf(Drafted(ports, info, mappings, digest), info);
    if !FieldsOk(c) then Err(BadField)
    else if !Resolved(c) then Err(DanglingReference)
    else Ok(c)
  }

  // ---------------------------------------------------------- the source's form

  /** The remote groups referred to so far, shared by the rules of every port. */
  class GroupSet {
    var ids: set<string>

    constructor ()
      ensures ids == {}
    {
      ids := {};
    }

    /** `Remote` of the rule; the group is noted only when it decides. */
    method RemoteOf(r: SgRule) returns (text: string)
      modifies this
      ensures text == Remote(r)
      ensures ids == old(ids) + if NamesGroup(r) then {r.remoteGroup} else {}
    {
      if Prefix(r) != "" {
        return Prefix(r);
      }
      if r.remoteGroup != "" {
        ids := ids + {r.remoteGroup};
        return "@" + TableName(r.remoteGroup);
      }
      text := "any";
    }
  }

  method CollectRules(port: Port, info: SgInfo) returns (rules: seq<SgRule>)
    ensures rules == PortRules(port, info)
  {
    rules := [];
    var ids := if port.id in info.devices then info.devices[port.id] else [];
    for i := 0 to |ids|
      invariant rules == RulesOf(info.groups, ids[..i])
    {
      assert ids[..i + 1][..i] == ids[..i];
      rules := rules + if ids[i] in info.groups then info.groups[ids[i]] else [];
    }
    assert ids[..|ids|] == ids;
  }

  lemma GroupsUsedStep(rules: seq<SgRule>, i: nat)
    requires i < |rules|
    ensures GroupsUsed(rules[..i + 1])
            == GroupsUsed(rules[..i]) + if Kept(rules[i]) && NamesGroup(rules[i]) then {rules[i].remoteGroup} else {}
  {
    var now, before := rules[..i + 1], rules[..i];
    forall j | 0 <= j < i ensures now[j] == before[j] {}
    if Kept(rules[i]) && NamesGroup(rules[i]) {
      assert now[i] == rules[i];
    }
    forall g | g in GroupsUsed(before) ensures g in GroupsUsed(now) {
      var j :| 0 <= j < |before| && Kept(before[j]) && NamesGroup(before[j]) && before[j].remoteGroup == g;
      assert now[j] == before[j];
    }
  }

  lemma BodiesStep(rules: seq<SgRule>, i: nat, d: SgDirection)
    requires i < |rules|
    ensures Bodies(rules[..i + 1], d)
            == Bodies(rules[..i], d) + if Kept(rules[i]) && rules[i].direction == d then [BodyOf(rules[i])] else []
  {
    assert rules[..i + 1][..i] == rules[..i];
  }

  /** One round of the loop over a port's rules. */
  method Flatten(r: SgRule, inBodies: seq<Body>, outBodies: seq<Body>, used: GroupSet) returns (inBodies': seq<Body>, outBodies': seq<Body>)
    modifies used
    ensures inBodies' == inBodies + if Kept(r) && r.direction.Ingress? then [BodyOf(r)] else []
    ensures outBodies' == outBodies + if Kept(r) && r.direction.Egress? then [BodyOf(r)] else []
    ensures used.ids == old(used.ids) + if Kept(r) && NamesGroup(r) then {r.remoteGroup} else {}
  {
    inBodies', outBodies' := inBodies, outBodies;
    if !Kept(r) {
      return;
    }
    var proto := if r.protocol.Some? then ProtoOf(r.protocol.value) else None;
    var remote := used.RemoteOf(r);
    if r.direction.Ingress? {
      inBodies' := inBodies + [Body(proto, PortValue(r), remote, "any")];
    } else {
      outBodies' := outBodies + [Body(proto, PortValue(r), "any", remote)];
    }
  }

  method FlattenAll(rules: seq<SgRule>, used: GroupSet) returns (inBodies: seq<Body>, outBodies: seq<Body>)
    modifies used
    ensures inBodies == Bodies(rules, Ingress) && outBodies == Bodies(rules, Egress)
    ensures used.ids == old(used.ids) + GroupsUsed(rules)
  {
    inBodies, outBodies := [], [];
    for i := 0 to |rules|
      invariant inBodies == Bodies(rules[..i], Ingress) && outBodies == Bodies(rules[..i], Egress)
      invariant used.ids == old(used.ids) + GroupsUsed(rules[..i])
    {
      hide Kept, BodyOf, NamesGroup, Bodies, GroupsUsed;
      BodiesStep(rules, i, Ingress);
      BodiesStep(rules, i, Egress);
      GroupsUsedStep(rules, i);
      inBodies, outBodies := Flatten(rules[i], inBodies, outBodies, used);
    }
    assert rules[..|rules|] == rules;
  }

  /** `Numbered` tables of the kept rules in canonical order, both directions in one loop. */
  method SgRulesForPort(port: Port, info: SgInfo, used: GroupSet) returns (inRules: map<nat, Rule>, outRules: map<nat, Rule>)
    modifies used
    ensures inRules == Numbered(RuleList(SortBodies(Bodies(PortRules(port, info), Ingress))))
    ensures outRules == Numbered(RuleList(SortBodies(Bodies(PortRules(port, info), Egress))))
    ensures used.ids == old(used.ids) + GroupsUsed(PortRules(port, info))
  {
    var rules := CollectRules(port, info);
    var inBodies, outBodies := FlattenAll(rules, used);
    inRules := Numbered(RuleList(SortBodies(inBodies)));
    outRules := Numbered(RuleList(SortBodies(outBodies)));
  }

  /** One round of the loop over the ports: its physnet, bridge stanza, member and filter. */
  method Place(port: Port, info: SgInfo, mappings: map<Name, Name>, digest: SegmentKey -> string, used: GroupSet,
               physnets: map<Name, Name>, bridges: Dict<Bridge>, filters: map<Name, Filter>)
      returns (physnets': map<Name, Name>, bridges': Dict<Bridge>, filters': map<Name, Filter>)
    modifies used
    ensures Draft(physnets', bridges', filters', used.ids)
            == AddPort(Draft(physnets, bridges, filters, old(used.ids)), port, info, mappings, digest)
  {
    physnets', filters' := physnets, filters;
    var name := BridgeName(KeyOf(port), digest);
    var stanza := if name in bridges.at then bridges.at[name] else EmptyBridge();
    var trunk := Trunk(port, mappings);
    if trunk.Some? {
      physnets' := physnets[port.physnet := trunk.value];
      stanza := stanza.(segment := Some(SegmentOf(port)));
    }
    if IsSecured(port) {
      var inRules, outRules := SgRulesForPort(port, info, used);
      filters' := filters[FilterName(port.id) :=
        Filter(InfraRules(DHCP_CLIENT_PORT) + inRules, InfraRules(DHCP_SERVER_PORT) + outRules)];
    }
    stanza := stanza.(member := Put(stanza.member, MemberName(port), MemberOf(port)));
    bridges' := Put(bridges, name, stanza);
  }

  /** Build a validated document from what Neutron says about this host's ports. */
  method Build(ports: seq<Port>, info: SgInfo, mappings: map<Name, Name>, digest: SegmentKey -> string)
      returns (result: Result<Config, SchemaError>)
    ensures result == Built(ports, info, mappings, digest)
  {
    var physnets: map<Name, Name> := map[];
    var bridges: Dict<Bridge> := Dict([], map[]);
    var filters: map<Name, Filter> := map[];
    var used := new GroupSet();
    hide AddPort;
    for i := 0 to |ports|
      invariant Draft(physnets, bridges, filters, used.ids) == Drafted(ports[..i], info, mappings, digest)
    {
      assert ports[..i + 1][..i] == ports[..i];
      physnets, bridges, filters := Place(ports[i], info, mappings, digest, used, physnets, bridges, filters);
    }
    assert ports[..|ports|] == ports;
    var groups := SortNames(used.ids);
    var tables := MakeTables(groups, info);
    var c := Config(physnets, bridges, tables, filters);
    if !FieldsOk(c) {
      return Err(BadField);
    }
    if !Resolved(c) {
      return Err(DanglingReference);
    }
    result := Ok(c);
  }

  method MakeTables(groups: seq<string>, info: SgInfo) returns (tables: map<Name, set<Addr>>)
    ensures tables == TablesFor(groups, info)
  {
    tables := map[];
    for i := 0 to |groups|
      invariant tables == TablesFor(groups[..i], info)
    {
      assert groups[..i + 1][..i] == groups[..i];
      tables := tables[TableName(groups[i]) := GroupIps(info, groups[i])];
    }
    assert groups[..|groups|] == groups;
  }
}
