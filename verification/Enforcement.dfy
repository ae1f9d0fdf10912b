/**
 From Neutron's data to the kernel: what a pass over a built document puts in force for
 each port, and what may be reported up after it.
 */
module Enforcement {
  import opened Collections
  import opened Model
  import opened Pf
  import opened Ops
  import opened KernelModel
  import opened View
  import opened Planner
  import opened Reading
  import opened PlanContents
  import opened AddsPhase
  import opened Realization
  import opened Convergence
  import opened Writing
  import opened Names
  import opened PortConfig
  import opened PfSemantics
  import opened Policies
  import opened Compiler
  import opened Assembly

  // ------------------------------------------------------ one port's stanzas

  /** What build made of the ports, when it made anything. */
  ghost predicate BuiltFrom(c: Config, ports: seq<Port>, info: SgInfo, mappings: map<Name, Name>, digest: SegmentKey -> string) {
    Built(ports, info, mappings, digest) == Ok(c)
  }

  /** No other group takes the table name of a group this port's rules name. */
  ghost predicate OwnTables(ports: seq<Port>, info: SgInfo, i: nat)
    requires i < |ports|
  {
    forall g, h :: g in GroupsUsed(PortRules(ports[i], info)) && h in RemoteGroups(ports, info) && TableName(h) == TableName(g) ==> h == g
  }

  lemma GroupTableIs(ports: seq<Port>, info: SgInfo, mappings: map<Name, Name>, digest: SegmentKey -> string, i: nat, g: string)
    requires i < |ports| && IsSecured(ports[i]) && OwnTables(ports, info, i) && g in GroupsUsed(PortRules(ports[i], info))
    ensures var tables := TreeOf(Drafted(ports, info, mappings, digest), info).table;
            TableName(g) in tables && tables[TableName(g)] == GroupIps(info, g)
  {
    DraftedGroups(ports, info, mappings, digest);
    hide Drafted, PortRules, GroupsUsed;
    assert g in RemoteGroups(ports, info);
    TableOfGroup(Sorted(RemoteGroups(ports, info)), info, g);
  }

  lemma GroupIsReferenced(port: Port, info: SgInfo, j: nat)
    requires j < |PortRules(port, info)| && Kept(PortRules(port, info)[j]) && NamesGroup(PortRules(port, info)[j])
    ensures TableName(PortRules(port, info)[j].remoteGroup) in TablesReferenced(Some(PortFilter(port, info)))
  {
    var r := PortRules(port, info)[j];
    FilterTables(port, info, TableName(r.remoteGroup));
    assert NamesTable(r, TableName(r.remoteGroup));
    hide PortRules, PortFilter;
    assert RulesName(PortRules(port, info), r.direction, TableName(r.remoteGroup));
  }

  lemma SecuredMember(c: Config, ports: seq<Port>, info: SgInfo, mappings: map<Name, Name>, digest: SegmentKey -> string, i: nat)
    requires BuiltFrom(c, ports, info, mappings, digest) && LastWithFilter(ports, i)
    ensures var m := MemberOf(ports[i]);
            m.typed && FilterOf(c, m) == Some(PortFilter(ports[i], info)) && m.bind == PortBind(ports[i])
  {
    FilterOfPort(ports, info, mappings, digest, i);
  }

  /** An anchor whose tables are as the document wants them holds every group the port's rules name. */
  lemma TablesCompile(c: Config, ports: seq<Port>, info: SgInfo, mappings: map<Name, Name>, digest: SegmentKey -> string, i: nat,
                      tables: map<Name, set<Addr>>)
    requires BuiltFrom(c, ports, info, mappings, digest) && Resolved(c)
    requires PlainPorts(ports, info) && LastWithFilter(ports, i) && OwnTables(ports, info, i)
    requires TablesOk(c, MemberOf(ports[i]), tables)
    ensures Compilable(ports[i], info, tables)
  {
    SecuredMember(c, ports, info, mappings, digest, i);
    var rules := PortRules(ports[i], info);
    hide PortRules, PortFilter, MemberOf, Drafted, PlainPrefix, OwnTables, Resolved;
    forall j | 0 <= j < |rules| && Kept(rules[j]) ensures PlainPrefix(rules[j]) && GroupsLoaded(rules[j], info, tables) {
      if NamesGroup(rules[j]) {
        GroupIsReferenced(ports[i], info, j);
        GroupIsUsed(rules, j);
        GroupTableIs(ports, info, mappings, digest, i, rules[j].remoteGroup);
        assert TableName(rules[j].remoteGroup) in MemberTables(c, MemberOf(ports[i]));
      }
    }
  }

  /** The policied anchor the document asks for decides every packet as Neutron's data says. */
  lemma DocumentMeansPolicy(c: Config, ports: seq<Port>, info: SgInfo, mappings: map<Name, Name>, digest: SegmentKey -> string, i: nat,
                            tables: map<Name, set<Addr>>, p: Packet, inNet: Matcher)
    requires BuiltFrom(c, ports, info, mappings, digest) && Resolved(c)
    requires PlainPorts(ports, info) && LastWithFilter(ports, i) && OwnTables(ports, info, i)
    requires TablesOk(c, MemberOf(ports[i]), tables)
    ensures Decide(WantedRules(c, MemberOf(ports[i])), p, tables, inNet) == Some(PortPasses(ports[i], info, p, inNet))
  {
    TablesCompile(c, ports, info, mappings, digest, i, tables);
    SecuredMember(c, ports, info, mappings, digest, i);
    AnchorMeansPolicy(ports[i], info, p, tables, inNet);
  }

  // ------------------------------------------------------------ the kernel

  /** Interface x is in bridge b and its anchor passes exactly what the port may exchange. */
  ghost predicate Enforced(k: Kernel, b: Name, x: Name, port: Port, info: SgInfo, p: Packet, inNet: Matcher) {
    && x in k.ifs && InBridge(k, b, x)
    && x in k.anchors && k.anchors[x].rules.Some?
    && Decide(k.anchors[x].rules.value, p, k.anchors[x].tables, inNet) == Some(PortPasses(port, info, p, inNet))
  }

  lemma DoneIsEnforced(c: Config, ports: seq<Port>, info: SgInfo, mappings: map<Name, Name>, digest: SegmentKey -> string, i: nat,
                       k: Kernel, b: Name, p: Packet, inNet: Matcher)
    requires BuiltFrom(c, ports, info, mappings, digest) && Resolved(c)
    requires PlainPorts(ports, info) && LastWithFilter(ports, i) && OwnTables(ports, info, i)
    requires MemberDone(c, b, MemberName(ports[i]), MemberOf(ports[i]), k)
    ensures Enforced(k, b, MemberName(ports[i]), ports[i], info, p, inNet)
  {
    var x, m := MemberName(ports[i]), MemberOf(ports[i]);
    SecuredMember(c, ports, info, mappings, digest, i);
    assert HasPolicy(c, m);
    DocumentMeansPolicy(c, ports, info, mappings, digest, i, k.anchors[x].tables, p, inNet);
  }

  lemma PortIsDone(c: Config, ports: seq<Port>, info: SgInfo, mappings: map<Name, Name>, digest: SegmentKey -> string, i: nat, k: Kernel)
    requires BuiltFrom(c, ports, info, mappings, digest) && Resolved(c) && LastInPlace(ports, digest, i)
    requires forall b :: b in c.bridge.at ==> BridgeDone(c, b, k)
    ensures MemberDone(c, BridgeName(KeyOf(ports[i]), digest), MemberName(ports[i]), MemberOf(ports[i]), k)
  {
    PortIsMember(ports, info, mappings, digest, i);
    hide Drafted, MemberDone, MemberOf, MemberName, KeyOf, Resolved;
    assert BridgeDone(c, BridgeName(KeyOf(ports[i]), digest), k);
  }

  /** After one fault-free pass from home, every secured port's interface sits in its segment's
      bridge and the kernel passes a packet exactly when the port's security groups, the
      infrastructure rules and the source lock let it through. */
  lemma PassEnforcesPolicy(c: Config, ports: seq<Port>, info: SgInfo, mappings: map<Name, Name>, digest: SegmentKey -> string, i: nat,
                           k: Kernel, v: KernelInterfaces, pf: PfState, p: Packet, inNet: Matcher)
    requires BuiltFrom(c, ports, info, mappings, digest) && PlainPorts(ports, info)
    requires LastWithFilter(ports, i) && LastInPlace(ports, digest, i) && OwnTables(ports, info, i)
    requires Situation(c, k, v, pf) && Ready(c, k) && Home(c, k)
    ensures Executable(PlannedPhases(c, v, Some(pf)).Ops(), k)
    ensures Enforced(Apply(PlannedPhases(c, v, Some(pf)).Ops(), k), BridgeName(KeyOf(ports[i]), digest), MemberName(ports[i]),
                     ports[i], info, p, inNet)
  {
    OnePassConverges(c, k, v, pf);
    var k' := Apply(PlannedPhases(c, v, Some(pf)).Ops(), k);
    assert Resolved(c);
    RealizedIsDone(c, k');
    hide Situation, Ready, Home, Realized, Resolved, BridgeDone, PlannedPhases, Executable, Apply, Enforced;
    PortIsDone(c, ports, info, mappings, digest, i, k');
    DoneIsEnforced(c, ports, info, mappings, digest, i, k', BridgeName(KeyOf(ports[i]), digest), p, inNet);
  }

  lemma RealizedIsDone(c: Config, k: Kernel)
    requires Resolved(c) && exists parked :: RealizedBut(c, k, parked)
    ensures forall b :: b in c.bridge.at ==> BridgeDone(c, b, k)
  {
    var parked :| RealizedBut(c, k, parked);
    hide BridgeDone, Resolved;
    forall b | b in c.bridge.at ensures BridgeDone(c, b, k) {
      assert BridgeRealized(c, k, b);
    }
  }
}
