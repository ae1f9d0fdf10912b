/**
 The document `build` assembles: what it names it also defines, even where truncated
 names collide, and each port's member, filter and tables are in it.
 */
module Assembly {
  import opened Collections
  import opened Model
  import opened Pf
  import opened SgOrder
  import opened Names
  import opened PortConfig
  import opened Compiler

  lemma PutValid<V>(d: Dict<V>, key: Name, value: V)
    requires d.Valid()
    ensures Put(d, key, value).Valid()
  {
    if key !in d.at {
      NoDupAppend(d.keys, [key]);
    }
  }

  // ------------------------------------------------------------ bridge stanzas

  /** A stanza's segment and members refer to stanzas of the draft; only typed members are bound. */
  ghost predicate StanzaOk(d: Draft, b: Bridge) {
    && b.member.Valid()
    && (b.segment.Some? ==> b.segment.value.physnet in d.physnets)
    && (forall m :: m in b.member.at ==> b.member.at[m].filter != "" ==> b.member.at[m].filter in d.filters)
    && (forall m :: m in b.member.at ==> b.member.at[m].bind.Some? ==> b.member.at[m].typed)
  }

  ghost predicate StanzasOk(d: Draft) {
    d.bridges.Valid() && forall b :: b in d.bridges.at ==> StanzaOk(d, d.bridges.at[b])
  }

  lemma MemberIsBacked(d: Draft, port: Port, info: SgInfo, mappings: map<Name, Name>, digest: SegmentKey -> string)
    ensures var d' := AddPort(d, port, info, mappings, digest);
            && (MemberOf(port).filter != "" ==> MemberOf(port).filter in d'.filters)
            && (MemberOf(port).bind.Some? ==> MemberOf(port).typed)
            && d.filters.Keys <= d'.filters.Keys && d.physnets.Keys <= d'.physnets.Keys
            && (Trunk(port, mappings).Some? ==> port.physnet in d'.physnets)
  {
  }

  lemma StanzaGrows(d: Draft, d': Draft, b: Bridge)
    requires StanzaOk(d, b) && d.filters.Keys <= d'.filters.Keys && d.physnets.Keys <= d'.physnets.Keys
    ensures StanzaOk(d', b)
  {
  }

  lemma MemberJoins(d: Draft, b: Bridge, name: Name, m: Member)
    requires StanzaOk(d, b)
    requires m.filter != "" ==> m.filter in d.filters
    requires m.bind.Some? ==> m.typed
    ensures StanzaOk(d, b.(member := Put(b.member, name, m)))
  {
    PutValid(b.member, name, m);
  }

  lemma AddPortKeepsStanzas(d: Draft, port: Port, info: SgInfo, mappings: map<Name, Name>, digest: SegmentKey -> string)
    requires StanzasOk(d)
    ensures StanzasOk(AddPort(d, port, info, mappings, digest))
  {
    var d' := AddPort(d, port, info, mappings, digest);
    var name := BridgeName(KeyOf(port), digest);
    var stanza := if name in d.bridges.at then d.bridges.at[name] else EmptyBridge();
    MemberIsBacked(d, port, info, mappings, digest);
    assert StanzaOk(d, stanza);
    StanzaGrows(d, d', stanza);
    var placed := if Trunk(port, mappings).Some? then stanza.(segment := Some(SegmentOf(port))) else stanza;
    assert StanzaOk(d', placed);
    MemberJoins(d', placed, MemberName(port), MemberOf(port));
    PutValid(d.bridges, name, d'.bridges.at[name]);
    forall b | b in d'.bridges.at ensures StanzaOk(d', d'.bridges.at[b]) {
      if b != name {
        StanzaGrows(d, d', d.bridges.at[b]);
      }
    }
  }

  lemma {:induction false} DraftedStanzas(ports: seq<Port>, info: SgInfo, mappings: map<Name, Name>, digest: SegmentKey -> string)
    ensures StanzasOk(Drafted(ports, info, mappings, digest))
  {
    if ports != [] {
      var rest, port := ports[..|ports| - 1], ports[|ports| - 1];
      DraftedStanzas(rest, info, mappings, digest);
      AddPortKeepsStanzas(Drafted(rest, info, mappings, digest), port, info, mappings, digest);
    }
  }

  /** Port i of the list is the last to claim its place in its bridge. */
  ghost predicate LastInPlace(ports: seq<Port>, digest: SegmentKey -> string, i: nat) {
    && i < |ports|
    && forall j :: i < j < |ports| ==>
                     BridgeName(KeyOf(ports[j]), digest) != BridgeName(KeyOf(ports[i]), digest) || MemberName(ports[j]) != MemberName(ports[i])
  }

  /** Every port whose name is not taken again is a member of its segment's bridge. */
  lemma {:induction false} PortIsMember(ports: seq<Port>, info: SgInfo, mappings: map<Name, Name>, digest: SegmentKey -> string, i: nat)
    requires LastInPlace(ports, digest, i)
    ensures var at := Drafted(ports, info, mappings, digest).bridges.at;
            var b := BridgeName(KeyOf(ports[i]), digest);
            && b in at && MemberName(ports[i]) in at[b].member.at
            && at[b].member.at[MemberName(ports[i])] == MemberOf(ports[i])
  {
    hide MemberOf, MemberName, KeyOf, BridgeName, PortFilter, GroupsUsed, PortRules;
    var rest := ports[..|ports| - 1];
    if i < |rest| {
      assert ports[|ports| - 1] != ports[i];
      PortIsMember(rest, info, mappings, digest, i);
    }
  }

  // -------------------------------------------------------- filters and groups

  /** Port i of the list is the last secured one with its filter name. */
  ghost predicate LastWithFilter(ports: seq<Port>, i: nat) {
    && i < |ports| && IsSecured(ports[i])
    && forall j :: i < j < |ports| && IsSecured(ports[j]) ==> FilterName(ports[j].id) != FilterName(ports[i].id)
  }

  /** The remote groups the secured ports' rules name. */
  ghost function RemoteGroups(ports: seq<Port>, info: SgInfo): set<string> {
    set i, g | 0 <= i < |ports| && IsSecured(ports[i]) && g in GroupsUsed(PortRules(ports[i], info)) :: g
  }

  lemma {:induction false} DraftedGroups(ports: seq<Port>, info: SgInfo, mappings: map<Name, Name>, digest: SegmentKey -> string)
    ensures Drafted(ports, info, mappings, digest).used == RemoteGroups(ports, info)
  {
    hide GroupsUsed, PortRules, IsSecured;
    if ports != [] {
      DraftedGroups(ports[..|ports| - 1], info, mappings, digest);
      RemoteGroupsStep(ports, info);
    }
  }

  lemma DraftedLast(ports: seq<Port>, info: SgInfo, mappings: map<Name, Name>, digest: SegmentKey -> string)
    requires ports != []
    ensures var rest, port := ports[..|ports| - 1], ports[|ports| - 1];
            var before := Drafted(rest, info, mappings, digest).filters;
            Drafted(ports, info, mappings, digest).filters
            == if IsSecured(port) then before[FilterName(port.id) := PortFilter(port, info)] else before
  {
  }

  /** The last port with a filter name gives the filter. */
  lemma {:induction false} FilterOfPort(ports: seq<Port>, info: SgInfo, mappings: map<Name, Name>, digest: SegmentKey -> string, i: nat)
    requires LastWithFilter(ports, i)
    ensures var filters := Drafted(ports, info, mappings, digest).filters;
            FilterName(ports[i].id) in filters && filters[FilterName(ports[i].id)] == PortFilter(ports[i], info)
  {
    hide PortFilter, FilterName, IsSecured, Drafted;
    DraftedLast(ports, info, mappings, digest);
    if i < |ports| - 1 {
      LastFiltersStep(ports, i);
      FilterOfPort(ports[..|ports| - 1], info, mappings, digest, i);
    }
  }

  /** Every filter comes from such a port. */
  lemma {:induction false} PortOfFilter(ports: seq<Port>, info: SgInfo, mappings: map<Name, Name>, digest: SegmentKey -> string, f: Name)
      returns (i: nat)
    requires f in Drafted(ports, info, mappings, digest).filters
    ensures LastWithFilter(ports, i) && FilterName(ports[i].id) == f
  {
    DraftedLast(ports, info, mappings, digest);
    hide PortFilter, FilterName, IsSecured, Drafted, LastWithFilter;
    var rest, port := ports[..|ports| - 1], ports[|ports| - 1];
    if IsSecured(port) && FilterName(port.id) == f {
      i := |ports| - 1;
    } else {
      i := PortOfFilter(rest, info, mappings, digest, f);
    }
    LastFiltersStep(ports, i);
  }

  lemma RemoteGroupsStep(ports: seq<Port>, info: SgInfo)
    requires ports != []
    ensures var port := ports[|ports| - 1];
            RemoteGroups(ports, info) == RemoteGroups(ports[..|ports| - 1], info)
                                         + if IsSecured(port) then GroupsUsed(PortRules(port, info)) else {}
  {
    hide GroupsUsed, PortRules, IsSecured;
    var rest, port := ports[..|ports| - 1], ports[|ports| - 1];
    forall g | g in RemoteGroups(rest, info) ensures g in RemoteGroups(ports, info) {
      var i :| 0 <= i < |rest| && IsSecured(rest[i]) && g in GroupsUsed(PortRules(rest[i], info));
      assert ports[i] == rest[i];
    }
    forall g | g in RemoteGroups(ports, info)
      ensures g in RemoteGroups(rest, info) || (IsSecured(port) && g in GroupsUsed(PortRules(port, info)))
    {
      var i :| 0 <= i < |ports| && IsSecured(ports[i]) && g in GroupsUsed(PortRules(ports[i], info));
      if i < |rest| {
        assert rest[i] == ports[i];
      }
    }
  }

  lemma LastFiltersStep(ports: seq<Port>, i: nat)
    requires ports != []
    ensures var rest, port := ports[..|ports| - 1], ports[|ports| - 1];
            LastWithFilter(ports, i) <==>
              (i == |ports| - 1 && IsSecured(port))
              || (i < |ports| - 1 && LastWithFilter(rest, i) && !(IsSecured(port) && FilterName(port.id) == FilterName(ports[i].id)))
  {
    hide IsSecured, FilterName;
    var rest := ports[..|ports| - 1];
    if i < |rest| {
      assert rest[i] == ports[i];
      forall j | i < j < |rest| ensures rest[j] == ports[j] {}
    }
  }

  // ------------------------------------------------------- tables of a filter

  /** A prefix that is spelled like a table reference but names no table of these groups. */
  ghost predicate Strays(used: set<string>, r: SgRule) {
    && Kept(r) && Prefix(r) != "" && Prefix(r)[0] == '@'
    && forall g :: g in used ==> TableName(g) != Prefix(r)[1..]
  }

  /** Every table a filter refers to belongs to one of these groups. */
  ghost predicate DrawsOn(used: set<string>, f: Filter) {
    forall t :: t in TablesReferenced(Some(f)) ==> exists g :: g in used && TableName(g) == t
  }

  predicate NamesTable(r: SgRule, t: Name) {
    if Prefix(r) != "" then Prefix(r)[0] == '@' && Prefix(r)[1..] == t
    else r.remoteGroup != "" && TableName(r.remoteGroup) == t
  }

  lemma RemoteTable(r: SgRule, t: Name)
    requires Kept(r)
    ensures NamesTable(r, t) <==> RuleOf(BodyOf(r)).from_ == TableRef(t) || RuleOf(BodyOf(r)).to == TableRef(t)
  {
    var reference := "@" + TableName(r.remoteGroup);
    assert reference[0] == '@' && reference[1..] == TableName(r.remoteGroup);
    assert "any"[0] == 'a';
    assert ParseRef("any") == AnyRef;
    assert ParseRef(Remote(r)) == TableRef(t) <==> NamesTable(r, t);
  }

  /** Some kept rule names a table, in one direction. */
  ghost predicate RulesName(rules: seq<SgRule>, d: SgDirection, t: Name) {
    exists j :: 0 <= j < |rules| && Kept(rules[j]) && rules[j].direction == d && NamesTable(rules[j], t)
  }

  lemma NamedIsReferenced(rules: seq<SgRule>, d: SgDirection, t: Name)
    requires RulesName(rules, d, t)
    ensures t in RuleTables(PortTable(rules, d))
  {
    var j :| 0 <= j < |rules| && Kept(rules[j]) && rules[j].direction == d && NamesTable(rules[j], t);
    var bodies := SortBodies(Bodies(rules, d));
    BodiesComeFrom(rules, d, BodyOf(rules[j]));
    SortedBodyIsBody(Bodies(rules, d), BodyOf(rules[j]));
    RemoteTable(rules[j], t);
    var i :| 0 <= i < |bodies| && bodies[i] == BodyOf(rules[j]);
    assert RuleList(bodies)[i] in RuleList(bodies);
    TableHasAll(if d.Ingress? then DHCP_CLIENT_PORT else DHCP_SERVER_PORT, RuleList(bodies));
    var n :| n in PortTable(rules, d) && PortTable(rules, d)[n] == RuleOf(BodyOf(rules[j]));
  }

  lemma ReferencedIsNamed(rules: seq<SgRule>, d: SgDirection, t: Name)
    requires t in RuleTables(PortTable(rules, d))
    ensures RulesName(rules, d, t)
  {
    hide Kept, NamesTable, BodyOf, Bodies;
    var table, bodies := PortTable(rules, d), SortBodies(Bodies(rules, d));
    var n :| n in table && (table[n].from_ == TableRef(t) || table[n].to == TableRef(t));
    TableHolds(if d.Ingress? then DHCP_CLIENT_PORT else DHCP_SERVER_PORT, RuleList(bodies), n);
    var i :| 0 <= i < |RuleList(bodies)| && RuleList(bodies)[i] == table[n];
    assert bodies[i] in bodies;
    SortedBodyIsBody(Bodies(rules, d), bodies[i]);
    BodiesComeFrom(rules, d, bodies[i]);
    var j :| 0 <= j < |rules| && Kept(rules[j]) && rules[j].direction == d && BodyOf(rules[j]) == bodies[i];
    RemoteTable(rules[j], t);
  }

  /** A port's filter refers to exactly the tables its kept rules name. */
  lemma FilterTables(port: Port, info: SgInfo, t: Name)
    ensures t in TablesReferenced(Some(PortFilter(port, info))) <==>
              RulesName(PortRules(port, info), Ingress, t) || RulesName(PortRules(port, info), Egress, t)
  {
    var rules := PortRules(port, info);
    assert PortFilter(port, info) == Filter(PortTable(rules, Ingress), PortTable(rules, Egress));
    forall d: SgDirection | d == Ingress || d == Egress ensures RulesName(rules, d, t) <==> t in RuleTables(PortTable(rules, d)) {
      if RulesName(rules, d, t) { NamedIsReferenced(rules, d, t); }
      if t in RuleTables(PortTable(rules, d)) { ReferencedIsNamed(rules, d, t); }
    }
  }

  lemma GroupIsUsed(rules: seq<SgRule>, j: nat)
    requires j < |rules| && Kept(rules[j]) && NamesGroup(rules[j])
    ensures rules[j].remoteGroup in GroupsUsed(rules)
  {
  }

  lemma StrayIsNotDrawn(port: Port, info: SgInfo, used: set<string>, j: nat)
    requires j < |PortRules(port, info)| && Strays(used, PortRules(port, info)[j])
    ensures !DrawsOn(used, PortFilter(port, info))
  {
    var r := PortRules(port, info)[j];
    var t := Prefix(r)[1..];
    FilterTables(port, info, t);
    assert NamesTable(r, t);
    hide PortRules, PortFilter;
    assert RulesName(PortRules(port, info), r.direction, t);
  }

  lemma NamedIsDrawn(rules: seq<SgRule>, d: SgDirection, t: Name, used: set<string>)
    requires RulesName(rules, d, t) && GroupsUsed(rules) <= used
    requires forall j :: 0 <= j < |rules| ==> !Strays(used, rules[j])
    ensures exists g :: g in used && TableName(g) == t
  {
    var j :| 0 <= j < |rules| && Kept(rules[j]) && rules[j].direction == d && NamesTable(rules[j], t);
    assert !Strays(used, rules[j]);
    if NamesGroup(rules[j]) {
      GroupIsUsed(rules, j);
    }
  }

  /** Given its own groups, a port's filter draws on them unless one of its rules strays. */
  lemma DrawsUnlessStrays(port: Port, info: SgInfo, used: set<string>)
    requires GroupsUsed(PortRules(port, info)) <= used
    ensures DrawsOn(used, PortFilter(port, info)) <==>
              forall j :: 0 <= j < |PortRules(port, info)| ==> !Strays(used, PortRules(port, info)[j])
  {
    hide PortRules, PortFilter, TableName, Strays, RulesName;
    var rules := PortRules(port, info);
    forall j | 0 <= j < |rules| && Strays(used, rules[j]) ensures !DrawsOn(used, PortFilter(port, info)) {
      StrayIsNotDrawn(port, info, used, j);
    }
    if forall j :: 0 <= j < |rules| ==> !Strays(used, rules[j]) {
      forall t | t in TablesReferenced(Some(PortFilter(port, info))) ensures exists g :: g in used && TableName(g) == t {
        FilterTables(port, info, t);
        NamedIsDrawn(rules, if RulesName(rules, Ingress, t) then Ingress else Egress, t, used);
      }
    }
  }

  // ------------------------------------------------------------------- tables

  lemma {:induction false} TablesForKeys(groups: seq<string>, info: SgInfo, t: Name)
    ensures t in TablesFor(groups, info) <==> exists g :: g in groups && TableName(g) == t
  {
    if groups != [] {
      TablesForKeys(groups[..|groups| - 1], info, t);
      assert groups == groups[..|groups| - 1] + [groups[|groups| - 1]];
    }
  }

  /** A group whose table name no other group takes has its own addresses there. */
  lemma {:induction false} TableOfGroup(groups: seq<string>, info: SgInfo, g: string)
    requires g in groups && forall h :: h in groups && TableName(h) == TableName(g) ==> h == g
    ensures TableName(g) in TablesFor(groups, info) && TablesFor(groups, info)[TableName(g)] == GroupIps(info, g)
  {
    var rest, last := groups[..|groups| - 1], groups[|groups| - 1];
    assert groups == rest + [last];
    if last != g {
      TableOfGroup(rest, info, g);
    }
  }

  lemma FilterResolves(d: Draft, info: SgInfo, f: Filter)
    ensures FilterResolved(TreeOf(d, info), f) <==> DrawsOn(d.used, f)
  {
    var c := TreeOf(d, info);
    forall t ensures t in c.table <==> exists g :: g in d.used && TableName(g) == t {
      TablesForKeys(Sorted(d.used), info, t);
    }
    TablesResolve(c, f);
  }

  lemma TablesResolve(c: Config, f: Filter)
    ensures FilterResolved(c, f) <==> TablesReferenced(Some(f)) <= c.table.Keys
  {
    forall rules: map<nat, Rule> | rules == f.in_ || rules == f.out ensures RulesResolved(c, rules) <==> RuleTables(rules) <= c.table.Keys {
      if RuleTables(rules) <= c.table.Keys {
        forall n | n in rules ensures RefResolved(c, rules[n].from_) && RefResolved(c, rules[n].to) {
          assert rules[n].from_.TableRef? ==> rules[n].from_.table in RuleTables(rules);
          assert rules[n].to.TableRef? ==> rules[n].to.table in RuleTables(rules);
        }
      }
    }
  }

  // --------------------------------------------------------------- the closure

  /** Some filter of the document comes from a port with a stray rule. */
  ghost predicate SomeStray(ports: seq<Port>, info: SgInfo) {
    exists i: nat, j :: LastWithFilter(ports, i) && 0 <= j < |PortRules(ports[i], info)|
                   && Strays(RemoteGroups(ports, info), PortRules(ports[i], info)[j])
  }

  lemma FiltersResolve(ports: seq<Port>, info: SgInfo, mappings: map<Name, Name>, digest: SegmentKey -> string)
    ensures var d := Drafted(ports, info, mappings, digest);
            (forall f :: f in d.filters ==> DrawsOn(d.used, d.filters[f])) <==> !SomeStray(ports, info)
  {
    var d := Drafted(ports, info, mappings, digest);
    DraftedGroups(ports, info, mappings, digest);
    hide PortFilter, DrawsOn, Strays, PortRules, Drafted;
    forall i: nat | LastWithFilter(ports, i)
      ensures FilterName(ports[i].id) in d.filters && d.filters[FilterName(ports[i].id)] == PortFilter(ports[i], info)
    {
      FilterOfPort(ports, info, mappings, digest, i);
    }
    forall f | f in d.filters ensures exists i: nat :: LastWithFilter(ports, i) && FilterName(ports[i].id) == f {
      var i := PortOfFilter(ports, info, mappings, digest, f);
    }
    forall i: nat | LastWithFilter(ports, i)
      ensures DrawsOn(d.used, PortFilter(ports[i], info)) <==>
                forall j :: 0 <= j < |PortRules(ports[i], info)| ==> !Strays(d.used, PortRules(ports[i], info)[j])
    {
      DrawsUnlessStrays(ports[i], info, d.used);
    }
  }

  lemma TreeResolves(d: Draft, info: SgInfo)
    requires StanzasOk(d)
    ensures Resolved(TreeOf(d, info)) <==> forall f :: f in d.filters ==> DrawsOn(d.used, d.filters[f])
  {
    var c := TreeOf(d, info);
    forall b | b in c.bridge.at ensures BridgeResolved(c, c.bridge.at[b]) {
      assert StanzaOk(d, d.bridges.at[b]);
    }
    forall f | f in d.filters ensures FilterResolved(c, c.filter[f]) <==> DrawsOn(d.used, d.filters[f]) {
      FilterResolves(d, info, d.filters[f]);
    }
  }

  /** The dangling-reference checks fire exactly when some kept rule's prefix is spelled like
      a table reference, `@` and a name, that no remote group's table has. */
  lemma DanglesExactlyWhenStray(ports: seq<Port>, info: SgInfo, mappings: map<Name, Name>, digest: SegmentKey -> string)
    ensures Resolved(TreeOf(Drafted(ports, info, mappings, digest), info)) <==> !SomeStray(ports, info)
    ensures Built(ports, info, mappings, digest) == Err(DanglingReference) <==>
              FieldsOk(TreeOf(Drafted(ports, info, mappings, digest), info)) && SomeStray(ports, info)
  {
    DraftedStanzas(ports, info, mappings, digest);
    FiltersResolve(ports, info, mappings, digest);
    TreeResolves(Drafted(ports, info, mappings, digest), info);
  }

  /** A rule whose prefix is spelled as a table reference, and a secured port in its group. */
  const STRAY_RULE := SgRule(Ingress, false, None, None, None, "@rg-x", "", "")
  const STRAY_PORT := Port("p", "compute:x", "vlan", "physnet", Some(7), "n", "", [], true)
  const STRAY_INFO := SgInfo(map["g" := [STRAY_RULE]], map["p" := ["g"]], map[])

  lemma StrayRules()
    ensures PortRules(STRAY_PORT, STRAY_INFO) == [STRAY_RULE]
  {
    var ids := ["g"];
    assert ids[..0] == [] && RulesOf(STRAY_INFO.groups, []) == [];
    assert RulesOf(STRAY_INFO.groups, ids) == RulesOf(STRAY_INFO.groups, ids[..0]) + STRAY_INFO.groups["g"];
  }

  /** The document built of one port can fail its own dangling-reference checks. */
  lemma AStrayPrefixDangles(mappings: map<Name, Name>, digest: SegmentKey -> string)
    ensures !Resolved(TreeOf(Drafted([STRAY_PORT], STRAY_INFO, mappings, digest), STRAY_INFO))
  {
    var ports := [STRAY_PORT];
    StrayRules();
    assert LastWithFilter(ports, 0);
    assert GroupsUsed([STRAY_RULE]) == {};
    assert RemoteGroups(ports, STRAY_INFO) == {};
    assert Strays(RemoteGroups(ports, STRAY_INFO), PortRules(ports[0], STRAY_INFO)[0]);
    DanglesExactlyWhenStray(ports, STRAY_INFO, mappings, digest);
    hide Drafted;
  }

  /** The prefixes of the secured ports' rules are CIDRs, as Neutron validates them. */
  ghost predicate PlainPorts(ports: seq<Port>, info: SgInfo) {
    forall i, j :: 0 <= i < |ports| && IsSecured(ports[i]) && 0 <= j < |PortRules(ports[i], info)| && Kept(PortRules(ports[i], info)[j]) ==>
                     PlainPrefix(PortRules(ports[i], info)[j])
  }

  lemma PlainPortsDoNotStray(ports: seq<Port>, info: SgInfo)
    requires PlainPorts(ports, info)
    ensures !SomeStray(ports, info)
  {
    hide PortRules, RemoteGroups, Kept, IsSecured;
  }

  /** With CIDR prefixes, every physnet, filter and table the built document names it also
      defines, and the tables of every filter are there to be looked up. */
  lemma BuildCloses(ports: seq<Port>, info: SgInfo, mappings: map<Name, Name>, digest: SegmentKey -> string)
    requires PlainPorts(ports, info)
    ensures var c := TreeOf(Drafted(ports, info, mappings, digest), info);
            && Valid(c)
            && (forall f :: f in c.filter ==> TablesReferenced(Some(c.filter[f])) <= c.table.Keys)
    ensures Built(ports, info, mappings, digest) != Err(DanglingReference)
  {
    hide Drafted, PlainPorts, SomeStray, FieldsOk, TablesReferenced;
    var c := TreeOf(Drafted(ports, info, mappings, digest), info);
    PlainPortsDoNotStray(ports, info);
    DanglesExactlyWhenStray(ports, info, mappings, digest);
    DraftedStanzas(ports, info, mappings, digest);
    forall b | b in c.bridge.at ensures c.bridge.at[b].member.Valid() {
      assert StanzaOk(Drafted(ports, info, mappings, digest), c.bridge.at[b]);
    }
    assert Resolved(c);
    forall f | f in c.filter ensures TablesReferenced(Some(c.filter[f])) <= c.table.Keys {
      ResolvedTables(c, f);
    }
  }

  /** A built document binds typed members only. */
  lemma BoundMembersAreTyped(ports: seq<Port>, info: SgInfo, mappings: map<Name, Name>, digest: SegmentKey -> string, b: Name, m: Name)
    requires Built(ports, info, mappings, digest).Ok?
    requires var at := Built(ports, info, mappings, digest).value.bridge.at;
             b in at && m in at[b].member.at && at[b].member.at[m].bind.Some?
    ensures Built(ports, info, mappings, digest).value.bridge.at[b].member.at[m].typed
  {
    DraftedStanzas(ports, info, mappings, digest);
    assert StanzaOk(Drafted(ports, info, mappings, digest), Built(ports, info, mappings, digest).value.bridge.at[b]);
  }
}
