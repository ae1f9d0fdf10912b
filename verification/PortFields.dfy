/**
 Names and members of a built document, said of the ports' own fields. Three processes compute the
 names independently, so their spelling is part of the design.
 */
module PortFields {
  import opened Collections
  import opened Model
  import opened Pf
  import opened Ops
  import opened KernelModel
  import opened View
  import opened Planner
  import opened Reading
  import opened PlanContents
  import opened AddsPhase
  import opened Realization
  import opened Convergence
  import opened Names
  import opened PortConfig
  import opened PfSemantics
  import opened Policies
  import opened Compiler
  import opened Assembly
  import opened Enforcement
  import opened PlanFields

  // ------------------------------------------------------------------- names

  /** The first n characters, or all there are. */
  function First(s: string, n: nat): string {
    s[..if |s| < n then |s| else n]
  }

  /** Interface names fit the kernel's limit, and tell kinds apart; two ports have one name of a kind
      exactly when their ids begin alike. */
  lemma InterfaceNames(p: string, q: string)
    ensures |TapName(p)| <= 15 && |DhcpIfName(p)| <= 15 && |RouterIfName(p)| <= 15
    ensures TapName(p) == TapName(q) <==> First(p, 11) == First(q, 11)
    ensures DhcpIfName(p) == DhcpIfName(q) <==> First(p, 13) == First(q, 13)
    ensures RouterIfName(p) == RouterIfName(q) <==> First(p, 13) == First(q, 13)
    ensures TapName(p) != DhcpIfName(q) && TapName(p) != RouterIfName(q) && DhcpIfName(p) != RouterIfName(q)
  {
    assert TapName(p)[..3] == "tap" && TapName(p)[3..] == First(p, 11) && TapName(q)[3..] == First(q, 11);
    assert DhcpIfName(p)[2..] == First(p, 13) && DhcpIfName(q)[2..] == First(q, 13);
    assert RouterIfName(p)[2..] == First(p, 13) && RouterIfName(q)[2..] == First(q, 13);
    assert TapName(p)[0] == 't' && DhcpIfName(p)[0] == 'd' && DhcpIfName(q)[0] == 'd' && RouterIfName(q)[0] == 'r';
  }

  lemma {:induction false} WithoutDashesConcat(a: string, b: string)
    ensures WithoutDashes(a + b) == WithoutDashes(a) + WithoutDashes(b)
  {
    if a == "" {
      assert a + b == b;
    } else {
      assert (a + b)[1..] == a[1..] + b;
      WithoutDashesConcat(a[1..], b);
    }
  }

  lemma {:induction false} NoDash(s: string)
    requires '-' !in s
    ensures WithoutDashes(s) == s
  {
    if s != "" {
      NoDash(s[1..]);
    }
  }

  /** A UUID's jail is named after its first twelve digits. */
  lemma JailNames(a: string, b: string, rest: string)
    requires '-' !in a && '-' !in b && |a| == 8 && |b| == 4
    ensures DhcpJail(a + "-" + b + "-" + rest) == "qdhcp-" + a + b
    ensures RouterJail(a + "-" + b + "-" + rest) == "qrouter-" + a + b
  {
    var id := a + "-" + b + "-" + rest;
    assert id == a + ("-" + (b + ("-" + rest)));
    WithoutDashesConcat(a, "-" + (b + ("-" + rest)));
    WithoutDashesConcat("-", b + ("-" + rest));
    WithoutDashesConcat(b, "-" + rest);
    NoDash(a);
    NoDash(b);
    assert WithoutDashes("-") == "" by {
      assert "-"[1..] == "";
    }
    TwelveDigits(id, a, b, WithoutDashes("-" + rest));
  }

  lemma TwelveDigits(id: string, a: string, b: string, rest: string)
    requires WithoutDashes(id) == a + ("" + (b + rest)) && |a| == 8 && |b| == 4
    ensures DhcpJail(id) == "qdhcp-" + a + b && RouterJail(id) == "qrouter-" + a + b
  {
    hide WithoutDashes;
    assert WithoutDashes(id) == a + b + rest;
    assert (a + b + rest)[..12] == a + b;
    assert Take(WithoutDashes(id), 12) == a + b;
    assert "qdhcp-" + (a + b) == "qdhcp-" + a + b && "qrouter-" + (a + b) == "qrouter-" + a + b;
  }

  /** The spelling that servers, hypervisors and agents agree on. */
  lemma NamesAsSpelled(id: string)
    requires |id| > 13
    ensures TapName(id) == "tap" + id[..11] && DhcpIfName(id) == "dh" + id[..13] && RouterIfName(id) == "rt" + id[..13]
    ensures RouterJailIf(id, true) == "qg-" + id[..11] && RouterJailIf(id, false) == "qr-" + id[..11]
    ensures FilterName(id) == "sg-" + id[..12] && TableName(id) == "rg-" + id[..12]
  {
  }

  // ------------------------------------------------------------------ members

  /** The port is an agent's: DHCP's, or a router's. */
  predicate IsAgents(port: Port) {
    "network:dhcp" <= port.owner || "network:router_interface" <= port.owner || "network:router_gateway" <= port.owner
  }

  /** A port is secured when Neutron says so and it is no agent's. */
  lemma SecuredExactly(port: Port)
    ensures IsSecured(port) <==> port.portSecurity && !IsAgents(port)
  {
  }

  /** A port's interface: which hands bring it, what it is called, and what stands in its stanza. */
  lemma MemberFields(port: Port)
    ensures MemberName(port) == if "network:dhcp" <= port.owner then "dh" + First(port.id, 13)
                                else if IsAgents(port) then "rt" + First(port.id, 13)
                                else "tap" + First(port.id, 11)
    ensures MemberOf(port).typed <==> !IsAgents(port)
    ensures MemberOf(port).description == "neutron port " + port.id
    ensures MemberOf(port).filter == if port.portSecurity && !IsAgents(port) then "sg-" + First(port.id, 12) else ""
    ensures MemberOf(port).bind.Some? <==> port.portSecurity && !IsAgents(port) && exists a :: LockedTo(port, a)
    ensures MemberOf(port).bind.Some? ==> MemberOf(port).bind.value.mac == port.mac && LockedTo(port, MemberOf(port).bind.value.address)
  {
    if PortBind(port).Some? {
      BindExactly(port, PortBind(port).value.mac, PortBind(port).value.address);
    }
    if a :| LockedTo(port, a) {
      BindExactly(port, port.mac, a);
    }
    hide LockedTo, PortBind;
  }

  // ------------------------------------------------------------ in the kernel

  /** After one fault-free pass from home, a port's interface, if it is there, sits in its segment's bridge;
      it has an anchor exactly when the port is secured, and a locked one has its MAC in the static entry. */
  lemma PassAttachesPorts(c: Config, ports: seq<Port>, info: SgInfo, mappings: map<Name, Name>, digest: SegmentKey -> string, i: nat,
                          k: Kernel, v: KernelInterfaces, pf: PfState)
    requires BuiltFrom(c, ports, info, mappings, digest) && LastInPlace(ports, digest, i)
    requires Situation(c, k, v, pf) && Ready(c, k) && Home(c, k)
    ensures Executable(PlannedPhases(c, v, Some(pf)).Ops(), k)
    ensures var k' := Apply(PlannedPhases(c, v, Some(pf)).Ops(), k);
            var b, x := BridgeName(KeyOf(ports[i]), digest), MemberName(ports[i]);
            && (!IsAgents(ports[i]) ==> x in k'.ifs)
            && (x in k'.ifs ==> InBridge(k', b, x) && (x in k'.anchors <==> ports[i].portSecurity && !IsAgents(ports[i])))
            && (ports[i].portSecurity && !IsAgents(ports[i]) && (exists a :: LockedTo(ports[i], a)) ==> Get(k'.lock, x) == Some(ports[i].mac))
  {
    OnePassConverges(c, k, v, pf);
    var k' := Apply(PlannedPhases(c, v, Some(pf)).Ops(), k);
    assert Resolved(c) && Valid(c) && Distinct(c) && RealizedBut(c, k', {});
    hide Situation, Ready, Home, Realized, RealizedBut, PlannedPhases, Executable, Apply, Distinct, Valid, Resolved, BuiltFrom, LastInPlace,
      MemberName, KeyOf, LockedTo, IsAgents;
    PortIsAttached(c, ports, info, mappings, digest, i, k');
  }

  lemma PortIsAttached(c: Config, ports: seq<Port>, info: SgInfo, mappings: map<Name, Name>, digest: SegmentKey -> string, i: nat, k: Kernel)
    requires BuiltFrom(c, ports, info, mappings, digest) && LastInPlace(ports, digest, i)
    requires Valid(c) && Resolved(c) && Distinct(c) && RealizedBut(c, k, {})
    ensures i < |ports|
    ensures var b, x := BridgeName(KeyOf(ports[i]), digest), MemberName(ports[i]);
            && (!IsAgents(ports[i]) ==> x in k.ifs)
            && (x in k.ifs ==> InBridge(k, b, x) && (x in k.anchors <==> ports[i].portSecurity && !IsAgents(ports[i])))
            && (ports[i].portSecurity && !IsAgents(ports[i]) && (exists a :: LockedTo(ports[i], a)) ==> Get(k.lock, x) == Some(ports[i].mac))
  {
    RealizedIsDone(c, k);
    PortIsMember(ports, info, mappings, digest, i);
    MemberFields(ports[i]);
    var b, x := BridgeName(KeyOf(ports[i]), digest), MemberName(ports[i]);
    hide RealizedBut, BridgeDone, MemberOf, MemberName, KeyOf, LockedTo, Drafted, IsAgents, Valid, Distinct;
    PortIsDone(c, ports, info, mappings, digest, i, k);
    AnchorsOnlyPolicied(c, k, b, x);
    PolicyExactly(c, b, x);
  }

  /** An interface that one bridge claims has an anchor only if its stanza has a filter or a binding. */
  lemma AnchorsOnlyPolicied(c: Config, k: Kernel, b: Name, x: Name)
    requires Valid(c) && Distinct(c) && RealizedBut(c, k, {}) && b in c.bridge.at && x in c.bridge.at[b].member.at
    ensures x in k.anchors ==> c.bridge.at[b].member.at[x].filter != "" || c.bridge.at[b].member.at[x].bind.Some?
  {
    assert x in c.bridge.at[b].member.keys;
    assert Claims(c, b, x);
    if x in k.anchors {
      assert Policied(c, x);
      var b' :| b' in c.bridge.at && x in c.bridge.at[b'].member.at
                && (c.bridge.at[b'].member.at[x].filter != "" || c.bridge.at[b'].member.at[x].bind.Some?);
      assert x in c.bridge.at[b'].member.keys;
      assert Claims(c, b', x);
    }
    hide BridgeRealized, NoConflict, Parked;
  }
}
