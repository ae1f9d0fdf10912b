/**
 What a settled L3 plane and a provided DHCP network hold, said of the fields of routers, ports
 and networks: routes, interfaces, MACs, addresses and the text the L2 agent looks for.
 */
module SettledPlane {
  import opened Collections
  import opened Model
  import opened Names
  import opened JailPlane
  import opened Plumbing
  import opened Acting
  import opened PortPlane
  import opened Disk
  import opened RouterSpec
  import opened Routing

  // ------------------------------------------------------------------- routes

  /** The router wants this route: one of its own, or the default through its gateway. */
  predicate WantsRoute(r: Router, destination: string, nexthop: Addr) {
    || Hop(destination, nexthop) in r.routes
    || (destination == "0.0.0.0/0" && nexthop != "" && r.gateway.Some? && r.gateway.value.gatewayIp == Some(nexthop))
  }

  lemma RoutesAreWanted(r: Router, destination: string, nexthop: Addr)
    ensures Hop(destination, nexthop) in Routes(r) <==> WantsRoute(r, destination, nexthop)
  {
  }

  /** In a settled plane a router's jail has exactly the routes it wants; the gateway's is among them. */
  lemma SettledRoutes(k: World, dirs: Dirs, desired: seq<Router>, i: nat)
    requires OnlyDesired(k, dirs, desired) && i < |desired|
    ensures RouterJail(desired[i].id) in k.jails
    ensures var routes := k.jails[RouterJail(desired[i].id)].routes;
            && (forall d, g :: (d in routes && routes[d] == g) <==> WantsRoute(desired[i], d, g))
            && (desired[i].gateway.Some? && desired[i].gateway.value.gatewayIp.Some? && desired[i].gateway.value.gatewayIp.value != "" ==>
                  "0.0.0.0/0" in routes && routes["0.0.0.0/0"] == desired[i].gateway.value.gatewayIp.value)
  {
    hide Routes, RouterJail, WantsRoute, Grouped, DesiredIfs;
    assert JailDone(k, desired[i]);
    var routes := k.jails[RouterJail(desired[i].id)].routes;
    forall d, g ensures (d in routes && routes[d] == g) <==> WantsRoute(desired[i], d, g) {
      RoutesAreWanted(desired[i], d, g);
    }
    GatewayIsWanted(desired[i]);
  }

  lemma GatewayIsWanted(r: Router)
    ensures r.gateway.Some? && r.gateway.value.gatewayIp.Some? && r.gateway.value.gatewayIp.value != "" ==>
              WantsRoute(r, "0.0.0.0/0", r.gateway.value.gatewayIp.value)
  {
  }

  // ------------------------------------------------------------------- ports

  /** The port is the router's gateway, or one of its interfaces. */
  predicate IsPort(r: Router, port: RouterPort, gateway: bool) {
    if gateway then r.gateway == Some(port) else port in r.interfaces
  }

  /** The port wants this address: one of its own, or on the gateway a floating one. */
  predicate WantsInet(r: Router, port: RouterPort, gateway: bool, a: Addr, prefix: nat) {
    Inet(a, prefix) in port.ips || (gateway && prefix == 32 && a in r.floating)
  }

  lemma {:induction false} InterfaceSpecAt(r: Router, n: nat, i: nat)
    requires i < n <= |r.interfaces|
    ensures i < |InterfaceSpecs(r, n)| && InterfaceSpecs(r, n)[i] == SpecOf(r, r.interfaces[i], false)
    ensures |InterfaceSpecs(r, n)| == n
  {
    if n > 1 {
      if i < n - 1 {
        InterfaceSpecAt(r, n - 1, i);
      } else {
        InterfaceSpecAt(r, n - 1, 0);
      }
    }
  }

  lemma RouterHasSpec(r: Router, port: RouterPort, gateway: bool) returns (a: nat)
    requires IsPort(r, port, gateway)
    ensures a < |Specs(r)| && Specs(r)[a] == SpecOf(r, port, gateway)
  {
    hide SpecOf, InterfaceSpecs;
    if gateway {
      a := 0;
    } else {
      var n :| 0 <= n < |r.interfaces| && r.interfaces[n] == port;
      InterfaceSpecAt(r, |r.interfaces|, n);
      a := n + if r.gateway.Some? then 1 else 0;
    }
  }

  lemma PortHasSpec(desired: seq<Router>, i: nat, port: RouterPort, gateway: bool) returns (a: nat)
    requires i < |desired| && IsPort(desired[i], port, gateway)
    ensures a < |AllSpecs(desired)| && AllSpecs(desired)[a] == SpecOf(desired[i], port, gateway)
  {
    hide AllSpecs, Specs, SpecOf, SpecsUpTo, IsPort;
    SpecsStand(desired, i);
    var b := RouterHasSpec(desired[i], port, gateway);
    a := |SpecsUpTo(desired, i)| + b;
  }

  lemma SpecInets(r: Router, port: RouterPort, gateway: bool, a: Addr, prefix: nat)
    requires Functional(SpecOf(r, port, gateway).ips)
    ensures var inets := AsMap(SpecOf(r, port, gateway).ips);
            (a in inets && inets[a] == prefix) <==> WantsInet(r, port, gateway, a, prefix)
  {
    var ips := SpecOf(r, port, gateway).ips;
    AsMapHas(ips, Inet(a, prefix));
    if gateway {
      var floating := Floating(r.floating);
      if a in r.floating && prefix == 32 {
        var i :| 0 <= i < |r.floating| && r.floating[i] == a;
        assert floating[i] == Inet(a, 32);
      }
    }
  }

  /** In a settled plane every port has its epair under the port's names, described for the L2 agent, with
      the port's MAC and exactly the addresses it wants. */
  lemma SettledPort(k: World, dirs: Dirs, desired: seq<Router>, i: nat, port: RouterPort, gateway: bool)
    requires Settled(k, dirs, desired) && Distinct(desired) && i < |desired| && IsPort(desired[i], port, gateway)
    ensures var host, inner := HostAt(RouterIfName(port.id)), InnerAt(RouterJail(desired[i].id), RouterJailIf(port.id, gateway));
            && host in k.nics && inner in k.nics && k.nics[host].peer == Some(inner)
            && k.nics[host].grouped && k.nics[host].descr == "neutron port " + port.id
            && k.nics[inner].mac == port.mac
            && (forall a, n: nat :: (a in k.nics[inner].inets && k.nics[inner].inets[a] == n) <==> WantsInet(desired[i], port, gateway, a, n))
  {
    hide Sound, AllSpecs, OnlyDesired, Apart, RouterJail, RouterIfName, RouterJailIf, WantsInet, AsMap, Functional;
    var s := SpecOf(desired[i], port, gateway);
    var b := PortHasSpec(desired, i, port, gateway);
    assert SpecDone(k.nics, s) && Functional(s.ips);
    forall a, n: nat ensures (a in AsMap(s.ips) && AsMap(s.ips)[a] == n) <==> WantsInet(desired[i], port, gateway, a, n) {
      SpecInets(desired[i], port, gateway, a, n);
    }
  }
}

module ProvidedNetwork {
  import opened Collections
  import opened Model
  import opened Names
  import opened JailPlane
  import opened Plumbing
  import opened Acting
  import opened PortPlane
  import opened Dnsmasq

  /** After a pass every network has its epair under its port's names, described for the L2 agent, with
      the port's MAC; its addresses are the wanted ones, but for any that had another prefix length. */
  lemma NetworkHas(k0: World, k: World, s: Service, desired: seq<Network>, i: nat)
    requires Provided(k0, k, s, desired) && DistinctNetworks(desired) && i < |desired|
    ensures var n, host, inner := desired[i], HostAt(DhcpIfName(desired[i].port)), InnerAt(DhcpJail(desired[i].id), "dhcp0");
            && host in k.nics && inner in k.nics && k.nics[host].peer == Some(inner)
            && k.nics[host].grouped && k.nics[host].descr == "neutron port " + n.port
            && k.nics[inner].mac == n.mac
            && (forall a, p: nat :: a in k.nics[inner].inets && k.nics[inner].inets[a] == p ==> Inet(a, p) in n.ips)
            && (!(host in k0.nics && inner in k0.nics) ==>
                  forall a, p: nat :: Inet(a, p) in n.ips ==> a in k.nics[inner].inets && k.nics[inner].inets[a] == p)
  {
    var spec := NetSpecs(desired)[i];
    assert spec == NetSpec(desired[i]) && PortAs(k0.nics, k.nics, spec) && Functional(spec.ips);
    SpecHas(k0, k, desired[i]);
  }

  lemma SpecHas(k0: World, k: World, n: Network)
    requires PortAs(k0.nics, k.nics, NetSpec(n)) && Functional(n.ips)
    ensures var host, inner := HostAt(DhcpIfName(n.port)), InnerAt(DhcpJail(n.id), "dhcp0");
            && host in k.nics && inner in k.nics && k.nics[host].peer == Some(inner)
            && k.nics[host].grouped && k.nics[host].descr == "neutron port " + n.port
            && k.nics[inner].mac == n.mac
            && (forall a, p: nat :: a in k.nics[inner].inets && k.nics[inner].inets[a] == p ==> Inet(a, p) in n.ips)
            && (!(host in k0.nics && inner in k0.nics) ==>
                  forall a, p: nat :: Inet(a, p) in n.ips ==> a in k.nics[inner].inets && k.nics[inner].inets[a] == p)
  {
    hide DhcpIfName, DhcpJail, Functional, AsMap, Renumbered;
    RenumberedKept(Before(k0.nics, NetSpec(n).pair), n.ips);
    forall a, p: nat ensures (a in AsMap(n.ips) && AsMap(n.ips)[a] == p) <==> Inet(a, p) in n.ips {
      AsMapHas(n.ips, Inet(a, p));
    }
  }
}
