/** Router specs (router.py). */
module RouterSpec {
  import opened Collections
  import opened Model
  import opened Names
  import opened JailPlane
  import opened Plumbing
  import opened Acting
  import opened PortPlane

  /** One route: a destination prefix and the gateway it goes through. */
  datatype Hop = Hop(destination: string, nexthop: Addr)

  datatype RouterPort = RouterPort(id: string, mac: Mac, ips: seq<Inet>, gatewayIp: Option<Addr>)

  /** `pf` is the rendered pf.conf, whose hash stands for it. */
  datatype Router = Router(id: string, gateway: Option<RouterPort>, interfaces: seq<RouterPort>, floating: seq<Addr>, routes: seq<Hop>, pf: string)

  const DEFAULT_ROUTE := "0.0.0.0/0"

  function Floating(addrs: seq<Addr>): seq<Inet> {
    seq(|addrs|, i requires 0 <= i < |addrs| => Inet(addrs[i], 32))
  }

  function SpecOf(r: Router, port: RouterPort, gateway: bool): Spec {
    Spec(Pair(RouterJail(r.id), RouterIfName(port.id), RouterJailIf(port.id, gateway), "neutron port " + port.id),
         port.mac, port.ips + if gateway then Floating(r.floating) else [])
  }

  function InterfaceSpecs(r: Router, n: nat): seq<Spec>
    requires n <= |r.interfaces|
  {
    if n == 0 then [] else InterfaceSpecs(r, n - 1) + [SpecOf(r, r.interfaces[n - 1], false)]
  }

  /** Every port, the gateway first. */
  function Specs(r: Router): seq<Spec> {
    (if r.gateway.Some? then [SpecOf(r, r.gateway.value, true)] else []) + InterfaceSpecs(r, |r.interfaces|)
  }

  lemma {:induction false} InterfacesInJail(r: Router, n: nat)
    requires n <= |r.interfaces|
    ensures forall i :: 0 <= i < |InterfaceSpecs(r, n)| ==> InterfaceSpecs(r, n)[i].pair.jail == RouterJail(r.id)
  {
    if n > 0 {
      InterfacesInJail(r, n - 1);
    }
  }

  lemma SpecsInJail(r: Router)
    ensures forall i :: 0 <= i < |Specs(r)| ==> Specs(r)[i].pair.jail == RouterJail(r.id)
  {
    InterfacesInJail(r, |r.interfaces|);
  }

  /** Every port of the first n routers, in the order a pass reaches them. */
  function SpecsUpTo(desired: seq<Router>, n: nat): seq<Spec>
    requires n <= |desired|
  {
    if n == 0 then [] else SpecsUpTo(desired, n - 1) + Specs(desired[n - 1])
  }

  function AllSpecs(desired: seq<Router>): seq<Spec> {
    SpecsUpTo(desired, |desired|)
  }

  lemma {:induction false} EarlierSpecs(desired: seq<Router>, m: nat, n: nat)
    requires m <= n <= |desired|
    ensures SpecsUpTo(desired, m) <= SpecsUpTo(desired, n)
    decreases n
  {
    if m < n {
      EarlierSpecs(desired, m, n - 1);
    }
  }

  /** The ports of one router stand where the pass reaches them. */
  lemma SpecsStand(desired: seq<Router>, n: nat)
    requires n < |desired|
    ensures Slice(Specs(desired[n]), AllSpecs(desired), |SpecsUpTo(desired, n)|)
    ensures |SpecsUpTo(desired, n + 1)| == |SpecsUpTo(desired, n)| + |Specs(desired[n])|
  {
    EarlierSpecs(desired, n + 1, |desired|);
  }

  function DesiredJails(desired: seq<Router>): set<Name> {
    set i | 0 <= i < |desired| :: RouterJail(desired[i].id)
  }

  lemma {:induction false} SpecsInJails(desired: seq<Router>, n: nat)
    requires n <= |desired|
    ensures forall a :: 0 <= a < |SpecsUpTo(desired, n)| ==> SpecsUpTo(desired, n)[a].pair.jail in DesiredJails(desired)
  {
    if n > 0 {
      SpecsInJails(desired, n - 1);
      SpecsInJail(desired[n - 1]);
      assert RouterJail(desired[n - 1].id) in DesiredJails(desired);
    }
  }

  /** The default route through the gateway, if it has one, and the router's own. */
  function Routes(r: Router): set<Hop> {
    (if r.gateway.Some? && r.gateway.value.gatewayIp.Some? && r.gateway.value.gatewayIp.value != ""
     then {Hop(DEFAULT_ROUTE, r.gateway.value.gatewayIp.value)} else {})
    + Elements(r.routes)
  }

  /** At most one nexthop per destination. */
  ghost predicate OneNexthop(hops: set<Hop>) {
    forall a, b :: a in hops && b in hops && a.destination == b.destination ==> a == b
  }

  ghost predicate RoutesAre(routes: map<string, Addr>, hops: set<Hop>) {
    forall d, g :: Hop(d, g) in hops <==> d in routes && routes[d] == g
  }
}
