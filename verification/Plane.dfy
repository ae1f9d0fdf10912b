/**
 The jail plane the L3 and DHCP agents drive: VNET jails, epairs spanning the host and a
 jail, their addresses, and each jail's routes and pf.

 An epair is two interfaces, each pointing at its peer; destroying one destroys both. The
 kernel names a new pair after a number it has not used before. A peer is None when the
 other end went back to the host with a jail that was removed, where this plane no longer
 follows it. `grouped` is membership of the agent's own interface group.
 */
module JailPlane {
  import opened Collections
  import opened Model

  datatype Vnet = Host | Inside(jail: Name)

  datatype NicName = Given(name: Name) | UnitA(number: nat) | UnitB(number: nat)

  datatype Place = Place(vnet: Vnet, name: NicName)

  type Nics = map<Place, Nic>

  datatype Nic = Nic(peer: Option<Place>, grouped: bool, descr: string, mac: Mac, inets: map<Addr, nat>)

  datatype JailState = JailState(forwarding: bool, routes: map<string, Addr>, pfEnabled: bool, pf: Option<string>)

  datatype World = World(jails: map<Name, JailState>, nics: Nics, next: nat)

  datatype Cmd =
    | CreateJail(jail: Name)
    | JailLoopback(jail: Name)
    | RemoveJail(jail: Name)
    | KillJailProcs(jail: Name)
    | DestroyNic(at: Place)
    | FixDescr(host: Name, descr: string)
    | CreateEpair
    | NameHostIf(number: nat, host: Name, descr: string)
    | MoveJailIf(number: nat, jail: Name)
    | NameJailIf(number: nat, jail: Name, inner: Name)
    | SetMac(at: Place, mac: Mac)
    | AddInet(at: Place, addr: Addr, prefix: nat)
    | DropInet(at: Place, addr: Addr)
    | EnableForwarding(jail: Name)
    | DeleteRoute(jail: Name, destination: string)
    | AddRoute(jail: Name, destination: string, nexthop: Addr)
    | EnablePf(jail: Name)
    | LoadPf(jail: Name, text: string)
    | StartDnsmasq(jail: Name, argv: string)
    | StopDnsmasq(pid: nat)
    | ReloadDnsmasq(pid: nat)

  function HostAt(name: Name): Place {
    Place(Host, Given(name))
  }

  function InnerAt(jail: Name, name: Name): Place {
    Place(Inside(jail), Given(name))
  }

  predicate Enabled(c: Cmd, k: World) {
    match c
    case CreateJail(j) => j !in k.jails
    case JailLoopback(j) => j in k.jails
    case RemoveJail(j) => j in k.jails
    case KillJailProcs(j) => j in k.jails
    case DestroyNic(p) => p in k.nics
    case FixDescr(h, _) => HostAt(h) in k.nics
    case CreateEpair => true
    case NameHostIf(n, h, _) => Place(Host, UnitA(n)) in k.nics && HostAt(h) !in k.nics
    case MoveJailIf(n, j) => Place(Host, UnitB(n)) in k.nics && j in k.jails && Place(Inside(j), UnitB(n)) !in k.nics
    case NameJailIf(n, j, x) => Place(Inside(j), UnitB(n)) in k.nics && InnerAt(j, x) !in k.nics
    case SetMac(p, _) => p in k.nics
    case AddInet(p, _, _) => p in k.nics
    case DropInet(p, a) => p in k.nics && a in k.nics[p].inets
    case EnableForwarding(j) => j in k.jails
    case DeleteRoute(j, d) => j in k.jails && d in k.jails[j].routes
    case AddRoute(j, d, _) => j in k.jails && d !in k.jails[j].routes
    case EnablePf(j) => j in k.jails
    case LoadPf(j, _) => j in k.jails
    case StartDnsmasq(j, _) => j in k.jails
    case StopDnsmasq(_) => true
    case ReloadDnsmasq(_) => true
  }

  function Destroyed(nics: Nics, p: Place): Nics
    requires p in nics
  {
    nics - ({p} + if nics[p].peer.Some? then {nics[p].peer.value} else {})
  }

  /** The interface at p, changed by the move or not, is at q now, and its peer knows. */
  function Moved(nics: Nics, p: Place, q: Place, nic: Nic): Nics
    requires p in nics
  {
    var moved := (nics - {p})[q := nic];
    if nic.peer.Some? && nic.peer.value in moved
    then moved[nic.peer.value := moved[nic.peer.value].(peer := Some(q))] else moved
  }

  /** The interfaces of a removed jail leave the plane. */
  function WithoutVnet(nics: Nics, v: Vnet): Nics {
    map p | p in nics && p.vnet != v ::
      if nics[p].peer.Some? && nics[p].peer.value.vnet == v then nics[p].(peer := None) else nics[p]
  }

  function Effect(c: Cmd, k: World): World
    requires Enabled(c, k)
  {
    match c
    case CreateJail(j) => k.(jails := k.jails[j := JailState(false, map[], false, None)])
    case JailLoopback(_) => k
    case RemoveJail(j) => k.(jails := k.jails - {j}, nics := WithoutVnet(k.nics, Inside(j)))
    case KillJailProcs(_) => k
    case DestroyNic(p) => k.(nics := Destroyed(k.nics, p))
    case FixDescr(h, d) => k.(nics := k.nics[HostAt(h) := k.nics[HostAt(h)].(descr := d)])
    case CreateEpair =>
      var a, b := Place(Host, UnitA(k.next)), Place(Host, UnitB(k.next));
      k.(nics := k.nics[a := Nic(Some(b), false, "", "", map[])][b := Nic(Some(a), false, "", "", map[])], next := k.next + 1)
    case NameHostIf(n, h, d) =>
      var p := Place(Host, UnitA(n));
      k.(nics := Moved(k.nics, p, HostAt(h), k.nics[p].(grouped := true, descr := d)))
    case MoveJailIf(n, j) =>
      var p := Place(Host, UnitB(n));
      k.(nics := Moved(k.nics, p, Place(Inside(j), UnitB(n)), k.nics[p]))
    case NameJailIf(n, j, x) =>
      var p := Place(Inside(j), UnitB(n));
      k.(nics := Moved(k.nics, p, InnerAt(j, x), k.nics[p]))
    case SetMac(p, m) => k.(nics := k.nics[p := k.nics[p].(mac := m)])
    case AddInet(p, a, n) => k.(nics := k.nics[p := k.nics[p].(inets := k.nics[p].inets[a := n])])
    case DropInet(p, a) => k.(nics := k.nics[p := k.nics[p].(inets := k.nics[p].inets - {a})])
    case EnableForwarding(j) => k.(jails := k.jails[j := k.jails[j].(forwarding := true)])
    case DeleteRoute(j, d) => k.(jails := k.jails[j := k.jails[j].(routes := k.jails[j].routes - {d})])
    case AddRoute(j, d, g) => k.(jails := k.jails[j := k.jails[j].(routes := k.jails[j].routes[d := g])])
    case EnablePf(j) => k.(jails := k.jails[j := k.jails[j].(pfEnabled := true)])
    case LoadPf(j, t) => k.(jails := k.jails[j := k.jails[j].(pf := Some(t))])
    case _ => k
  }

  // ------------------------------------------------------------ what always holds

  ghost predicate PeersMatch(nics: Nics) {
    forall p :: p in nics && nics[p].peer.Some? ==>
                  var q := nics[p].peer.value; q in nics && q != p && nics[q].peer == Some(p)
  }

  ghost predicate NumbersUsed(nics: Nics, next: nat) {
    forall p :: p in nics ==> (p.name.UnitA? || p.name.UnitB?) ==> p.name.number < next
  }

  /** The end that is, or can become, a host interface of the group. */
  predicate HostSide(p: Place, nic: Nic) {
    p.name.UnitA? || nic.grouped
  }

  /** Only named host interfaces are in the group, and an epair has one host side. */
  ghost predicate SidesRight(nics: Nics) {
    && (forall p :: p in nics && nics[p].grouped ==> p.vnet.Host? && p.name.Given?)
    && (forall p :: p in nics && HostSide(p, nics[p]) && nics[p].peer.Some? ==>
          var q := nics[p].peer.value; q in nics ==> !HostSide(q, nics[q]))
  }

  ghost predicate Matched(nics: Nics) {
    PeersMatch(nics) && SidesRight(nics)
  }

  /** Interfaces of jails that are there. */
  ghost predicate InJails(k: World) {
    forall p :: p in k.nics && p.vnet.Inside? ==> p.vnet.jail in k.jails
  }

  ghost predicate Sound(k: World) {
    && Matched(k.nics) && NumbersUsed(k.nics, k.next)
    && InJails(k)
  }

  lemma DestroyedKeeps(nics: Nics, p: Place)
    requires Matched(nics) && p in nics
    ensures Matched(Destroyed(nics, p))
  {
    var nics' := Destroyed(nics, p);
    forall q | q in nics' && nics'[q].peer.Some?
      ensures var r := nics'[q].peer.value; r in nics' && r != q && nics'[r].peer == Some(q)
    {
      var r := nics[q].peer.value;
      assert nics[r].peer == Some(q);
    }
  }

  lemma MovedKeeps(nics: Nics, p: Place, q: Place, nic: Nic)
    requires Matched(nics) && p in nics && q !in nics
    requires nic.peer == nics[p].peer
    requires nic.grouped ==> q.vnet.Host? && q.name.Given?
    requires HostSide(q, nic) ==> HostSide(p, nics[p])
    ensures Matched(Moved(nics, p, q, nic))
  {
    var nics' := Moved(nics, p, q, nic);
    forall x | x in nics' && nics'[x].peer.Some?
      ensures var y := nics'[x].peer.value; y in nics' && y != x && nics'[y].peer == Some(x)
    {
      if x != q && nics[x].peer != Some(p) {
        var y := nics[x].peer.value;
        assert nics[y].peer == Some(x);
      }
    }
  }

  lemma WithoutVnetKeeps(nics: Nics, v: Vnet)
    requires Matched(nics)
    ensures Matched(WithoutVnet(nics, v))
  {
    var nics' := WithoutVnet(nics, v);
    forall x | x in nics' && nics'[x].peer.Some?
      ensures var y := nics'[x].peer.value; y in nics' && y != x && nics'[y].peer == Some(x)
    {
      var y := nics[x].peer.value;
      assert nics[y].peer == Some(x);
    }
  }

  lemma AttributeKeeps(nics: Nics, p: Place, nic: Nic)
    requires Matched(nics) && p in nics && nic.peer == nics[p].peer && nic.grouped == nics[p].grouped
    ensures Matched(nics[p := nic])
  {
  }

  lemma NewPairKeeps(nics: Nics, a: Place, b: Place, na: Nic, nb: Nic)
    requires Matched(nics) && a !in nics && b !in nics && a != b
    requires na.peer == Some(b) && nb.peer == Some(a) && !na.grouped && !HostSide(b, nb)
    ensures Matched(nics[a := na][b := nb])
  {
    var nics' := nics[a := na][b := nb];
    forall p | p in nics && nics[p].peer.Some? ensures nics[p].peer.value in nics && nics[p].peer.value != p && p != a && p != b {}
  }

  lemma NicsMatched(c: Cmd, k: World)
    requires Sound(k) && Enabled(c, k)
    ensures Matched(Effect(c, k).nics)
  {
    hide PeersMatch, SidesRight, Matched, Moved, Destroyed, WithoutVnet;
    match c
    case DestroyNic(p) => DestroyedKeeps(k.nics, p);
    case RemoveJail(j) => WithoutVnetKeeps(k.nics, Inside(j));
    case CreateEpair =>
      NewPairKeeps(k.nics, Place(Host, UnitA(k.next)), Place(Host, UnitB(k.next)),
                   Nic(Some(Place(Host, UnitB(k.next))), false, "", "", map[]), Nic(Some(Place(Host, UnitA(k.next))), false, "", "", map[]));
    case NameHostIf(n, h, d) =>
      var p := Place(Host, UnitA(n));
      MovedKeeps(k.nics, p, HostAt(h), k.nics[p].(grouped := true, descr := d));
    case MoveJailIf(n, j) =>
      var p := Place(Host, UnitB(n));
      UngroupedUnit(k.nics, p);
      MovedKeeps(k.nics, p, Place(Inside(j), UnitB(n)), k.nics[p]);
    case NameJailIf(n, j, x) =>
      var p := Place(Inside(j), UnitB(n));
      UngroupedUnit(k.nics, p);
      MovedKeeps(k.nics, p, InnerAt(j, x), k.nics[p]);
    case FixDescr(h, d) => AttributeKeeps(k.nics, HostAt(h), k.nics[HostAt(h)].(descr := d));
    case SetMac(p, m) => AttributeKeeps(k.nics, p, k.nics[p].(mac := m));
    case AddInet(p, a, n) => AttributeKeeps(k.nics, p, k.nics[p].(inets := k.nics[p].inets[a := n]));
    case DropInet(p, a) => AttributeKeeps(k.nics, p, k.nics[p].(inets := k.nics[p].inets - {a}));
    case _ =>
  }

  lemma UngroupedUnit(nics: Nics, p: Place)
    requires Matched(nics) && p in nics && p.name.UnitB?
    ensures !nics[p].grouped
  {
  }

  lemma NumbersKept(c: Cmd, k: World)
    requires NumbersUsed(k.nics, k.next) && Enabled(c, k)
    requires PeersMatch(k.nics)
    ensures NumbersUsed(Effect(c, k).nics, Effect(c, k).next)
  {
  }

  lemma JailsKept(c: Cmd, k: World)
    requires InJails(k) && Enabled(c, k)
    requires PeersMatch(k.nics)
    ensures InJails(Effect(c, k))
  {
  }

  /** Every command keeps the kernel sound. */
  lemma EffectSound(c: Cmd, k: World)
    requires Sound(k) && Enabled(c, k)
    ensures Sound(Effect(c, k))
  {
    NicsMatched(c, k);
    NumbersKept(c, k);
    JailsKept(c, k);
    hide Effect, Enabled, Matched, NumbersUsed;
  }
}
