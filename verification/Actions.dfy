/** The runner of one pass and its steps on one jail (jail.py), in the source's form. */
module Acting {
  import opened Collections
  import opened Model
  import opened JailPlane
  import opened Plumbing

  datatype Inet = Inet(addr: Addr, prefix: nat)

  // ------------------------------------------------------------------ addresses

  /** At most one prefix length per address. */
  ghost predicate Functional(ips: seq<Inet>) {
    forall i, j :: 0 <= i < |ips| && 0 <= j < |ips| && ips[i].addr == ips[j].addr ==> ips[i] == ips[j]
  }

  function AsMap(ips: seq<Inet>): map<Addr, nat> {
    if ips == [] then map[] else AsMap(ips[..|ips| - 1])[ips[|ips| - 1].addr := ips[|ips| - 1].prefix]
  }

  predicate Has(have: map<Addr, nat>, ip: Inet) {
    ip.addr in have && have[ip.addr] == ip.prefix
  }

  lemma {:induction false} AsMapHas(ips: seq<Inet>, ip: Inet)
    requires Functional(ips)
    ensures Has(AsMap(ips), ip) <==> ip in ips
    ensures ip.addr in AsMap(ips) <==> exists i :: 0 <= i < |ips| && ips[i].addr == ip.addr
  {
    if ips != [] {
      var rest, last := ips[..|ips| - 1], ips[|ips| - 1];
      AsMapHas(rest, ip);
      OneMore(ips, ip);
    }
  }

  lemma OneMore(ips: seq<Inet>, ip: Inet)
    requires Functional(ips) && ips != []
    ensures var rest, last := ips[..|ips| - 1], ips[|ips| - 1];
            && (ip in ips <==> ip in rest || ip == last) && (ip in rest && ip.addr == last.addr ==> ip == last)
            && ((exists i :: 0 <= i < |ips| && ips[i].addr == ip.addr) <==> last.addr == ip.addr || exists i :: 0 <= i < |rest| && rest[i].addr == ip.addr)
  {
    var rest, last := ips[..|ips| - 1], ips[|ips| - 1];
    assert ips == rest + [last];
    if ip in rest {
      var i :| 0 <= i < |rest| && rest[i] == ip;
      assert ips[i] == ip;
    }
    if i :| 0 <= i < |ips| && ips[i].addr == ip.addr {
      assert i < |rest| ==> rest[i].addr == ip.addr;
    }
    if i :| 0 <= i < |rest| && rest[i].addr == ip.addr {
      assert ips[i].addr == ip.addr;
    }
  }

  /** What adding the missing addresses makes of those an interface has. */
  function Added(have: map<Addr, nat>, ips: seq<Inet>): map<Addr, nat> {
    if ips == [] then have else
      var rest, last := Added(have, ips[..|ips| - 1]), ips[|ips| - 1];
      if Has(have, last) then rest else rest[last.addr := last.prefix]
  }

  function Stale(have: map<Addr, nat>, ips: seq<Inet>): set<Addr> {
    set a | a in have && Inet(a, have[a]) !in ips
  }

  /** The wanted addresses, but for those that were there with another prefix length: the kernel
      removes an address by its value, so dropping the old entry takes the new one with it. */
  function Renumbered(have: map<Addr, nat>, ips: seq<Inet>): map<Addr, nat> {
    var wanted := AsMap(ips);
    map a | a in wanted && (a in have ==> have[a] == wanted[a]) :: wanted[a]
  }

  lemma {:induction false} AddedAt(have: map<Addr, nat>, ips: seq<Inet>, a: Addr)
    requires Functional(ips)
    ensures a in Added(have, ips) <==> a in have || a in AsMap(ips)
    ensures a in Added(have, ips) ==> Added(have, ips)[a] == if a in AsMap(ips) then AsMap(ips)[a] else have[a]
  {
    if ips != [] {
      var rest, last := ips[..|ips| - 1], ips[|ips| - 1];
      assert ips == rest + [last];
      AddedAt(have, rest, a);
      if a == last.addr && Has(have, last) {
        AsMapHas(rest, last);
        if i :| 0 <= i < |rest| && rest[i].addr == a {
          assert ips[i] == ips[|ips| - 1];
          assert rest[i] in rest;
        }
      }
    }
  }

  lemma AddedLessStale(have: map<Addr, nat>, ips: seq<Inet>)
    requires Functional(ips)
    ensures Added(have, ips) - Stale(have, ips) == Renumbered(have, ips)
  {
    var final := Added(have, ips) - Stale(have, ips);
    forall a ensures a in final <==> a in Renumbered(have, ips)
             ensures a in final ==> final[a] == Renumbered(have, ips)[a]
    {
      AddedAt(have, ips, a);
      if a in have {
        AsMapHas(ips, Inet(a, have[a]));
      }
    }
  }

  /** Nothing is missing and nothing stale exactly when the addresses are the wanted ones. */
  lemma NothingToDo(have: map<Addr, nat>, ips: seq<Inet>)
    requires Functional(ips) && have == AsMap(ips)
    ensures Stale(have, ips) == {}
    ensures forall i :: 0 <= i < |ips| ==> Has(have, ips[i])
  {
    forall a | a in have ensures Inet(a, have[a]) in ips {
      AsMapHas(ips, Inet(a, have[a]));
    }
    forall i | 0 <= i < |ips| ensures Has(have, ips[i]) {
      AsMapHas(ips, ips[i]);
    }
  }

  // ------------------------------------------------------------------- the group

  function Grouped(nics: Nics): (r: set<Name>)
    ensures forall x :: x in r <==> HostAt(x) in nics && nics[HostAt(x)].grouped
  {
    set p | p in nics && nics[p].grouped && p.vnet.Host? && p.name.Given? :: p.name.name
  }

  /** The world, but for what one interface's attributes are. */
  ghost predicate SameButAt(k: World, k': World, at: Place) {
    && k'.jails == k.jails && k'.next == k.next && k'.nics.Keys == k.nics.Keys
    && (forall p :: p in k.nics && p != at ==> k'.nics[p] == k.nics[p])
    && (at in k.nics ==> k'.nics[at] == k.nics[at].(mac := k'.nics[at].mac, inets := k'.nics[at].inets))
  }

  /** The world, but for one jail's state. */
  ghost predicate SameButJail(k: World, k': World, jail: Name) {
    && k'.nics == k.nics && k'.next == k.next
    && k'.jails.Keys == k.jails.Keys
    && (forall j :: j in k.jails && j != jail ==> k'.jails[j] == k.jails[j])
  }

  lemma SameButAtSound(k: World, k': World, at: Place)
    requires Sound(k) && SameButAt(k, k', at)
    ensures Sound(k')
  {
    if at in k.nics {
      AttributeKeeps(k.nics, at, k'.nics[at]);
      assert k'.nics == k.nics[at := k'.nics[at]];
    } else {
      assert k'.nics == k.nics;
    }
  }

  // ------------------------------------------------------------ command by command

  /** A list of commands, each tried whatever became of the others. */
  function Tried(f: Faults, l: Log, cmds: seq<Cmd>): Log {
    if cmds == [] then l else Try(f, Tried(f, l, cmds[..|cmds| - 1]), cmds[|cmds| - 1])
  }

  lemma TriedMore(f: Faults, l: Log, cmds: seq<Cmd>, c: Cmd)
    ensures Tried(f, l, cmds + [c]) == Try(f, Tried(f, l, cmds), c)
    ensures Tried(f, l, cmds + []) == Tried(f, l, cmds)
  {
    assert (cmds + [c])[..|cmds + [c]| - 1] == cmds;
    assert cmds + [] == cmds;
  }

  lemma OneOk(f: Faults, l: Log, c: Cmd)
    ensures AllOk(Try(f, l, c).receipts) <==> AllOk(l.receipts) && Works(f, l, c)
  {
    assert Try(f, l, c).receipts == l.receipts + [Did(c, Works(f, l, c))];
    assert Try(f, l, c).receipts[|l.receipts|] == Did(c, Works(f, l, c));
    assert AllOk(Try(f, l, c).receipts) ==> AllOk(l.receipts) by {
      forall i | 0 <= i < |l.receipts| ensures l.receipts[i] == Try(f, l, c).receipts[i] {}
    }
  }

  /** What `ensure_jail` does: a persistent VNET jail is created when absent, and its loopback put up. */
  function JailEnsured(f: Faults, l: Log, name: Name): Log {
    if name in l.k.jails then l else
      var l1 := Try(f, l, CreateJail(name));
      if name in l1.k.jails then Try(f, l1, JailLoopback(name)) else l1
  }

  /** The jail's routes; a jail that is not there has none. */
  function RoutesIn(k: World, jail: Name): map<string, Addr> {
    if jail in k.jails then k.jails[jail].routes else map[]
  }

  lemma JailEnsuredIs(f: Faults, l: Log, name: Name)
    requires Sound(l.k)
    ensures var l' := JailEnsured(f, l, name);
            && RoutesIn(l'.k, name) == RoutesIn(l.k, name) && (name !in l'.k.jails ==> l'.k == l.k)
            && Sound(l'.k) && l'.k.nics == l.k.nics && l'.k.next == l.k.next
            && l.k.jails.Keys <= l'.k.jails.Keys <= l.k.jails.Keys + {name}
            && (forall j :: j in l.k.jails ==> l'.k.jails[j] == l.k.jails[j])
            && (FaultFree(f) ==> name in l'.k.jails && (AllOk(l.receipts) ==> AllOk(l'.receipts)))
  {
    if name !in l.k.jails {
      TrySound(f, l, CreateJail(name));
      OneOk(f, l, CreateJail(name));
      var l1 := Try(f, l, CreateJail(name));
      TrySound(f, l1, JailLoopback(name));
      OneOk(f, l1, JailLoopback(name));
    }
  }

  // --------------------------------------------------------- one interface's settings

  /** Commands on one interface's mac and addresses. */
  predicate IsAttribute(c: Cmd, at: Place) {
    (c.SetMac? || c.AddInet? || c.DropInet?) && c.at == at
  }

  lemma AttributeOnly(f: Faults, l: Log, at: Place, c: Cmd)
    requires at in l.k.nics && IsAttribute(c, at)
    ensures SameButAt(l.k, Try(f, l, c).k, at)
    ensures FaultFree(f) && (c.DropInet? ==> c.addr in l.k.nics[at].inets) ==>
              && Works(f, l, c)
              && var nic, nic' := l.k.nics[at], Try(f, l, c).k.nics[at];
                 match c
                 case SetMac(_, m) => nic'.inets == nic.inets && nic'.mac == m
                 case AddInet(_, a, n) => nic'.mac == nic.mac && nic'.inets == nic.inets[a := n]
                 case DropInet(_, a) => nic'.mac == nic.mac && nic'.inets == nic.inets - {a}
                 case _ => true
  {
  }

  lemma {:induction false} AttributesOnly(f: Faults, l: Log, at: Place, cmds: seq<Cmd>)
    requires at in l.k.nics && forall i :: 0 <= i < |cmds| ==> IsAttribute(cmds[i], at)
    ensures SameButAt(l.k, Tried(f, l, cmds).k, at)
  {
    if cmds != [] {
      AttributesOnly(f, l, at, cmds[..|cmds| - 1]);
      AttributeOnly(f, Tried(f, l, cmds[..|cmds| - 1]), at, cmds[|cmds| - 1]);
      hide Try;
    }
  }

  function AddCmds(at: Place, have: map<Addr, nat>, ips: seq<Inet>): (r: seq<Cmd>)
    ensures forall i :: 0 <= i < |r| ==> IsAttribute(r[i], at)
  {
    if ips == [] then [] else
      var rest, last := AddCmds(at, have, ips[..|ips| - 1]), ips[|ips| - 1];
      rest + if Has(have, last) then [] else [AddInet(at, last.addr, last.prefix)]
  }

  function DropCmds(at: Place, addrs: seq<Addr>): (r: seq<Cmd>)
    ensures forall i :: 0 <= i < |r| ==> IsAttribute(r[i], at)
  {
    seq(|addrs|, i requires 0 <= i < |addrs| => DropInet(at, addrs[i]))
  }

  function MacCmds(at: Place, have: Mac, mac: Mac): seq<Cmd> {
    if have != mac then [SetMac(at, mac)] else []
  }

  /** What `ensure_addrs` does: the MAC, the missing addresses, the stale ones. */
  ghost function AddrsSet(f: Faults, l: Log, at: Place, mac: Mac, ips: seq<Inet>): Log
    requires at in l.k.nics
  {
    var nic := l.k.nics[at];
    Tried(f, Tried(f, Tried(f, l, MacCmds(at, nic.mac, mac)), AddCmds(at, nic.inets, ips)), DropCmds(at, Sorted(Stale(nic.inets, ips))))
  }

  lemma {:induction false} AddsAdd(f: Faults, l: Log, at: Place, have: map<Addr, nat>, ips: seq<Inet>)
    requires FaultFree(f) && at in l.k.nics && l.k.nics[at].inets == have
    ensures var l' := Tried(f, l, AddCmds(at, have, ips));
            at in l'.k.nics && l'.k.nics[at].inets == Added(have, ips) && l'.k.nics[at].mac == l.k.nics[at].mac
                && (AllOk(l.receipts) ==> AllOk(l'.receipts))
  {
    if ips != [] {
      var rest, last := ips[..|ips| - 1], ips[|ips| - 1];
      AddsAdd(f, l, at, have, rest);
      var l1, c := Tried(f, l, AddCmds(at, have, rest)), AddInet(at, last.addr, last.prefix);
      TriedMore(f, l, AddCmds(at, have, rest), c);
      AttributeOnly(f, l1, at, c);
      OneOk(f, l1, c);
      hide Try, Tried, Works;
    }
  }

  lemma {:induction false} DropsDrop(f: Faults, l: Log, at: Place, addrs: seq<Addr>)
    requires FaultFree(f) && at in l.k.nics && Ascending(addrs) && forall i :: 0 <= i < |addrs| ==> addrs[i] in l.k.nics[at].inets
    ensures var l' := Tried(f, l, DropCmds(at, addrs));
            && at in l'.k.nics && l'.k.nics[at].inets == l.k.nics[at].inets - Elements(addrs)
            && l'.k.nics[at].mac == l.k.nics[at].mac && (AllOk(l.receipts) ==> AllOk(l'.receipts))
  {
    if addrs != [] {
      var rest, last := addrs[..|addrs| - 1], addrs[|addrs| - 1];
      AscendingLast(addrs);
      hide Ascending, Tried, Try, Works;
      DropsDrop(f, l, at, rest);
      assert DropCmds(at, addrs) == DropCmds(at, rest) + [DropInet(at, last)];
      var l1, c := Tried(f, l, DropCmds(at, rest)), DropInet(at, last);
      TriedMore(f, l, DropCmds(at, rest), c);
      assert addrs[|addrs| - 1] in l1.k.nics[at].inets;
      AttributeOnly(f, l1, at, c);
      OneOk(f, l1, c);
    }
  }

  /** Whatever fails, only that interface's MAC and addresses change. */
  lemma AddrsSetOnly(f: Faults, l: Log, at: Place, mac: Mac, ips: seq<Inet>)
    requires at in l.k.nics
    ensures SameButAt(l.k, AddrsSet(f, l, at, mac, ips).k, at)
  {
    var nic := l.k.nics[at];
    var l1 := Tried(f, l, MacCmds(at, nic.mac, mac));
    var l2 := Tried(f, l1, AddCmds(at, nic.inets, ips));
    AttributesOnly(f, l, at, MacCmds(at, nic.mac, mac));
    AttributesOnly(f, l1, at, AddCmds(at, nic.inets, ips));
    AttributesOnly(f, l2, at, DropCmds(at, Sorted(Stale(nic.inets, ips))));
    hide Tried;
  }

  /** With no faults the interface has the MAC, and the wanted addresses but for those that had
      another prefix length; without drift nothing is run. */
  lemma AddrsSetIs(f: Faults, l: Log, at: Place, mac: Mac, ips: seq<Inet>)
    requires at in l.k.nics && Functional(ips)
    ensures var l', nic := AddrsSet(f, l, at, mac, ips), l.k.nics[at];
            && (FaultFree(f) ==> && at in l'.k.nics && l'.k.nics[at].mac == mac && l'.k.nics[at].inets == Renumbered(nic.inets, ips)
                                 && (AllOk(l.receipts) ==> AllOk(l'.receipts)))
            && (nic.mac == mac && nic.inets == AsMap(ips) ==> l' == l)
  {
    var nic := l.k.nics[at];
    var l1 := Tried(f, l, MacCmds(at, nic.mac, mac));
    AddedLessStale(nic.inets, ips);
    if FaultFree(f) {
      assert MacCmds(at, nic.mac, mac) == [] + MacCmds(at, nic.mac, mac);
      TriedMore(f, l, [], SetMac(at, mac));
      AttributeOnly(f, l, at, SetMac(at, mac));
      OneOk(f, l, SetMac(at, mac));
      AddsAdd(f, l1, at, nic.inets, ips);
      var l2 := Tried(f, l1, AddCmds(at, nic.inets, ips));
      var stale := Stale(nic.inets, ips);
      forall a | a in stale ensures a in l2.k.nics[at].inets {
        AddedAt(nic.inets, ips, a);
      }
      DropsDrop(f, l2, at, Sorted(stale));
      assert Elements(Sorted(stale)) == stale;
    }
    if nic.mac == mac && nic.inets == AsMap(ips) {
      NothingToDo(nic.inets, ips);
      NothingMissing(at, nic.inets, ips);
      NoElements(Sorted(Stale(nic.inets, ips)));
    }
  }

  lemma {:induction false} NothingMissing(at: Place, have: map<Addr, nat>, ips: seq<Inet>)
    requires forall i :: 0 <= i < |ips| ==> Has(have, ips[i])
    ensures AddCmds(at, have, ips) == []
  {
    if ips != [] {
      NothingMissing(at, have, ips[..|ips| - 1]);
    }
  }

  // ------------------------------------------------------------------- teardown

  function KillCmds(k: World, jails: seq<Name>): seq<Cmd> {
    if jails == [] then [] else
      var rest, last := KillCmds(k, jails[..|jails| - 1]), jails[|jails| - 1];
      rest + if last in k.jails then [KillJailProcs(last)] else []
  }

  function DestroyCmds(hosts: seq<Name>): seq<Cmd> {
    seq(|hosts|, i requires 0 <= i < |hosts| => DestroyNic(HostAt(hosts[i])))
  }

  function RemoveCmds(jails: seq<Name>): seq<Cmd> {
    seq(|jails|, i requires 0 <= i < |jails| => RemoveJail(jails[i]))
  }

  /** The jails whose processes are killed. */
  function Killed(f: Faults, l: Log, jails: seq<Name>): (r: set<Name>)
    ensures forall j :: j in r ==> j in jails
  {
    if jails == [] then {} else
      var rest, last := jails[..|jails| - 1], jails[|jails| - 1];
      Killed(f, l, rest) + if last in l.k.jails && Works(f, Tried(f, l, KillCmds(l.k, rest)), KillJailProcs(last)) then {last} else {}
  }

  /** The log of one `collect`: what runs in the jails is killed first, and host ends go before their jails. */
  ghost function Torn(f: Faults, l: Log, jails: set<Name>, hosts: set<Name>): Log {
    Tried(f, Tried(f, Tried(f, l, KillCmds(l.k, Sorted(jails))), DestroyCmds(Sorted(hosts))), RemoveCmds(Sorted(jails)))
  }

  lemma KillMore(f: Faults, l: Log, jails: seq<Name>, n: nat)
    requires n < |jails|
    ensures KillCmds(l.k, jails[..n + 1]) == KillCmds(l.k, jails[..n]) + if jails[n] in l.k.jails then [KillJailProcs(jails[n])] else []
    ensures Killed(f, l, jails[..n + 1]) ==
            Killed(f, l, jails[..n])
            + if jails[n] in l.k.jails && Works(f, Tried(f, l, KillCmds(l.k, jails[..n])), KillJailProcs(jails[n])) then {jails[n]} else {}
  {
    assert jails[..n + 1][..n] == jails[..n];
  }

  lemma NoKills(f: Faults, l: Log)
    ensures KillCmds(l.k, []) == [] && Killed(f, l, []) == {} && Tried(f, l, []) == l
  {
  }

  lemma {:induction false} KillsKill(f: Faults, l: Log, jails: seq<Name>)
    ensures var l' := Tried(f, l, KillCmds(l.k, jails)); l'.k == l.k && (FaultFree(f) && AllOk(l.receipts) ==> AllOk(l'.receipts))
  {
    hide Try, Works, AllOk;
    if jails != [] {
      var rest, last := jails[..|jails| - 1], jails[|jails| - 1];
      KillsKill(f, l, rest);
      TriedMore(f, l, KillCmds(l.k, rest), KillJailProcs(last));
      KillKills(f, Tried(f, l, KillCmds(l.k, rest)), last);
    }
  }

  lemma KillKills(f: Faults, l: Log, jail: Name)
    ensures var l' := Try(f, l, KillJailProcs(jail)); l'.k == l.k && (FaultFree(f) && jail in l.k.jails && AllOk(l.receipts) ==> AllOk(l'.receipts))
  {
    OneOk(f, l, KillJailProcs(jail));
  }

  lemma SparedTrans(a: Nics, b: Nics, c: Nics, p: Pair)
    requires Spared(a, b, p) && Spared(b, c, p)
    ensures Spared(a, c, p)
  {
  }

  lemma SparedKin(a: Nics, b: Nics, p: Pair)
    requires Spared(a, b, p)
    ensures Both(a, p) <==> Both(b, p)
    ensures Kin(a, p) ==> Kin(b, p)
    ensures PairUp(a, p) <==> PairUp(b, p)
    ensures Before(a, p) == Before(b, p)
    ensures PairUp(a, p) ==> b[p.I()] == a[p.I()]
  {
    if Both(a, p) {
      assert NicAt(a, p.H()) == NicAt(b, p.H()) && NicAt(a, p.I()) == NicAt(b, p.I());
    }
  }

  /** Destroying a host interface spares every epair that is not its own. */
  lemma DestroySpares(f: Faults, l: Log, x: Name, p: Pair)
    requires Sound(l.k) && Kin(l.k.nics, p) && p.host != x
    ensures var l' := Try(f, l, DestroyNic(HostAt(x))); Sound(l'.k) && l'.k.jails == l.k.jails && Spared(l.k.nics, l'.k.nics, p)
  {
    TrySound(f, l, DestroyNic(HostAt(x)));
  }

  lemma {:induction false} DestroysSpare(f: Faults, l: Log, hosts: seq<Name>, p: Pair)
    requires Sound(l.k) && Kin(l.k.nics, p) && p.host !in hosts
    ensures var l' := Tried(f, l, DestroyCmds(hosts)); Sound(l'.k) && l'.k.jails == l.k.jails && Spared(l.k.nics, l'.k.nics, p)
  {
    if hosts != [] {
      var rest, last := hosts[..|hosts| - 1], hosts[|hosts| - 1];
      hide Sound, Kin, Spared, Try;
      assert DestroyCmds(hosts) == DestroyCmds(rest) + [DestroyNic(HostAt(last))];
      DestroysSpare(f, l, rest, p);
      var l1 := Tried(f, l, DestroyCmds(rest));
      TriedMore(f, l, DestroyCmds(rest), DestroyNic(HostAt(last)));
      SparedKin(l.k.nics, l1.k.nics, p);
      DestroySpares(f, l1, last, p);
      SparedTrans(l.k.nics, l1.k.nics, Try(f, l1, DestroyNic(HostAt(last))).k.nics, p);
    } else {
      NothingSpares(l.k.nics, p);
    }
  }

  lemma NothingSpares(nics: Nics, p: Pair)
    ensures Spared(nics, nics, p)
  {
  }

  lemma DestroysSound(f: Faults, l: Log, hosts: seq<Name>)
    requires Sound(l.k)
    ensures Sound(Tried(f, l, DestroyCmds(hosts)).k) && Tried(f, l, DestroyCmds(hosts)).k.jails == l.k.jails
    decreases |hosts|
  {
    if hosts != [] {
      var rest, last := hosts[..|hosts| - 1], hosts[|hosts| - 1];
      assert DestroyCmds(hosts) == DestroyCmds(rest) + [DestroyNic(HostAt(last))];
      DestroysSound(f, l, rest);
      TriedMore(f, l, DestroyCmds(rest), DestroyNic(HostAt(last)));
      TrySound(f, Tried(f, l, DestroyCmds(rest)), DestroyNic(HostAt(last)));
      hide Sound;
    }
  }

  /** Removing jails leaves the other jails as they were. */
  ghost predicate JailsLess(k: World, k': World, jails: seq<Name>) {
    && k'.jails.Keys <= k.jails.Keys
    && (forall j :: j in k.jails && j !in jails ==> j in k'.jails && k'.jails[j] == k.jails[j])
  }

  lemma RemoveSpares(f: Faults, l: Log, j: Name, p: Pair)
    requires Sound(l.k) && Kin(l.k.nics, p) && p.jail != j
    ensures Spared(l.k.nics, Try(f, l, RemoveJail(j)).k.nics, p)
  {
  }

  lemma {:induction false} RemovesSpare(f: Faults, l: Log, jails: seq<Name>, p: Pair)
    requires Sound(l.k) && Kin(l.k.nics, p) && p.jail !in jails
    ensures Spared(l.k.nics, Tried(f, l, RemoveCmds(jails)).k.nics, p)
  {
    if jails != [] {
      var rest, last := jails[..|jails| - 1], jails[|jails| - 1];
      hide Sound, Kin, Spared, Try;
      assert RemoveCmds(jails) == RemoveCmds(rest) + [RemoveJail(last)];
      RemovesSpare(f, l, rest, p);
      RemovesSound(f, l, rest);
      var l1 := Tried(f, l, RemoveCmds(rest));
      TriedMore(f, l, RemoveCmds(rest), RemoveJail(last));
      SparedKin(l.k.nics, l1.k.nics, p);
      RemoveSpares(f, l1, last, p);
      SparedTrans(l.k.nics, l1.k.nics, Try(f, l1, RemoveJail(last)).k.nics, p);
    } else {
      NothingSpares(l.k.nics, p);
    }
  }

  lemma RemoveOne(f: Faults, l: Log, j: Name)
    requires Sound(l.k)
    ensures var l' := Try(f, l, RemoveJail(j));
            Sound(l'.k) && l'.k.jails == if Works(f, l, RemoveJail(j)) then l.k.jails - {j} else l.k.jails
  {
    TrySound(f, l, RemoveJail(j));
  }

  lemma {:induction false} RemovesSound(f: Faults, l: Log, jails: seq<Name>)
    requires Sound(l.k)
    ensures Sound(Tried(f, l, RemoveCmds(jails)).k) && JailsLess(l.k, Tried(f, l, RemoveCmds(jails)).k, jails)
  {
    hide Sound, Try, Works;
    if jails != [] {
      var rest, last := jails[..|jails| - 1], jails[|jails| - 1];
      assert RemoveCmds(jails) == RemoveCmds(rest) + [RemoveJail(last)];
      RemovesSound(f, l, rest);
      TriedMore(f, l, RemoveCmds(rest), RemoveJail(last));
      RemoveOne(f, Tried(f, l, RemoveCmds(rest)), last);
    }
  }

  // ------------------------------------------------- what teardown leaves, exactly

  /** x goes when these host interfaces are destroyed: it is one, or the other end of one. */
  predicate GoesWith(nics: Nics, x: Place, hosts: set<Name>)
    requires x in nics
  {
    || (exists h :: h in hosts && x == HostAt(h))
    || (exists h :: h in hosts && nics[x].peer == Some(HostAt(h)))
  }

  /** x is in a jail that is not kept. */
  predicate Outside(x: Place, kept: set<Name>) {
    x.vnet.Inside? && x.vnet.jail !in kept
  }

  /** What is left of the interface at x when some hosts are destroyed and some jails kept. */
  function NicLeft(nics: Nics, x: Place, hosts: set<Name>, kept: set<Name>): Option<Nic> {
    if x !in nics || GoesWith(nics, x, hosts) || Outside(x, kept) then None
    else if nics[x].peer.Some? && Outside(nics[x].peer.value, kept) then Some(nics[x].(peer := None))
    else Some(nics[x])
  }

  ghost predicate LeftExactly(nics: Nics, nics': Nics, hosts: set<Name>, kept: set<Name>) {
    forall x: Place :: x.name.Given? ==> NicAt(nics', x) == NicLeft(nics, x, hosts, kept)
  }

  lemma LeftMore(a: Nics, b: Nics, c: Nics, hosts: set<Name>, kept: set<Name>, hosts': set<Name>, kept': set<Name>)
    requires LeftExactly(a, b, hosts, kept) && LeftExactly(b, c, hosts', kept') && kept' <= kept
    ensures LeftExactly(a, c, hosts + hosts', kept')
  {
    forall x: Place | x.name.Given? ensures NicAt(c, x) == NicLeft(a, x, hosts + hosts', kept') {
      assert NicAt(b, x) == NicLeft(a, x, hosts, kept);
      assert NicAt(c, x) == NicLeft(b, x, hosts', kept');
      if x in a {
        assert GoesWith(a, x, hosts + hosts') <==> GoesWith(a, x, hosts) || GoesWith(a, x, hosts');
        if x in b {
          assert GoesWith(b, x, hosts') <==> GoesWith(a, x, hosts');
        }
      }
    }
  }

  lemma NothingLeft(k: World)
    requires Sound(k)
    ensures LeftExactly(k.nics, k.nics, {}, k.jails.Keys)
  {
  }

  lemma DestroyLeaves(f: Faults, l: Log, h: Name)
    requires Sound(l.k) && FaultFree(f)
    ensures LeftExactly(l.k.nics, Try(f, l, DestroyNic(HostAt(h))).k.nics, {h}, l.k.jails.Keys)
  {
    var nics, nics' := l.k.nics, Try(f, l, DestroyNic(HostAt(h))).k.nics;
    forall x: Place | x.name.Given? ensures NicAt(nics', x) == NicLeft(nics, x, {h}, l.k.jails.Keys) {
      if x in nics {
        assert GoesWith(nics, x, {h}) <==> x == HostAt(h) || nics[x].peer == Some(HostAt(h));
      }
    }
  }

  lemma RemoveLeaves(f: Faults, l: Log, j: Name)
    requires Sound(l.k) && FaultFree(f) && j in l.k.jails
    ensures LeftExactly(l.k.nics, Try(f, l, RemoveJail(j)).k.nics, {}, l.k.jails.Keys - {j})
    ensures Works(f, l, RemoveJail(j))
  {
  }

  lemma {:induction false} DestroysLeave(f: Faults, l: Log, hosts: seq<Name>)
    requires Sound(l.k) && FaultFree(f)
    ensures LeftExactly(l.k.nics, Tried(f, l, DestroyCmds(hosts)).k.nics, Elements(hosts), l.k.jails.Keys)
  {
    hide Sound, FaultFree, LeftExactly, Try, Works;
    if hosts == [] {
      NothingLeft(l.k);
      assert Elements(hosts) == {};
    } else {
      var rest, last := hosts[..|hosts| - 1], hosts[|hosts| - 1];
      assert hosts == rest + [last] && Elements(hosts) == Elements(rest) + {last};
      assert DestroyCmds(hosts) == DestroyCmds(rest) + [DestroyNic(HostAt(last))];
      DestroysLeave(f, l, rest);
      DestroysSound(f, l, rest);
      var l1 := Tried(f, l, DestroyCmds(rest));
      TriedMore(f, l, DestroyCmds(rest), DestroyNic(HostAt(last)));
      DestroyLeaves(f, l1, last);
      LeftMore(l.k.nics, l1.k.nics, Try(f, l1, DestroyNic(HostAt(last))).k.nics, Elements(rest), l.k.jails.Keys, {last}, l.k.jails.Keys);
    }
  }

  lemma {:induction false} RemovesLeave(f: Faults, l: Log, jails: seq<Name>)
    requires Sound(l.k) && FaultFree(f) && Ascending(jails) && forall j :: j in jails ==> j in l.k.jails
    ensures var l' := Tried(f, l, RemoveCmds(jails));
            && l'.k.jails.Keys == l.k.jails.Keys - Elements(jails) && LeftExactly(l.k.nics, l'.k.nics, {}, l'.k.jails.Keys)
            && (AllOk(l.receipts) <==> AllOk(l'.receipts))
  {
    hide Sound, FaultFree, LeftExactly, Try, Works, AllOk, Ascending;
    if jails == [] {
      NothingLeft(l.k);
    } else {
      var rest, last := jails[..|jails| - 1], jails[|jails| - 1];
      AscendingLast(jails);
      assert RemoveCmds(jails) == RemoveCmds(rest) + [RemoveJail(last)];
      RemovesLeave(f, l, rest);
      RemovesSound(f, l, rest);
      var l1 := Tried(f, l, RemoveCmds(rest));
      TriedMore(f, l, RemoveCmds(rest), RemoveJail(last));
      RemoveOne(f, l1, last);
      RemoveLeaves(f, l1, last);
      OneOk(f, l1, RemoveJail(last));
      var none: set<Name> := {};
      LeftMore(l.k.nics, l1.k.nics, Try(f, l1, RemoveJail(last)).k.nics, none, l1.k.jails.Keys, none, l1.k.jails.Keys - {last});
      assert none + none == none;
      assert Tried(f, l, RemoveCmds(jails)).k.jails.Keys == l1.k.jails.Keys - {last};
    }
  }

  /** Only the host interfaces that are destroyed leave the group, if they are the group's. */
  lemma LeftGroup(nics: Nics, nics': Nics, hosts: set<Name>, kept: set<Name>)
    requires Matched(nics) && LeftExactly(nics, nics', hosts, kept)
    requires forall x :: x in hosts && HostAt(x) in nics ==> x in Grouped(nics)
    ensures Grouped(nics') == Grouped(nics) - hosts
  {
    forall x ensures x in Grouped(nics') <==> x in Grouped(nics) && x !in hosts {
      assert NicAt(nics', HostAt(x)) == NicLeft(nics, HostAt(x), hosts, kept);
    }
  }

  lemma DestroyOne(f: Faults, l: Log, x: Name)
    requires Sound(l.k) && FaultFree(f) && (HostAt(x) in l.k.nics ==> x in Grouped(l.k.nics))
    ensures Grouped(Try(f, l, DestroyNic(HostAt(x))).k.nics) == Grouped(l.k.nics) - {x}
    ensures Works(f, l, DestroyNic(HostAt(x))) <==> x in Grouped(l.k.nics)
  {
  }

  /** A destroy of a host interface of the group fails exactly when it was gone already. */
  lemma {:induction false} DestroysDestroy(f: Faults, l: Log, hosts: seq<Name>)
    requires Sound(l.k) && FaultFree(f) && Ascending(hosts)
    requires forall x :: x in hosts && HostAt(x) in l.k.nics ==> x in Grouped(l.k.nics)
    ensures var l' := Tried(f, l, DestroyCmds(hosts));
            && Grouped(l'.k.nics) == Grouped(l.k.nics) - Elements(hosts)
            && (AllOk(l'.receipts) <==> AllOk(l.receipts) && Elements(hosts) <= Grouped(l.k.nics))
  {
    hide Sound, FaultFree, AllOk, Ascending, Try, Works, Grouped, LeftExactly;
    if hosts != [] {
      var rest, last := hosts[..|hosts| - 1], hosts[|hosts| - 1];
      AscendingLast(hosts);
      assert DestroyCmds(hosts) == DestroyCmds(rest) + [DestroyNic(HostAt(last))];
      DestroysDestroy(f, l, rest);
      DestroysSound(f, l, rest);
      var l1 := Tried(f, l, DestroyCmds(rest));
      TriedMore(f, l, DestroyCmds(rest), DestroyNic(HostAt(last)));
      DestroysLeave(f, l, rest);
      HostLeft(l.k.nics, l1.k.nics, Elements(rest), l.k.jails.Keys, last);
      DestroyOne(f, l1, last);
      OneOk(f, l1, DestroyNic(HostAt(last)));
    }
  }

  lemma HostLeft(nics: Nics, nics': Nics, hosts: set<Name>, kept: set<Name>, x: Name)
    requires LeftExactly(nics, nics', hosts, kept) && (HostAt(x) in nics ==> x in Grouped(nics))
    ensures HostAt(x) in nics' ==> x in Grouped(nics')
  {
    assert NicAt(nics', HostAt(x)) == NicLeft(nics, HostAt(x), hosts, kept);
  }

  /** Whatever fails, teardown spares the kin epairs of other hosts and jails. */
  lemma TornSpares(f: Faults, l: Log, jails: set<Name>, hosts: set<Name>, p: Pair)
    requires Sound(l.k) && Kin(l.k.nics, p) && p.host !in hosts && p.jail !in jails
    ensures Spared(l.k.nics, Torn(f, l, jails, hosts).k.nics, p)
  {
    KillsKill(f, l, Sorted(jails));
    var l1 := Tried(f, l, KillCmds(l.k, Sorted(jails)));
    DestroysSpare(f, l1, Sorted(hosts), p);
    var l2 := Tried(f, l1, DestroyCmds(Sorted(hosts)));
    SparedKin(l1.k.nics, l2.k.nics, p);
    RemovesSpare(f, l2, Sorted(jails), p);
    hide Sound, Kin, Spared, Tried;
    SparedTrans(l1.k.nics, l2.k.nics, Tried(f, l2, RemoveCmds(Sorted(jails))).k.nics, p);
  }

  /** What teardown does to the rest of the plane, and when a receipt of it fails. */
  lemma TornIs(f: Faults, l: Log, jails: set<Name>, hosts: set<Name>)
    requires Sound(l.k)
    ensures var l' := Torn(f, l, jails, hosts);
            && Sound(l'.k) && JailsLess(l.k, l'.k, Sorted(jails))
            && (FaultFree(f) && jails <= l.k.jails.Keys ==>
                  l'.k.jails.Keys == l.k.jails.Keys - jails && LeftExactly(l.k.nics, l'.k.nics, hosts, l'.k.jails.Keys))
            && (FaultFree(f) && jails <= l.k.jails.Keys && (forall x :: x in hosts && HostAt(x) in l.k.nics ==> x in Grouped(l.k.nics)) ==>
                  && Grouped(l'.k.nics) == Grouped(l.k.nics) - hosts
                  && (AllOk(l.receipts) ==> (AllOk(l'.receipts) <==> hosts <= Grouped(l.k.nics))))
  {
    IsMatched(l.k);
    hide Sound, Tried, AllOk, LeftExactly, JailsLess, Ascending, Grouped, FaultFree, Matched;
    var js, hs := Sorted(jails), Sorted(hosts);
    assert Elements(js) == jails && Elements(hs) == hosts;
    KillsKill(f, l, js);
    var l1 := Tried(f, l, KillCmds(l.k, js));
    DestroysSound(f, l1, hs);
    var l2 := Tried(f, l1, DestroyCmds(hs));
    RemovesSound(f, l2, js);
    var l3 := Tried(f, l2, RemoveCmds(js));
    JailsLessFrom(l.k, l2.k, l3.k, js);
    if FaultFree(f) && jails <= l.k.jails.Keys {
      DestroysLeave(f, l1, hs);
      RemovesLeave(f, l2, js);
      LeftMore(l.k.nics, l2.k.nics, l3.k.nics, hosts, l2.k.jails.Keys, {}, l3.k.jails.Keys);
      assert hosts + {} == hosts;
      if forall x :: x in hosts && HostAt(x) in l.k.nics ==> x in Grouped(l.k.nics) {
        DestroysDestroy(f, l1, hs);
        LeftGroup(l.k.nics, l3.k.nics, hosts, l3.k.jails.Keys);
      }
    }
  }

  lemma IsMatched(k: World)
    requires Sound(k)
    ensures Matched(k.nics)
  {
  }

  lemma JailsLessFrom(a: World, b: World, c: World, jails: seq<Name>)
    requires JailsLess(b, c, jails) && b.jails == a.jails
    ensures JailsLess(a, c, jails)
  {
  }

  lemma TornNothing(f: Faults, l: Log)
    ensures Torn(f, l, {}, {}) == l
  {
    NoElements(Sorted({}));
  }

  // ---------------------------------------------------------------- one epair

  /** Whether `ensure_epair` returns the jail end. */
  predicate Present(f: Faults, l: Log, p: Pair) {
    Both(l.k.nics, p) || (Works(f, Repaired(f, l, p), CreateEpair) && p.I() in Ensured(f, l, p).k.nics)
  }

  /** What becomes of the local set of host interfaces. */
  function EnsuredIfs(f: Faults, l: Log, p: Pair, hostIfs: set<Name>): (r: set<Name>)
    ensures hostIfs - {p.host} <= r <= hostIfs + {p.host}
    ensures FaultFree(f) && (Both(l.k.nics, p) ==> p.host in hostIfs) ==> r == hostIfs + {p.host}
  {
    if Both(l.k.nics, p) then hostIfs
    else
      var rest := if p.H() in l.k.nics then hostIfs - {p.host} else hostIfs;
      if Works(f, Repaired(f, l, p), CreateEpair) then rest + {p.host} else rest
  }

  class Actions {
    const faults: Faults
    var k: World
    var receipts: seq<Done>

    constructor (faults: Faults, k: World)
      ensures this.faults == faults && this.k == k && receipts == []
    {
      this.faults, this.k, receipts := faults, k, [];
    }

    ghost function Now(): Log
      reads this
    {
      Log(k, receipts)
    }

    /** Run one command and record its receipt. */
    method Do(c: Cmd) returns (ok: bool)
      modifies this
      ensures Now() == Try(faults, old(Now()), c)
      ensures ok == Plumbing.Works(faults, old(Now()), c)
    {
      ok := Enabled(c, k) && !faults(|receipts|, c);
      if ok {
        k := Effect(c, k);
      }
      receipts := receipts + [Did(c, ok)];
    }

    /** One more receipt, which is ok; the kernel is not touched. */
    method Note(file: string, text: string)
      modifies this
      ensures Now() == Noted(old(Now()), file, text) && k == old(k)
      ensures AllOk(receipts) <==> AllOk(old(receipts))
    {
      NotedOk(Now(), file, text);
      receipts := receipts + [Wrote(file, text)];
    }

    /** The functional `JailEnsured`, with the local set still the kernel's; ok means that the jail is there. */
    method EnsureJail(name: Name, jails: set<Name>) returns (ok: bool, jails': set<Name>)
      requires jails == k.jails.Keys
      modifies this
      ensures Now() == JailEnsured(faults, old(Now()), name)
      ensures jails' == k.jails.Keys && (ok <==> name in jails')
    {
      jails' := jails;
      if name in jails {
        return true, jails';
      }
      ok := Do(CreateJail(name));
      if !ok {
        return;
      }
      jails' := jails + {name};
      var _ := Do(JailLoopback(name));
    }

    /** The functional `Ensured`; the reading returned is of the jail end as the call leaves it. */
    method EnsureEpair(p: Pair, hostIfs: set<Name>) returns (inner: Option<Nic>, hostIfs': set<Name>)
      modifies this
      ensures Now() == Ensured(faults, old(Now()), p)
      ensures inner == if Present(faults, old(Now()), p) then NicAt(k.nics, p.I()) else None
      ensures hostIfs' == EnsuredIfs(faults, old(Now()), p, hostIfs)
    {
      var hostText, innerText := NicAt(k.nics, p.H()), NicAt(k.nics, p.I());
      var haveHost, haveInner := hostText.Some?, innerText.Some?;
      hostIfs' := hostIfs;
      if haveHost && !haveInner {
        var _ := Do(DestroyNic(p.H()));
        hostIfs' := hostIfs' - {p.host};
        haveHost := false;
      }
      if haveHost {
        if hostText.value.descr != p.descr {
          var _ := Do(FixDescr(p.host, p.descr));
        }
      }
      if haveInner && !haveHost {
        var _ := Do(DestroyNic(p.I()));
        haveInner := false;
      }
      assert Now() == Repaired(faults, old(Now()), p);
      if !haveHost {
        var n := k.next;
        var ok := Do(CreateEpair);
        if !ok {
          return None, hostIfs';
        }
        var _ := Do(NameHostIf(n, p.host, p.descr));
        hostIfs' := hostIfs' + {p.host};
        var _ := Do(MoveJailIf(n, p.jail));
        var _ := Do(NameJailIf(n, p.jail, p.inner));
        innerText := NicAt(k.nics, p.I());
        haveInner := innerText.Some?;
      }
      inner := if haveInner then innerText else None;
    }

    /** The functional `AddrsSet`; every command is decided by `inner`, one reading before all of them. */
    method EnsureAddrs(at: Place, inner: Nic, mac: Mac, ips: seq<Inet>)
      requires at in k.nics && k.nics[at] == inner
      modifies this
      ensures Now() == AddrsSet(faults, old(Now()), at, mac, ips)
    {
      if inner.mac != mac {
        var _ := Do(SetMac(at, mac));
      }
      assert Now() == Tried(faults, old(Now()), MacCmds(at, inner.mac, mac)) by {
        TriedMore(faults, old(Now()), [], SetMac(at, mac));
        assert [] + [SetMac(at, mac)] == [SetMac(at, mac)];
      }
      hide Try, Tried, Stale;
      AddInets(at, inner.inets, ips);
      DropInets(at, inner.inets, ips);
    }

    method AddInets(at: Place, have: map<Addr, nat>, ips: seq<Inet>)
      modifies this
      ensures Now() == Tried(faults, old(Now()), AddCmds(at, have, ips))
    {
      hide Try, Plumbing.Works, Ascending, LeStr;
      for i := 0 to |ips|
        invariant Now() == Tried(faults, old(Now()), AddCmds(at, have, ips[..i]))
      {
        assert ips[..i + 1][..i] == ips[..i];
        TriedMore(faults, old(Now()), AddCmds(at, have, ips[..i]), AddInet(at, ips[i].addr, ips[i].prefix));
        if Has(have, ips[i]) {
          continue;
        }
        var _ := Do(AddInet(at, ips[i].addr, ips[i].prefix));
      }
      assert ips[..|ips|] == ips;
    }

    method DropInets(at: Place, have: map<Addr, nat>, ips: seq<Inet>)
      modifies this
      ensures Now() == Tried(faults, old(Now()), DropCmds(at, Sorted(Stale(have, ips))))
    {
      hide Try, Plumbing.Works, Ascending, LeStr;
      var stale := SortNames(Stale(have, ips));
      for i := 0 to |stale|
        invariant Now() == Tried(faults, old(Now()), DropCmds(at, stale[..i]))
      {
        assert DropCmds(at, stale[..i + 1]) == DropCmds(at, stale[..i]) + [DropInet(at, stale[i])];
        TriedMore(faults, old(Now()), DropCmds(at, stale[..i]), DropInet(at, stale[i]));
        var _ := Do(DropInet(at, stale[i]));
      }
      assert stale[..|stale|] == stale;
    }

    // ---------------------------------------------------------------- teardown

    /** The functional `Torn` of what is not desired, and the jails whose processes were killed. */
    method Collect(jails: set<Name>, desiredJails: set<Name>, hostIfs: set<Name>, desiredIfs: set<Name>) returns (killed: set<Name>)
      modifies this
      ensures killed == Killed(faults, old(Now()), Sorted(jails - desiredJails))
      ensures Now() == Torn(faults, old(Now()), jails - desiredJails, hostIfs - desiredIfs)
    {
      hide Tried;
      killed := KillProcs(jails - desiredJails);
      DestroyEpairs(hostIfs - desiredIfs);
      RemoveJails(jails - desiredJails);
    }

    method KillProcs(jails: set<Name>) returns (killed: set<Name>)
      modifies this
      ensures Now() == Tried(faults, old(Now()), KillCmds(old(k), Sorted(jails)))
      ensures killed == Killed(faults, old(Now()), Sorted(jails))
    {
      killed := {};
      var doomed := SortNames(jails);
      NoKills(faults, Now());
      assert doomed[..0] == [];
      hide Try, Plumbing.Works, KillCmds, Killed, Ascending;
      for i := 0 to |doomed|
        invariant Now() == Tried(faults, old(Now()), KillCmds(old(k), doomed[..i])) && k == old(k)
        invariant killed == Killed(faults, old(Now()), doomed[..i])
      {
        KillMore(faults, old(Now()), doomed, i);
        TriedMore(faults, old(Now()), KillCmds(old(k), doomed[..i]), KillJailProcs(doomed[i]));
        KillsKill(faults, old(Now()), doomed[..i + 1]);
        if doomed[i] in k.jails {
          var ok := Do(KillJailProcs(doomed[i]));
          if ok {
            killed := killed + {doomed[i]};
          }
        }
      }
      assert doomed[..|doomed|] == doomed;
    }

    method DestroyEpairs(hosts: set<Name>)
      modifies this
      ensures Now() == Tried(faults, old(Now()), DestroyCmds(Sorted(hosts)))
    {
      hide Try, Plumbing.Works, Ascending, LeStr;
      var names := SortNames(hosts);
      for i := 0 to |names|
        invariant Now() == Tried(faults, old(Now()), DestroyCmds(names[..i]))
      {
        assert DestroyCmds(names[..i + 1]) == DestroyCmds(names[..i]) + [DestroyNic(HostAt(names[i]))];
        TriedMore(faults, old(Now()), DestroyCmds(names[..i]), DestroyNic(HostAt(names[i])));
        var _ := Do(DestroyNic(HostAt(names[i])));
      }
      assert names[..|names|] == names;
    }

    method RemoveJails(jails: set<Name>)
      modifies this
      ensures Now() == Tried(faults, old(Now()), RemoveCmds(Sorted(jails)))
    {
      hide Try, Plumbing.Works, Ascending, LeStr;
      var doomed := SortNames(jails);
      for i := 0 to |doomed|
        invariant Now() == Tried(faults, old(Now()), RemoveCmds(doomed[..i]))
      {
        assert RemoveCmds(doomed[..i + 1]) == RemoveCmds(doomed[..i]) + [RemoveJail(doomed[i])];
        TriedMore(faults, old(Now()), RemoveCmds(doomed[..i]), RemoveJail(doomed[i]));
        var _ := Do(RemoveJail(doomed[i]));
      }
      assert doomed[..|doomed|] == doomed;
    }
  }
}
