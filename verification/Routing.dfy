/** The L3 reconciler (l3_agent/reconcile.py). */
module Routing {
  import opened Collections
  import opened Model
  import opened Names
  import opened JailPlane
  import opened Plumbing
  import opened Acting
  import opened PortPlane
  import opened Disk
  import opened RouterSpec

  // --------------------------------------------------------- one jail's settings

  /** A command on one jail's forwarding, routes or pf. */
  predicate IsSetting(c: Cmd, jail: Name) {
    (c.EnableForwarding? || c.DeleteRoute? || c.AddRoute? || c.EnablePf? || c.LoadPf?) && c.jail == jail
  }

  function Setting(c: Cmd, s: JailState): JailState {
    match c
    case EnableForwarding(_) => s.(forwarding := true)
    case DeleteRoute(_, d) => s.(routes := s.routes - {d})
    case AddRoute(_, d, g) => s.(routes := s.routes[d := g])
    case EnablePf(_) => s.(pfEnabled := true)
    case LoadPf(_, t) => s.(pf := Some(t))
    case _ => s
  }

  lemma SettingOnly(f: Faults, l: Log, c: Cmd, jail: Name)
    requires Sound(l.k) && jail in l.k.jails && IsSetting(c, jail)
    ensures var k' := Try(f, l, c).k;
            && Sound(k') && SameButJail(l.k, k', jail)
            && k'.jails[jail] == if Works(f, l, c) then Setting(c, l.k.jails[jail]) else l.k.jails[jail]
    ensures (&& FaultFree(f)
             && (c.DeleteRoute? ==> c.destination in l.k.jails[jail].routes)
             && (c.AddRoute? ==> c.destination !in l.k.jails[jail].routes)) ==> Works(f, l, c)
    ensures AllOk(Try(f, l, c).receipts) <==> AllOk(l.receipts) && Works(f, l, c)
  {
    TrySound(f, l, c);
    OneOk(f, l, c);
  }

  /** Run such a command. */
  method Configure(acts: Actions, jail: Name, c: Cmd) returns (ok: bool)
    requires Sound(acts.k) && jail in acts.k.jails && IsSetting(c, jail)
    modifies acts
    ensures Sound(acts.k) && SameButJail(old(acts.k), acts.k, jail)
    ensures acts.k.jails[jail] == if ok then Setting(c, old(acts.k.jails[jail])) else old(acts.k.jails[jail])
    ensures (&& FaultFree(acts.faults)
             && (c.DeleteRoute? ==> c.destination in old(acts.k.jails[jail].routes))
             && (c.AddRoute? ==> c.destination !in old(acts.k.jails[jail].routes))) ==> ok
    ensures ok && AllOk(old(acts.receipts)) ==> AllOk(acts.receipts)
  {
    SettingOnly(acts.faults, acts.Now(), c, jail);
    ok := acts.Do(c);
  }

  function HopsOf(routes: map<string, Addr>): set<Hop> {
    set d | d in routes :: Hop(d, routes[d])
  }

  /** Gateway routes the jail has and should not, then those it should have and has not. */
  method SyncRoutes(acts: Actions, jail: Name, wanted: set<Hop>)
    requires Sound(acts.k) && jail in acts.k.jails
    modifies acts
    ensures Sound(acts.k) && SameButJail(old(acts.k), acts.k, jail)
    ensures acts.k.jails[jail] == old(acts.k.jails[jail]).(routes := acts.k.jails[jail].routes)
    ensures FaultFree(acts.faults) && OneNexthop(wanted) ==>
              RoutesAre(acts.k.jails[jail].routes, wanted) && (AllOk(old(acts.receipts)) ==> AllOk(acts.receipts))
    ensures RoutesAre(old(acts.k.jails[jail].routes), wanted) ==> acts.Now() == old(acts.Now())
  {
    var have := HopsOf(acts.k.jails[jail].routes);
    ghost var routes := acts.k.jails[jail].routes;
    DeleteRoutes(acts, jail, have - wanted);
    if OneNexthop(wanted) {
      OnlyMissing(routes, wanted);
    }
    AddRoutes(acts, jail, wanted - have);
    if OneNexthop(wanted) {
      NowWanted(routes, wanted);
    }
    if RoutesAre(routes, wanted) {
      assert have == wanted;
    }
  }

  function Destinations(hops: set<Hop>): set<string> {
    set h | h in hops :: h.destination
  }

  lemma OtherDestinations(hops: set<Hop>, rest: set<Hop>, h: Hop)
    requires OneNexthop(hops) && rest <= hops && h in rest
    ensures h.destination !in Destinations(hops - rest)
    ensures Destinations(hops - (rest - {h})) == Destinations(hops - rest) + {h.destination}
  {
    assert hops - (rest - {h}) == (hops - rest) + {h};
  }

  lemma NoDestinations(hops: set<Hop>)
    ensures Destinations(hops - hops) == {} && Destinations(hops - {}) == Destinations(hops)
  {
    assert hops - {} == hops;
  }

  lemma OnePerDestination(routes: map<string, Addr>, hops: set<Hop>)
    requires forall h :: h in hops ==> h.destination in routes && routes[h.destination] == h.nexthop
    ensures OneNexthop(hops)
  {
  }

  method DeleteRoutes(acts: Actions, jail: Name, hops: set<Hop>)
    requires Sound(acts.k) && jail in acts.k.jails
    requires forall h :: h in hops ==> h.destination in acts.k.jails[jail].routes && acts.k.jails[jail].routes[h.destination] == h.nexthop
    modifies acts
    ensures Sound(acts.k) && SameButJail(old(acts.k), acts.k, jail)
    ensures acts.k.jails[jail] == old(acts.k.jails[jail]).(routes := acts.k.jails[jail].routes)
    ensures FaultFree(acts.faults) ==>
              && acts.k.jails[jail].routes == old(acts.k.jails[jail].routes) - Destinations(hops)
              && (AllOk(old(acts.receipts)) ==> AllOk(acts.receipts))
    ensures hops == {} ==> acts.Now() == old(acts.Now())
  {
    hide Sound, FaultFree, AllOk, Destinations, OneNexthop;
    NoDestinations(hops);
    OnePerDestination(acts.k.jails[jail].routes, hops);
    var rest := hops;
    while rest != {}
      invariant rest <= hops
      invariant Sound(acts.k) && SameButJail(old(acts.k), acts.k, jail)
      invariant acts.k.jails[jail] == old(acts.k.jails[jail]).(routes := acts.k.jails[jail].routes)
      invariant FaultFree(acts.faults) ==> acts.k.jails[jail].routes == old(acts.k.jails[jail].routes) - Destinations(hops - rest)
      invariant FaultFree(acts.faults) && AllOk(old(acts.receipts)) ==> AllOk(acts.receipts)
      invariant hops == {} ==> acts.Now() == old(acts.Now())
    {
      var h :| h in rest;
      OtherDestinations(hops, rest, h);
      rest := rest - {h};
      var _ := Configure(acts, jail, DeleteRoute(jail, h.destination));
    }
  }

  /** The routes with some added. */
  ghost predicate Extended(routes: map<string, Addr>, routes': map<string, Addr>, hops: set<Hop>) {
    && (forall h :: h in hops ==> h.destination in routes' && routes'[h.destination] == h.nexthop)
    && (forall d :: d in routes ==> d in routes' && routes'[d] == routes[d])
    && (forall d :: d in routes' ==> d in routes || Hop(d, routes'[d]) in hops)
  }

  /** Routes to destinations that have none, one each. */
  ghost predicate Addable(routes: map<string, Addr>, hops: set<Hop>) {
    OneNexthop(hops) && forall h :: h in hops ==> h.destination !in routes
  }

  lemma ExtendMore(routes: map<string, Addr>, routes': map<string, Addr>, hops: set<Hop>, done: set<Hop>, h: Hop)
    requires Addable(routes, hops) && done <= hops && h in hops && h !in done && Extended(routes, routes', done)
    ensures h.destination !in routes' && Extended(routes, routes'[h.destination := h.nexthop], done + {h})
  {
  }

  method AddRoutes(acts: Actions, jail: Name, hops: set<Hop>)
    requires Sound(acts.k) && jail in acts.k.jails
    modifies acts
    ensures Sound(acts.k) && SameButJail(old(acts.k), acts.k, jail)
    ensures acts.k.jails[jail] == old(acts.k.jails[jail]).(routes := acts.k.jails[jail].routes)
    ensures FaultFree(acts.faults) && Addable(old(acts.k.jails[jail].routes), hops) ==>
              && Extended(old(acts.k.jails[jail].routes), acts.k.jails[jail].routes, hops)
              && (AllOk(old(acts.receipts)) ==> AllOk(acts.receipts))
    ensures hops == {} ==> acts.Now() == old(acts.Now())
  {
    hide Sound, FaultFree, AllOk;
    var rest := hops;
    while rest != {}
      invariant rest <= hops
      invariant Sound(acts.k) && SameButJail(old(acts.k), acts.k, jail)
      invariant acts.k.jails[jail] == old(acts.k.jails[jail]).(routes := acts.k.jails[jail].routes)
      invariant FaultFree(acts.faults) && Addable(old(acts.k.jails[jail].routes), hops) ==>
                  && Extended(old(acts.k.jails[jail].routes), acts.k.jails[jail].routes, hops - rest)
                  && (AllOk(old(acts.receipts)) ==> AllOk(acts.receipts))
      invariant hops == {} ==> acts.Now() == old(acts.Now())
    {
      var h :| h in rest;
      if FaultFree(acts.faults) && Addable(old(acts.k.jails[jail].routes), hops) {
        ExtendMore(old(acts.k.jails[jail].routes), acts.k.jails[jail].routes, hops, hops - rest, h);
        assert hops - (rest - {h}) == hops - rest + {h};
      }
      rest := rest - {h};
      hide Extended, Addable;
      var _ := Configure(acts, jail, AddRoute(jail, h.destination, h.nexthop));
    }
  }

  lemma OnlyMissing(routes: map<string, Addr>, wanted: set<Hop>)
    requires OneNexthop(wanted)
    ensures Addable(routes - Destinations(HopsOf(routes) - wanted), wanted - HopsOf(routes))
  {
    forall h | h in wanted - HopsOf(routes) ensures h.destination !in routes - Destinations(HopsOf(routes) - wanted) {
      if h.destination in routes {
        assert Hop(h.destination, routes[h.destination]) in HopsOf(routes) - wanted;
      }
    }
  }

  lemma NowWanted(routes: map<string, Addr>, wanted: set<Hop>)
    requires OneNexthop(wanted)
    ensures forall routes' :: Extended(routes - Destinations(HopsOf(routes) - wanted), routes', wanted - HopsOf(routes)) ==>
        RoutesAre(routes', wanted)
  {
    forall routes' | Extended(routes - Destinations(HopsOf(routes) - wanted), routes', wanted - HopsOf(routes))
      ensures RoutesAre(routes', wanted)
    {
      forall d, g ensures Hop(d, g) in wanted <==> d in routes' && routes'[d] == g {
        if d in routes {
          assert Hop(d, routes[d]) in HopsOf(routes);
          assert d in Destinations(HopsOf(routes) - wanted) <==> Hop(d, routes[d]) !in wanted;
        }
      }
    }
  }

  // ------------------------------------------------------------------ one router

  /** The jail of a router, its ports aside. */
  ghost predicate JailDone(k: World, r: Router) {
    var j := RouterJail(r.id);
    && j in k.jails && k.jails[j].forwarding && k.jails[j].pfEnabled && k.jails[j].pf == Some(r.pf)
    && RoutesAre(k.jails[j].routes, Routes(r))
  }

  ghost predicate FileDone(dirs: Dirs, r: Router) {
    r.id in dirs && "pf.conf" in dirs[r.id] && dirs[r.id]["pf.conf"] == r.pf
  }

  /** Other routers' jails and directories are as they were. */
  ghost predicate OthersKept(k: World, k': World, dirs: Dirs, dirs': Dirs, r: Router) {
    && k.jails.Keys <= k'.jails.Keys <= k.jails.Keys + {RouterJail(r.id)}
    && (forall j :: j in k.jails && j != RouterJail(r.id) ==> k'.jails[j] == k.jails[j])
    && (forall d :: d in dirs && d != r.id ==> d in dirs' && dirs'[d] == dirs[d])
    && dirs'.Keys == dirs.Keys + {r.id}
  }

  method EnableForwarding(acts: Actions, jail: Name)
    requires Sound(acts.k) && jail in acts.k.jails
    modifies acts
    ensures Sound(acts.k) && SameButJail(old(acts.k), acts.k, jail)
    ensures acts.k.jails[jail] == old(acts.k.jails[jail]).(forwarding := acts.k.jails[jail].forwarding)
    ensures FaultFree(acts.faults) ==> acts.k.jails[jail].forwarding && (AllOk(old(acts.receipts)) ==> AllOk(acts.receipts))
    ensures old(acts.k.jails[jail].forwarding) ==> acts.Now() == old(acts.Now())
  {
    if !acts.k.jails[jail].forwarding {
      var _ := Configure(acts, jail, Cmd.EnableForwarding(jail));
    }
  }

  /** Write a changed pf.conf. */
  method WritePf(acts: Actions, disk: StateDirs, r: Router)
    requires r.id in disk.dirs
    modifies acts, disk
    ensures acts.k == old(acts.k) && (AllOk(old(acts.receipts)) ==> AllOk(acts.receipts))
    ensures acts.receipts == old(acts.receipts) + if FileDone(old(disk.dirs), r) then [] else [Wrote("WritePf", r.id)]
    ensures FileDone(disk.dirs, r) && disk.dirs == old(disk.dirs)[r.id := old(disk.dirs)[r.id]["pf.conf" := r.pf]]
    ensures FileDone(old(disk.dirs), r) ==> acts.Now() == old(acts.Now()) && disk.dirs == old(disk.dirs)
  {
    var changed := disk.WriteIfChanged(r.id, "pf.conf", r.pf);
    if changed {
      acts.Note("WritePf", r.id);
    }
  }

  /** The file has the rules, and with no faults so has pf, which is on; nothing is run when that is so. */
  method SyncPf(acts: Actions, disk: StateDirs, r: Router)
    requires Sound(acts.k) && RouterJail(r.id) in acts.k.jails && r.id in disk.dirs
    modifies acts, disk
    ensures Sound(acts.k) && SameButJail(old(acts.k), acts.k, RouterJail(r.id))
    ensures var s, s' := old(acts.k.jails[RouterJail(r.id)]), acts.k.jails[RouterJail(r.id)];
            s' == s.(pfEnabled := s'.pfEnabled, pf := s'.pf)
    ensures FileDone(disk.dirs, r) && disk.dirs == old(disk.dirs)[r.id := old(disk.dirs)[r.id]["pf.conf" := r.pf]]
    ensures FaultFree(acts.faults) ==>
              && acts.k.jails[RouterJail(r.id)].pfEnabled && acts.k.jails[RouterJail(r.id)].pf == Some(r.pf)
              && (AllOk(old(acts.receipts)) ==> AllOk(acts.receipts))
    ensures FileDone(old(disk.dirs), r) && old(acts.k.jails[RouterJail(r.id)].pfEnabled) && old(acts.k.jails[RouterJail(r.id)].pf) == Some(r.pf) ==>
              acts.Now() == old(acts.Now()) && disk.dirs == old(disk.dirs)
  {
    hide Sound, RouterJail, AllOk;
    var jail := RouterJail(r.id);
    WritePf(acts, disk, r);
    if !acts.k.jails[jail].pfEnabled {
      var _ := Configure(acts, jail, EnablePf(jail));
    }
    if acts.k.jails[jail].pf != Some(r.pf) {
      var _ := Configure(acts, jail, LoadPf(jail, disk.dirs[r.id]["pf.conf"]));
    }
  }

  /** Routes and pf, once the ports have been seen to. */
  method Settle(acts: Actions, disk: StateDirs, r: Router, complete: bool)
    requires Sound(acts.k) && RouterJail(r.id) in acts.k.jails && r.id in disk.dirs
    modifies acts, disk
    ensures Sound(acts.k) && SameButJail(old(acts.k), acts.k, RouterJail(r.id))
    ensures FileDone(disk.dirs, r) && disk.dirs == old(disk.dirs)[r.id := disk.dirs[r.id]]
    ensures FaultFree(acts.faults) && OneNexthop(Routes(r)) && complete && old(acts.k.jails[RouterJail(r.id)].forwarding) ==>
              JailDone(acts.k, r) && (AllOk(old(acts.receipts)) ==> AllOk(acts.receipts))
    ensures !complete ==> RoutesIn(acts.k, RouterJail(r.id)) == RoutesIn(old(acts.k), RouterJail(r.id))
    ensures JailDone(old(acts.k), r) && FileDone(old(disk.dirs), r) ==> acts.Now() == old(acts.Now()) && disk.dirs == old(disk.dirs)
  {
    hide Sound, FaultFree, OneNexthop, RoutesAre, Routes, RouterJail, AllOk;
    // with a port missing, routes wait for a later pass
    if complete {
      SyncRoutes(acts, RouterJail(r.id), Routes(r));
    }
    SyncPf(acts, disk, r);
  }

  /** The router's directory and jail, with forwarding on. */
  method Prepare(acts: Actions, disk: StateDirs, r: Router, jails: set<Name>) returns (ok: bool, jails': set<Name>)
    requires Sound(acts.k) && jails == acts.k.jails.Keys
    modifies acts, disk
    ensures Sound(acts.k) && acts.k.nics == old(acts.k.nics)
    ensures jails' == acts.k.jails.Keys && (ok ==> RouterJail(r.id) in jails') && r.id in disk.dirs
    ensures OthersKept(old(acts.k), acts.k, old(disk.dirs), disk.dirs, r)
    ensures RoutesIn(acts.k, RouterJail(r.id)) == RoutesIn(old(acts.k), RouterJail(r.id))
    ensures !ok ==> RouterJail(r.id) !in acts.k.jails && acts.k == old(acts.k)
    ensures FaultFree(acts.faults) ==> ok && acts.k.jails[RouterJail(r.id)].forwarding && (AllOk(old(acts.receipts)) ==> AllOk(acts.receipts))
    ensures JailDone(old(acts.k), r) && FileDone(old(disk.dirs), r) ==> ok && acts.Now() == old(acts.Now()) && disk.dirs == old(disk.dirs)
  {
    JailEnsuredIs(acts.faults, acts.Now(), RouterJail(r.id));
    assert RouterJail(r.id) in acts.k.jails ==> JailEnsured(acts.faults, acts.Now(), RouterJail(r.id)) == acts.Now();
    hide Sound, FaultFree, RoutesAre, Routes, RouterJail, AllOk, JailEnsured;
    disk.MakeDir(r.id);
    ok, jails' := acts.EnsureJail(RouterJail(r.id), jails);
    if ok {
      EnableForwarding(acts, RouterJail(r.id));
    }
  }

  /** One router of a pass over `all` ports, of which m are seen to. With no faults its jail, ports,
      routes and pf become as desired and no receipt fails; whatever fails, the other routers are left
      alone, desired ends stay kin if their halves can be destroyed, a router whose jail cannot be made is
      passed over, and the routes of one that lacks a port stay as they were. */
  method OneRouter(acts: Actions, disk: StateDirs, r: Router, jails: set<Name>, l3Ifs: set<Name>, ghost nics0: Nics,
      ghost all: seq<Spec>, ghost m: nat)
    returns (jails': set<Name>, l3Ifs': set<Name>, ghost l: Log)
    requires Sound(acts.k) && jails == acts.k.jails.Keys
    requires Slice(Specs(r), all, m) && Tourable(nics0, all) && OneNexthop(Routes(r))
    modifies acts, disk
    ensures Sound(acts.k) && jails' == acts.k.jails.Keys
    ensures OthersKept(old(acts.k), acts.k, old(disk.dirs), disk.dirs, r)
    ensures RouterJail(r.id) !in acts.k.jails ==> acts.k == old(acts.k)
    ensures l.k.nics == old(acts.k).nics && (RouterJail(r.id) in acts.k.jails ==> acts.k.nics == PortsEnsured(acts.faults, l, Specs(r)).k.nics)
    ensures RouterJail(r.id) in acts.k.jails && !AllPresent(acts.faults, l, Specs(r)) ==>
              RoutesIn(acts.k, RouterJail(r.id)) == RoutesIn(old(acts.k), RouterJail(r.id))
    ensures HalvesGo(acts.faults, all) && AllKin(old(acts.k).nics, all) ==> AllKin(acts.k.nics, all)
    ensures Underway(acts.faults, nics0, old(acts.k).nics, all, m, l3Ifs) ==>
              && Underway(acts.faults, nics0, acts.k.nics, all, m + |Specs(r)|, l3Ifs')
              && JailDone(acts.k, r) && FileDone(disk.dirs, r) && (AllOk(old(acts.receipts)) ==> AllOk(acts.receipts))
    ensures FaultFree(acts.faults) && JailDone(old(acts.k), r) && FileDone(old(disk.dirs), r) && AllDone(old(acts.k).nics, Specs(r)) ==>
              acts.Now() == old(acts.Now()) && disk.dirs == old(disk.dirs)
  {
    hide Sound, FaultFree, Apart, AllKin, AllFunctional, Tourable, OneNexthop, RoutesAre, Specs, Routes, RouterJail, AllOk, Underway,
        Slice, HalvesGo, AllDone, JailDone, FileDone,
      PortsEnsured, PortsIfs, AllPresent, OthersKept, SameButJail;
    SpecsInJail(r);
    SliceFunctional(nics0, Specs(r), all, m);
    IsFaultFree(acts.faults, nics0, acts.k.nics, all, m, l3Ifs);
    l3Ifs' := l3Ifs;
    var ok;
    ok, jails' := Prepare(acts, disk, r, jails);
    l := acts.Now();
    if !ok {
      return;
    }
    assert l.k.nics == old(acts.k).nics;
    PortsSound(acts.faults, l, Specs(r));
    var complete;
    complete, l3Ifs' := Ports(acts, Specs(r), l3Ifs);
    if HalvesGo(acts.faults, all) && AllKin(l.k.nics, all) {
      ApartAll(nics0, all);
      PortsKin(acts.faults, l, all, m, Specs(r));
    }
    if Underway(acts.faults, nics0, l.k.nics, all, m, l3Ifs) {
      PortsTour(acts.faults, nics0, l, all, m, l3Ifs, Specs(r));
      assert Underway(acts.faults, nics0, acts.k.nics, all, m + |Specs(r)|, l3Ifs');
    }
    if AllDone(l.k.nics, Specs(r)) {
      PortsQuiet(acts.faults, l, Specs(r));
    }
    ghost var k, dirs := acts.k, disk.dirs;
    Settle(acts, disk, r, complete);
    SettledOnly(old(acts.k), l.k, k, acts.k, old(disk.dirs), dirs, disk.dirs, r);
    assert acts.k.nics == k.nics;
  }

  lemma SettledOnly(k0: World, k1: World, k2: World, k3: World, dirs0: Dirs, dirs: Dirs, dirs': Dirs, r: Router)
    requires OthersKept(k0, k1, dirs0, dirs, r) && k2.jails == k1.jails && SameButJail(k2, k3, RouterJail(r.id))
    requires r.id in dirs' && dirs' == dirs[r.id := dirs'[r.id]] && RouterJail(r.id) in k2.jails
    ensures OthersKept(k0, k3, dirs0, dirs', r) && k3.nics == k2.nics && k3.jails.Keys == k1.jails.Keys
  {
  }

  lemma SliceFunctional(nics0: Nics, specs: seq<Spec>, all: seq<Spec>, m: nat)
    requires Tourable(nics0, all) && Slice(specs, all, m)
    ensures AllFunctional(specs)
  {
  }

  lemma ApartAll(nics0: Nics, all: seq<Spec>)
    requires Tourable(nics0, all)
    ensures Apart(all)
  {
  }

  // ------------------------------------------------------------------ all routers

  /** Jails, directories, host interfaces and jail ends are one router's, and one port's, each. */
  ghost predicate Distinct(desired: seq<Router>) {
    && Apart(AllSpecs(desired)) && AllFunctional(AllSpecs(desired))
    && (forall i :: 0 <= i < |desired| ==> OneNexthop(Routes(desired[i])))
    && (forall i, j :: 0 <= i < j < |desired| ==> RouterJail(desired[i].id) != RouterJail(desired[j].id) && desired[i].id != desired[j].id)
  }

  function DesiredIds(desired: seq<Router>): set<Name> {
    set i | 0 <= i < |desired| :: desired[i].id
  }

  function DesiredIfs(desired: seq<Router>): set<Name> {
    HostsOf(AllSpecs(desired), |AllSpecs(desired)|)
  }

  /** The jails and directories of the first n routers. */
  ghost predicate JailsDone(k: World, dirs: Dirs, desired: seq<Router>, n: nat)
    requires n <= |desired|
  {
    forall i :: 0 <= i < n ==> JailDone(k, desired[i]) && FileDone(dirs, desired[i])
  }

  /** No jail, host interface or directory but those desired, and the jails and directories as desired. */
  ghost predicate OnlyDesired(k: World, dirs: Dirs, desired: seq<Router>) {
    && k.jails.Keys == DesiredJails(desired) && Grouped(k.nics) == DesiredIfs(desired) && dirs.Keys == DesiredIds(desired)
    && JailsDone(k, dirs, desired, |desired|)
  }

  /** Exactly the desired jails, epairs, addresses, routes, pf and directories. */
  ghost predicate Settled(k: World, dirs: Dirs, desired: seq<Router>) {
    OnlyDesired(k, dirs, desired) && AllDone(k.nics, AllSpecs(desired))
  }

  /** The same, but for addresses whose prefix length had to change. */
  ghost predicate SettledAs(k0: World, k: World, dirs: Dirs, desired: seq<Router>) {
    OnlyDesired(k, dirs, desired) && PortsAs(k0.nics, k.nics, AllSpecs(desired), |AllSpecs(desired)|)
  }

  /** What the loop has made of the plane after n routers and m of all ports. */
  ghost predicate Reached(f: Faults, k0: World, k: World, dirs: Dirs, desired: seq<Router>, all: seq<Spec>, n: nat, m: nat, l3Ifs: set<Name>)
    requires n <= |desired|
  {
    && Sound(k) && (HalvesGo(f, all) ==> AllKin(k.nics, all))
    && (FaultFree(f) ==> Underway(f, k0.nics, k.nics, all, m, l3Ifs) && JailsDone(k, dirs, desired, n))
  }

  lemma JailsStep(k: World, k': World, dirs: Dirs, dirs': Dirs, desired: seq<Router>, n: nat)
    requires Distinct(desired) && n < |desired| && JailsDone(k, dirs, desired, n) && OthersKept(k, k', dirs, dirs', desired[n])
    requires JailDone(k', desired[n]) && FileDone(dirs', desired[n])
    ensures JailsDone(k', dirs', desired, n + 1)
  {
    hide RoutesAre, Routes, RouterJail, Apart, AllFunctional;
    forall i | 0 <= i < n ensures JailDone(k', desired[i]) && FileDone(dirs', desired[i]) {
      assert RouterJail(desired[i].id) != RouterJail(desired[n].id) && desired[i].id != desired[n].id;
      assert JailDone(k, desired[i]) && FileDone(dirs, desired[i]);
    }
  }

  lemma ReachedFirst(f: Faults, k: World, dirs: Dirs, desired: seq<Router>, all: seq<Spec>)
    requires Sound(k) && Distinct(desired) && all == AllSpecs(desired) && AllKin(k.nics, all)
    ensures Reached(f, k, k, dirs, desired, all, 0, 0, Grouped(k.nics)) && Tourable(k.nics, all)
    ensures |SpecsUpTo(desired, 0)| == 0 && AllOk([])
  {
    TourBegins(k.nics, all);
    assert Grouped(k.nics) + HostsOf(all, 0) == Grouped(k.nics);
  }

  lemma ReachMore(f: Faults, k0: World, k: World, k': World, dirs: Dirs, dirs': Dirs, desired: seq<Router>, all: seq<Spec>,
                  n: nat, m: nat, m': nat, l3Ifs: set<Name>, l3Ifs': set<Name>)
    requires Distinct(desired) && n < |desired| && Reached(f, k0, k, dirs, desired, all, n, m, l3Ifs)
    requires Sound(k') && OthersKept(k, k', dirs, dirs', desired[n])
    requires HalvesGo(f, all) && AllKin(k.nics, all) ==> AllKin(k'.nics, all)
    requires Underway(f, k0.nics, k.nics, all, m, l3Ifs) ==>
               Underway(f, k0.nics, k'.nics, all, m', l3Ifs') && JailDone(k', desired[n]) && FileDone(dirs', desired[n])
    ensures Reached(f, k0, k', dirs', desired, all, n + 1, m', l3Ifs')
  {
    hide FaultFree, Sound, Distinct, HalvesGo, AllKin, Underway, JailsDone, OthersKept, JailDone, FileDone;
    if FaultFree(f) {
      JailsStep(k, k', dirs, dirs', desired, n);
    }
  }

  lemma {:induction false} DoneSlice(nics: Nics, specs: seq<Spec>, all: seq<Spec>, m: nat)
    requires AllDone(nics, all) && Slice(specs, all, m)
    ensures AllDone(nics, specs)
  {
    forall a | 0 <= a < |specs| ensures SpecDone(nics, specs[a]) {
      assert specs[a] == all[m + a];
    }
  }

  /** The L3 pass, from any half-states. A fault-free pass leaves
      exactly what is desired if and only if no kept address had another prefix length; where one had,
      the address is left out, and the next pass adds it. Its receipts are all ok if and only if no
      undesired interface of the group had its peer under the name of a desired one. A settled plane is
      left alone, without a receipt. Whatever fails, if the broken halves of desired epairs can be
      destroyed, the plane stays one that a later pass settles. */
  method Reconcile(acts: Actions, disk: StateDirs, desired: seq<Router>)
    requires Sound(acts.k) && Distinct(desired) && AllKin(acts.k.nics, AllSpecs(desired)) && acts.receipts == []
    modifies acts, disk
    ensures Sound(acts.k)
    ensures HalvesGo(acts.faults, AllSpecs(desired)) ==> AllKin(acts.k.nics, AllSpecs(desired))
    ensures FaultFree(acts.faults) ==> Settles(old(acts.k), acts.k, acts.receipts, disk.dirs, desired)
    ensures FaultFree(acts.faults) && Settled(old(acts.k), old(disk.dirs), desired) ==>
              acts.receipts == [] && acts.k == old(acts.k) && disk.dirs == old(disk.dirs)
  {
    hide Sound, Distinct, FaultFree, Grouped, Reached, Settled, Settles, HalvesGo, AllOk, Tourable,
      AllSpecs, AllKin, OthersKept, Underway, AllDone, JailDone, FileDone, SpecsUpTo, Slice, Specs, Routes, OneNexthop,
      AllPresent, PortsEnsured, RoutesIn, RouterJail;
    ghost var k0, dirs0, all := acts.k, disk.dirs, AllSpecs(desired);
    var jails, l3Ifs := acts.k.jails.Keys, Grouped(acts.k.nics);
    ReachedFirst(acts.faults, k0, dirs0, desired, all);
    ghost var m: nat := 0;
    for n := 0 to |desired|
      invariant m == |SpecsUpTo(desired, n)| && jails == acts.k.jails.Keys
      invariant Reached(acts.faults, k0, acts.k, disk.dirs, desired, all, n, m, l3Ifs)
      invariant FaultFree(acts.faults) ==> AllOk(acts.receipts)
      invariant FaultFree(acts.faults) && Settled(k0, dirs0, desired) ==> acts.Now() == old(acts.Now()) && disk.dirs == dirs0
    {
      ghost var k, dirs, l3Ifs0 := acts.k, disk.dirs, l3Ifs;
      RouterIsReady(acts.faults, k0, k, dirs, desired, all, n, m, l3Ifs);
      ghost var begun;
      jails, l3Ifs, begun := OneRouter(acts, disk, desired[n], jails, l3Ifs, k0.nics, all, m);
      ReachMore(acts.faults, k0, k, acts.k, dirs, disk.dirs, desired, all, n, m, m + |Specs(desired[n])|, l3Ifs0, l3Ifs);
      m := m + |Specs(desired[n])|;
    }
    AllOfThem(desired);
    Retire(acts, disk, desired, jails, l3Ifs, k0, m);
  }

  lemma AllOfThem(desired: seq<Router>)
    ensures AllSpecs(desired) == SpecsUpTo(desired, |desired|)
  {
  }

  lemma RouterIsReady(f: Faults, k0: World, k: World, dirs: Dirs, desired: seq<Router>, all: seq<Spec>, n: nat, m: nat, l3Ifs: set<Name>)
    requires Distinct(desired) && n < |desired| && Reached(f, k0, k, dirs, desired, all, n, m, l3Ifs)
    requires all == AllSpecs(desired) && m == |SpecsUpTo(desired, n)|
    ensures Sound(k) && OneNexthop(Routes(desired[n])) && Slice(Specs(desired[n]), all, m) && |SpecsUpTo(desired, n + 1)| == m + |Specs(desired[n])|
    ensures FaultFree(f) ==> Underway(f, k0.nics, k.nics, all, m, l3Ifs)
    ensures Settled(k, dirs, desired) ==> JailDone(k, desired[n]) && FileDone(dirs, desired[n]) && AllDone(k.nics, Specs(desired[n]))
  {
    SpecsStand(desired, n);
    hide Sound, Apart, AllFunctional, AllSpecs, Specs, SpecsUpTo, Slice, AllDone, JailDone, FileDone, FaultFree, Underway,
      OneNexthop, Routes;
    if Settled(k, dirs, desired) {
      DoneSlice(k.nics, Specs(desired[n]), AllSpecs(desired), |SpecsUpTo(desired, n)|);
    }
  }

  lemma AllDesiredThere(k: World, dirs: Dirs, desired: seq<Router>)
    requires JailsDone(k, dirs, desired, |desired|)
    ensures DesiredJails(desired) <= k.jails.Keys && DesiredIds(desired) <= dirs.Keys
  {
    forall j | j in DesiredJails(desired) ensures j in k.jails {
      var i :| 0 <= i < |desired| && RouterJail(desired[i].id) == j;
      assert JailDone(k, desired[i]);
    }
    forall d | d in DesiredIds(desired) ensures d in dirs {
      var i :| 0 <= i < |desired| && desired[i].id == d;
      assert FileDone(dirs, desired[i]);
    }
  }

  /** Removing other jails and directories leaves the desired ones done. */
  lemma JailsLeft(k: World, k': World, dirs: Dirs, desired: seq<Router>, jails: set<Name>)
    requires JailsDone(k, dirs, desired, |desired|) && JailsLess(k, k', Sorted(jails - DesiredJails(desired)))
    ensures JailsDone(k', dirs - (dirs.Keys - DesiredIds(desired)), desired, |desired|)
  {
    hide RoutesAre, Routes, RouterJail;
    var dirs' := dirs - (dirs.Keys - DesiredIds(desired));
    forall i | 0 <= i < |desired| ensures JailDone(k', desired[i]) && FileDone(dirs', desired[i]) {
      assert JailDone(k, desired[i]) && FileDone(dirs, desired[i]);
      assert RouterJail(desired[i].id) in DesiredJails(desired) && desired[i].id in DesiredIds(desired);
    }
  }

  /** The end of a pass: teardown of what is not desired, and stale directories removed. */
  method Retire(acts: Actions, disk: StateDirs, desired: seq<Router>, jails: set<Name>, l3Ifs: set<Name>, ghost k0: World, ghost m: nat)
    requires Distinct(desired) && AllKin(k0.nics, AllSpecs(desired)) && jails == acts.k.jails.Keys
    requires Reached(acts.faults, k0, acts.k, disk.dirs, desired, AllSpecs(desired), |desired|, m, l3Ifs) && m == |AllSpecs(desired)|
    requires FaultFree(acts.faults) ==> AllOk(acts.receipts)
    modifies acts, disk
    ensures Sound(acts.k)
    ensures HalvesGo(acts.faults, AllSpecs(desired)) ==> AllKin(acts.k.nics, AllSpecs(desired))
    ensures FaultFree(acts.faults) ==> Settles(k0, acts.k, acts.receipts, disk.dirs, desired)
    ensures FaultFree(acts.faults) && old(acts.k) == k0 && Settled(k0, old(disk.dirs), desired) ==>
        acts.Now() == old(acts.Now()) && disk.dirs == old(disk.dirs)
  {
    hide Sound, Distinct, FaultFree, Grouped, DesiredIds, DesiredJails, DesiredIfs, Settled, Settles, AllKin, Reached,
      HalvesGo, AllOk, Torn, AllSpecs;
    ghost var l, dirs := acts.Now(), disk.dirs;
    RetiredIs(acts.faults, k0, l, dirs, desired, jails, l3Ifs, m);
    var _ := acts.Collect(jails, DesiredJails(desired), l3Ifs, DesiredIfs(desired));
    var stale := disk.RemoveStale(DesiredIds(desired));
    ghost var k, receipts, dirs' := acts.k, acts.receipts, disk.dirs;
    RecordStale(acts, stale);
    if FaultFree(acts.faults) {
      SettlesNoted(k0, k, receipts, acts.receipts, dirs', desired);
    }
  }

  /** What a fault-free pass that began with k0 comes to. */
  ghost predicate Settles(k0: World, k: World, receipts: seq<Done>, dirs: Dirs, desired: seq<Router>) {
    && SettledAs(k0, k, dirs, desired)
    && (Settled(k, dirs, desired) <==> AllPrefixesKept(k0.nics, AllSpecs(desired)))
    && AllPrefixesKept(k.nics, AllSpecs(desired))
    && (AllOk(receipts) <==> !SomeUsurped(k0.nics, AllSpecs(desired)))
    && Remains(k0.nics, k.nics, AllSpecs(desired), DesiredJails(desired))
  }

  lemma SettlesNoted(k0: World, k: World, receipts: seq<Done>, receipts': seq<Done>, dirs: Dirs, desired: seq<Router>)
    requires Settles(k0, k, receipts, dirs, desired) && (AllOk(receipts) <==> AllOk(receipts'))
    ensures Settles(k0, k, receipts', dirs, desired)
  {
  }

  lemma RetiredIs(f: Faults, k0: World, l: Log, dirs: Dirs, desired: seq<Router>, jails: set<Name>, l3Ifs: set<Name>, m: nat)
    requires Distinct(desired) && AllKin(k0.nics, AllSpecs(desired)) && jails == l.k.jails.Keys
    requires Reached(f, k0, l.k, dirs, desired, AllSpecs(desired), |desired|, m, l3Ifs) && m == |AllSpecs(desired)|
    requires FaultFree(f) ==> AllOk(l.receipts)
    ensures var l' := Torn(f, l, jails - DesiredJails(desired), l3Ifs - DesiredIfs(desired));
            && Sound(l'.k) && (HalvesGo(f, AllSpecs(desired)) ==> AllKin(l'.k.nics, AllSpecs(desired)))
            && (FaultFree(f) ==> Settles(k0, l'.k, l'.receipts, dirs - (dirs.Keys - DesiredIds(desired)), desired))
            && (FaultFree(f) && l.k == k0 && Settled(k0, dirs, desired) ==> l' == l && dirs.Keys - DesiredIds(desired) == {})
  {
    hide Sound, Distinct, FaultFree, Grouped, DesiredIds, DesiredJails, DesiredIfs, Settled, Settles, AllKin, HalvesGo, AllOk,
      Torn, AllSpecs, Underway, JailsDone;
    RetiredKin(f, k0, l, dirs, desired, jails, l3Ifs, m);
    if FaultFree(f) {
      RetiredSettles(f, k0, l, dirs, desired, jails, l3Ifs);
      if l.k == k0 && Settled(k0, dirs, desired) {
        RetiredNothing(f, k0, l, dirs, desired, jails, l3Ifs);
      }
    }
  }

  lemma RetiredKin(f: Faults, k0: World, l: Log, dirs: Dirs, desired: seq<Router>, jails: set<Name>, l3Ifs: set<Name>, m: nat)
    requires Reached(f, k0, l.k, dirs, desired, AllSpecs(desired), |desired|, m, l3Ifs)
    ensures var l', all := Torn(f, l, jails - DesiredJails(desired), l3Ifs - DesiredIfs(desired)), AllSpecs(desired);
            Sound(l'.k) && (HalvesGo(f, all) ==> AllKin(l'.k.nics, all))
  {
    var all := AllSpecs(desired);
    SpecsInJails(desired, |desired|);
    TornIs(f, l, jails - DesiredJails(desired), l3Ifs - DesiredIfs(desired));
    if AllKin(l.k.nics, all) {
      KinEnds(f, l, all, jails - DesiredJails(desired), l3Ifs);
    }
    hide Sound, AllKin, HalvesGo, Torn, Underway, FaultFree, JailsDone;
  }

  lemma RetiredSettles(f: Faults, k0: World, l: Log, dirs: Dirs, desired: seq<Router>, jails: set<Name>, l3Ifs: set<Name>)
    requires Sound(l.k) && AllKin(k0.nics, AllSpecs(desired)) && jails == l.k.jails.Keys && AllOk(l.receipts)
    requires Underway(f, k0.nics, l.k.nics, AllSpecs(desired), |AllSpecs(desired)|, l3Ifs) && JailsDone(l.k, dirs, desired, |desired|)
    ensures var l' := Torn(f, l, jails - DesiredJails(desired), l3Ifs - DesiredIfs(desired));
            Settles(k0, l'.k, l'.receipts, dirs - (dirs.Keys - DesiredIds(desired)), desired)
  {
    hide Sound, AllKin, Torn, AllOk, SomeUsurped, AllPrefixesKept, Remains, SpecsUpTo, AllSpecs, DesiredJails, DesiredIds,
      HostsOf, JailsDone, Grouped, JailsLess, Underway, PortsAs, AllDone, FaultFree;
    var all, doomed := AllSpecs(desired), jails - DesiredJails(desired);
    var l', dirs' := Torn(f, l, doomed, l3Ifs - DesiredIfs(desired)), dirs - (dirs.Keys - DesiredIds(desired));
    TourRetired(f, k0, l, desired, jails, l3Ifs);
    AllDesiredThere(l.k, dirs, desired);
    JailsLeft(l.k, l'.k, dirs, desired, jails);
    PortsKeepPrefixes(k0.nics, l'.k.nics, all);
    DoneExactlyWhenKept(k0.nics, l'.k.nics, all);
    assert l'.k.jails.Keys == DesiredJails(desired) && dirs'.Keys == DesiredIds(desired);
  }

  lemma TourRetired(f: Faults, k0: World, l: Log, desired: seq<Router>, jails: set<Name>, l3Ifs: set<Name>)
    requires Sound(l.k) && AllKin(k0.nics, AllSpecs(desired)) && jails == l.k.jails.Keys && AllOk(l.receipts)
    requires Underway(f, k0.nics, l.k.nics, AllSpecs(desired), |AllSpecs(desired)|, l3Ifs)
    ensures var l', doomed := Torn(f, l, jails - DesiredJails(desired), l3Ifs - DesiredIfs(desired)), jails - DesiredJails(desired);
            && l'.k.jails.Keys == l.k.jails.Keys - doomed && JailsLess(l.k, l'.k, Sorted(doomed)) && Grouped(l'.k.nics) == DesiredIfs(desired)
            && PortsAs(k0.nics, l'.k.nics, AllSpecs(desired), |AllSpecs(desired)|) && (AllOk(l'.receipts) <==>
                !SomeUsurped(k0.nics, AllSpecs(desired)))
            && Remains(k0.nics, l'.k.nics, AllSpecs(desired), l'.k.jails.Keys)
  {
    hide Sound, AllKin, Torn, AllOk, Remains, SomeUsurped, DesiredJails, HostsOf, Grouped, JailsLess, Toured, PortsAs,
      FaultFree, SpecsUpTo;
    SpecsInJails(desired, |desired|);
    TourEnds(f, k0.nics, l, AllSpecs(desired), jails - DesiredJails(desired));
  }

  lemma RetiredNothing(f: Faults, k0: World, l: Log, dirs: Dirs, desired: seq<Router>, jails: set<Name>, l3Ifs: set<Name>)
    requires l.k == k0 && Settled(k0, dirs, desired) && jails == l.k.jails.Keys
    requires Underway(f, k0.nics, l.k.nics, AllSpecs(desired), |AllSpecs(desired)|, l3Ifs)
    ensures Torn(f, l, jails - DesiredJails(desired), l3Ifs - DesiredIfs(desired)) == l && dirs.Keys - DesiredIds(desired) == {}
  {
    hide Torn, AllDone, JailsDone, Toured, FaultFree, AllSpecs, HostsOf, Grouped, DesiredIds, DesiredJails;
    assert jails - DesiredJails(desired) == {} && l3Ifs - DesiredIfs(desired) == {};
    TornNothing(f, l);
  }

}
