/**
 One port of a jail, and many: its epair, MAC and addresses. The L3 and DHCP agents both
 see to their ports this way.
 */
module PortPlane {
  import opened Collections
  import opened Model
  import opened JailPlane
  import opened Plumbing
  import opened Acting

  /** What one port needs: an epair, a MAC and addresses. */
  datatype Spec = Spec(pair: Pair, mac: Mac, ips: seq<Inet>)

  // -------------------------------------------------------------- what is wanted

  /** A port is as it should be: its epair up, its jail end with the MAC and addresses. */
  predicate SpecDone(nics: Nics, s: Spec) {
    PairUp(nics, s.pair) && nics[s.pair.I()].mac == s.mac && nics[s.pair.I()].inets == AsMap(s.ips)
  }

  /** A port as a pass leaves it that began with nics0. */
  predicate PortAs(nics0: Nics, nics: Nics, s: Spec) {
    PairUp(nics, s.pair) && nics[s.pair.I()].mac == s.mac && nics[s.pair.I()].inets == Renumbered(Before(nics0, s.pair), s.ips)
  }

  /** No address the port keeps has another prefix length than it should. */
  ghost predicate PrefixesKept(nics: Nics, s: Spec) {
    forall a :: a in Before(nics, s.pair) && a in AsMap(s.ips) ==> Before(nics, s.pair)[a] == AsMap(s.ips)[a]
  }

  lemma RenumberedKept(have: map<Addr, nat>, ips: seq<Inet>)
    ensures Renumbered(have, ips) == AsMap(ips) <==>
              forall a :: a in have && a in AsMap(ips) ==> have[a] == AsMap(ips)[a]
    ensures forall a :: a in Renumbered(have, ips) ==> a in AsMap(ips) && Renumbered(have, ips)[a] == AsMap(ips)[a]
  {
    if Renumbered(have, ips) == AsMap(ips) {
      forall a | a in have && a in AsMap(ips) ensures have[a] == AsMap(ips)[a] {
        assert a in Renumbered(have, ips);
      }
    }
  }

  // ------------------------------------------------------------------ one port

  /** One port seen to: its epair, then the addresses of the jail end if there is one. */
  ghost function PortEnsured(f: Faults, l: Log, s: Spec): Log {
    var l1 := Ensured(f, l, s.pair);
    if Present(f, l, s.pair) then AddrsSet(f, l1, s.pair.I(), s.mac, s.ips) else l1
  }

  lemma PortOnly(f: Faults, l: Log, s: Spec)
    requires Sound(l.k)
    ensures Sound(PortEnsured(f, l, s).k)
    ensures SameButAt(Ensured(f, l, s.pair).k, PortEnsured(f, l, s).k, s.pair.I())
    ensures PortEnsured(f, l, s).k.jails == l.k.jails
  {
    EnsuredSound(f, l, s.pair);
    PortJails(f, l, s);
    var l1 := Ensured(f, l, s.pair);
    if Present(f, l, s.pair) {
      AddrsSetOnly(f, l1, s.pair.I(), s.mac, s.ips);
      hide Ensured, Sound;
      SameButAtSound(l1.k, PortEnsured(f, l, s).k, s.pair.I());
    }
  }

  lemma PortJails(f: Faults, l: Log, s: Spec)
    ensures PortEnsured(f, l, s).k.jails == l.k.jails
  {
    RepairedIs(f, l, s.pair);
    MadeJails(f, Repaired(f, l, s.pair), s.pair);
    hide Made, Repaired;
    if Present(f, l, s.pair) {
      AddrsSetOnly(f, Ensured(f, l, s.pair), s.pair.I(), s.mac, s.ips);
    }
  }

  /** What seeing to a port does to every other named interface, whatever fails. */
  lemma PortOther(f: Faults, l: Log, s: Spec, x: Place)
    requires Sound(l.k) && x.name.Given? && x != s.pair.H() && x != s.pair.I()
    ensures NicAt(PortEnsured(f, l, s).k.nics, x) ==
            if Mends(f, l, s.pair) && Casualty(l.k.nics, s.pair) == Some(x) then None else NicAt(l.k.nics, x)
  {
    PortOnly(f, l, s);
    EnsuredOther(f, l, s.pair, x);
    hide Ensured, PortEnsured, Sound;
  }

  lemma PortSpares(f: Faults, l: Log, s: Spec, q: Pair)
    requires Sound(l.k) && Kin(l.k.nics, q) && s.pair.H() != q.H() && s.pair.I() != q.I()
    ensures Spared(l.k.nics, PortEnsured(f, l, s).k.nics, q)
  {
    PortOnly(f, l, s);
    EnsuredSpares(f, l, s.pair, q);
    hide Ensured, PortEnsured, Sound;
  }

  /** A port's ends stay kin exactly when its epair is not mispaired. */
  lemma PortKin(f: Faults, l: Log, s: Spec)
    requires Sound(l.k) && Kin(l.k.nics, s.pair)
    ensures Kin(PortEnsured(f, l, s).k.nics, s.pair) <==> !Mispairs(f, l, s.pair)
  {
    PortOnly(f, l, s);
    KinExactlyUnlessMispaired(f, l, s.pair);
    hide Ensured, PortEnsured, Sound, Mispairs;
  }

  /** Nor does seeing to a port uncross its names. */
  lemma PortStaysCrossed(f: Faults, l: Log, s: Spec)
    requires Sound(l.k) && Crossed(l.k.nics, s.pair)
    ensures Crossed(PortEnsured(f, l, s).k.nics, s.pair)
  {
    PortOnly(f, l, s);
    CrossedStays(f, l, s.pair);
    hide Ensured, PortEnsured, Sound;
  }

  /** From any half-state, with no faults, the port is as it should be but for addresses whose
      prefix length had to change. */
  lemma PortMade(f: Faults, l: Log, s: Spec)
    requires Sound(l.k) && Kin(l.k.nics, s.pair) && FaultFree(f) && s.pair.jail in l.k.jails && Functional(s.ips)
    ensures PortAs(l.k.nics, PortEnsured(f, l, s).k.nics, s)
    ensures AllOk(l.receipts) ==> AllOk(PortEnsured(f, l, s).receipts)
  {
    EnsuredUp(f, l, s.pair);
    PortOnly(f, l, s);
    assert !Both(l.k.nics, s.pair) ==> Works(f, Repaired(f, l, s.pair), CreateEpair);
    AddrsSetIs(f, Ensured(f, l, s.pair), s.pair.I(), s.mac, s.ips);
    hide Ensured, AddrsSet, Sound, Renumbered;
  }

  /** A port that is as it should be is left alone. */
  lemma PortQuiet(f: Faults, l: Log, s: Spec)
    requires SpecDone(l.k.nics, s) && Functional(s.ips)
    ensures PortEnsured(f, l, s) == l
  {
    EnsuredQuiet(f, l, s.pair);
    AddrsSetIs(f, l, s.pair.I(), s.mac, s.ips);
  }

  method OnePort(acts: Actions, s: Spec, hostIfs: set<Name>) returns (present: bool, hostIfs': set<Name>)
    modifies acts
    ensures acts.Now() == PortEnsured(acts.faults, old(acts.Now()), s)
    ensures present == Present(acts.faults, old(acts.Now()), s.pair)
    ensures hostIfs' == EnsuredIfs(acts.faults, old(acts.Now()), s.pair, hostIfs)
  {
    ghost var l := acts.Now();
    assert Both(l.k.nics, s.pair) ==> s.pair.I() in Ensured(acts.faults, l, s.pair).k.nics;
    hide Ensured, Both, AddrsSet, EnsuredIfs;
    var inner;
    inner, hostIfs' := acts.EnsureEpair(s.pair, hostIfs);
    present := inner.Some?;
    if inner.Some? {
      acts.EnsureAddrs(s.pair.I(), inner.value, s.mac, s.ips);
    }
  }

  // ----------------------------------------------------------- many ports --

  /** Ports with host and jail ends of their own. */
  ghost predicate Apart(specs: seq<Spec>) {
    forall a, b :: 0 <= a < b < |specs| ==> specs[a].pair.host != specs[b].pair.host && specs[a].pair.I() != specs[b].pair.I()
  }

  ghost predicate AllKin(nics: Nics, specs: seq<Spec>) {
    forall a :: 0 <= a < |specs| ==> Kin(nics, specs[a].pair)
  }

  ghost predicate AllFunctional(specs: seq<Spec>) {
    forall a :: 0 <= a < |specs| ==> Functional(specs[a].ips)
  }

  ghost predicate AllDone(nics: Nics, specs: seq<Spec>) {
    forall a :: 0 <= a < |specs| ==> SpecDone(nics, specs[a])
  }

  ghost predicate PortsAs(nics0: Nics, nics: Nics, specs: seq<Spec>, n: nat)
    requires n <= |specs|
  {
    forall a :: 0 <= a < n ==> PortAs(nics0, nics, specs[a])
  }

  ghost predicate AllPrefixesKept(nics: Nics, specs: seq<Spec>) {
    forall a :: 0 <= a < |specs| ==> PrefixesKept(nics, specs[a])
  }

  /** The host interfaces of the first n ports. */
  function HostsOf(specs: seq<Spec>, n: nat): (r: set<Name>)
    requires n <= |specs|
    ensures forall a :: 0 <= a < n ==> specs[a].pair.host in r
  {
    set a | 0 <= a < n :: specs[a].pair.host
  }

  lemma HostsMore(specs: seq<Spec>, n: nat)
    requires n < |specs|
    ensures HostsOf(specs, n + 1) == HostsOf(specs, n) + {specs[n].pair.host}
  {
  }

  /** The broken halves of desired epairs can be destroyed. */
  ghost predicate HalvesGo(f: Faults, specs: seq<Spec>) {
    forall a, i: nat :: 0 <= a < |specs| ==> !f(i, DestroyNic(specs[a].pair.H())) && !f(i, DestroyNic(specs[a].pair.I()))
  }

  predicate EndOf(x: Place, specs: seq<Spec>, n: nat)
    requires n <= |specs|
  {
    exists a :: 0 <= a < n && (x == specs[a].pair.H() || x == specs[a].pair.I())
  }

  /** An interface whose peer goes under a name of the first n ports. */
  predicate Usurped(nics: Nics, x: Place, specs: seq<Spec>, n: nat)
    requires n <= |specs|
  {
    x in nics && nics[x].peer.Some? && EndOf(nics[x].peer.value, specs, n)
  }

  /** What seeing to the first n ports has made of the interfaces: those ports are as they should be,
      the others are spared, and of the other named interfaces exactly those usurped are gone. */
  ghost predicate Toured(nics0: Nics, nics: Nics, specs: seq<Spec>, n: nat)
    requires n <= |specs|
  {
    && PortsAs(nics0, nics, specs, n)
    && (forall a :: n <= a < |specs| ==> Spared(nics0, nics, specs[a].pair))
    && (forall x: Place :: x.name.Given? && !EndOf(x, specs, n) ==>
          NicAt(nics, x) == if Usurped(nics0, x, specs, n) then None else NicAt(nics0, x))
  }

  lemma HostEnds(x: Name, specs: seq<Spec>, n: nat)
    requires n <= |specs|
    ensures EndOf(HostAt(x), specs, n) <==> x in HostsOf(specs, n)
  {
    if x in HostsOf(specs, n) {
      var a :| 0 <= a < n && specs[a].pair.host == x;
      assert HostAt(x) == specs[a].pair.H();
    }
  }

  lemma EndsMore(x: Place, specs: seq<Spec>, n: nat)
    requires n < |specs|
    ensures EndOf(x, specs, n + 1) <==> EndOf(x, specs, n) || x == specs[n].pair.H() || x == specs[n].pair.I()
  {
    if EndOf(x, specs, n) {
      var a :| 0 <= a < n && (x == specs[a].pair.H() || x == specs[a].pair.I());
      assert a < n + 1;
    }
    if x == specs[n].pair.H() || x == specs[n].pair.I() {
      assert 0 <= n < n + 1;
    }
  }

  lemma TourBegins(nics: Nics, specs: seq<Spec>)
    ensures Toured(nics, nics, specs, 0)
  {
  }

  /** Among interfaces other than its ends, the casualty of a kin epair is the one whose peer goes
      under one of its names. */
  lemma CasualtyIs(nics: Nics, p: Pair, x: Place)
    requires PeersMatch(nics) && Kin(nics, p) && x in nics && x != p.H() && x != p.I()
    ensures Casualty(nics, p) == Some(x) <==> nics[x].peer == Some(p.H()) || nics[x].peer == Some(p.I())
  {
  }

  lemma StrayStep(f: Faults, nics0: Nics, l: Log, specs: seq<Spec>, n: nat, x: Place)
    requires FaultFree(f) && Sound(l.k) && n < |specs| && Kin(l.k.nics, specs[n].pair) && x.name.Given? && !EndOf(x, specs, n + 1)
    requires NicAt(l.k.nics, x) == if Usurped(nics0, x, specs, n) then None else NicAt(nics0, x)
    ensures NicAt(PortEnsured(f, l, specs[n]).k.nics, x) == if Usurped(nics0, x, specs, n + 1) then None else NicAt(nics0, x)
  {
    EndsMore(x, specs, n);
    PortOther(f, l, specs[n], x);
    if x in nics0 && nics0[x].peer.Some? {
      EndsMore(nics0[x].peer.value, specs, n);
    }
    if x in l.k.nics {
      CasualtyIs(l.k.nics, specs[n].pair, x);
    }
    assert Casualty(l.k.nics, specs[n].pair) == Some(x) ==> x in l.k.nics;
    hide PortEnsured, Sound, EndOf;
  }

  lemma OthersStep(f: Faults, nics0: Nics, l: Log, specs: seq<Spec>, n: nat)
    requires Sound(l.k) && n < |specs| && Apart(specs) && AllKin(nics0, specs) && Toured(nics0, l.k.nics, specs, n)
    ensures forall a :: 0 <= a < n ==> PortAs(nics0, PortEnsured(f, l, specs[n]).k.nics, specs[a])
    ensures forall a :: n < a < |specs| ==> Spared(nics0, PortEnsured(f, l, specs[n]).k.nics, specs[a].pair)
  {
    hide Sound, PortEnsured, Renumbered, Spared, Usurped;
    var nics, nics', s := l.k.nics, PortEnsured(f, l, specs[n]).k.nics, specs[n];
    forall a | 0 <= a < |specs| && a != n ensures s.pair.H() != specs[a].pair.H() && s.pair.I() != specs[a].pair.I() {}
    forall a | 0 <= a < n ensures PortAs(nics0, nics', specs[a]) {
      assert PortAs(nics0, nics, specs[a]);
      PortSpares(f, l, s, specs[a].pair);
      SparedKin(nics, nics', specs[a].pair);
    }
    forall a | n < a < |specs| ensures Spared(nics0, nics', specs[a].pair) {
      SparedKin(nics0, nics, specs[a].pair);
      assert Kin(nics0, specs[a].pair);
      PortSpares(f, l, s, specs[a].pair);
      SparedTrans(nics0, nics, nics', specs[a].pair);
    }
  }

  /** One more port: what holds of the tour holds still. */
  lemma TourStep(f: Faults, nics0: Nics, l: Log, specs: seq<Spec>, n: nat)
    requires FaultFree(f) && Sound(l.k) && n < |specs| && Apart(specs) && AllKin(nics0, specs) && AllFunctional(specs)
    requires Toured(nics0, l.k.nics, specs, n) && specs[n].pair.jail in l.k.jails
    ensures Toured(nics0, PortEnsured(f, l, specs[n]).k.nics, specs, n + 1)
    ensures AllOk(l.receipts) ==> AllOk(PortEnsured(f, l, specs[n]).receipts)
    ensures specs[n].pair.host !in HostsOf(specs, n)
    ensures Kin(l.k.nics, specs[n].pair) && (Both(l.k.nics, specs[n].pair) ==> specs[n].pair.host in Grouped(nics0))
  {
    hide Sound, PortEnsured, FaultFree, Functional, Usurped, Renumbered, AllOk, Spared;
    var nics, nics', s := l.k.nics, PortEnsured(f, l, specs[n]).k.nics, specs[n];
    OthersStep(f, nics0, l, specs, n);
    SparedKin(nics0, nics, s.pair);
    assert Kin(nics0, s.pair);
    HostsMore(specs, n);
    PortMade(f, l, s);
    assert PortAs(nics0, nics', s);
    forall x: Place | x.name.Given? && !EndOf(x, specs, n + 1)
      ensures NicAt(nics', x) == if Usurped(nics0, x, specs, n + 1) then None else NicAt(nics0, x)
    {
      EndsMore(x, specs, n);
      StrayStep(f, nics0, l, specs, n, x);
    }
  }

  /** Whatever else fails, if broken halves of desired epairs can be destroyed, all desired ends stay kin. */
  lemma KinStep(f: Faults, l: Log, specs: seq<Spec>, n: nat)
    requires Sound(l.k) && n < |specs| && Apart(specs) && AllKin(l.k.nics, specs) && HalvesGo(f, specs)
    ensures AllKin(PortEnsured(f, l, specs[n]).k.nics, specs)
  {
    var nics' := PortEnsured(f, l, specs[n]).k.nics;
    hide Sound, PortEnsured;
    assert !Mispairs(f, l, specs[n].pair);
    PortKin(f, l, specs[n]);
    hide Mispairs, HalvesGo;
    forall a | 0 <= a < |specs| ensures Kin(nics', specs[a].pair) {
      if a != n {
        assert specs[n].pair.H() != specs[a].pair.H() && specs[n].pair.I() != specs[a].pair.I();
        PortSpares(f, l, specs[n], specs[a].pair);
        SparedKin(l.k.nics, nics', specs[a].pair);
      }
    }
  }

  // ---------------------------------------------------- the ports of one jail

  ghost function PortsEnsured(f: Faults, l: Log, specs: seq<Spec>): Log {
    if specs == [] then l else PortEnsured(f, PortsEnsured(f, l, specs[..|specs| - 1]), specs[|specs| - 1])
  }

  ghost function PortsIfs(f: Faults, l: Log, specs: seq<Spec>, hostIfs: set<Name>): set<Name> {
    if specs == [] then hostIfs else
      EnsuredIfs(f, PortsEnsured(f, l, specs[..|specs| - 1]), specs[|specs| - 1].pair, PortsIfs(f, l, specs[..|specs| - 1], hostIfs))
  }

  ghost predicate AllPresent(f: Faults, l: Log, specs: seq<Spec>) {
    specs == [] || (Present(f, PortsEnsured(f, l, specs[..|specs| - 1]), specs[|specs| - 1].pair) && AllPresent(f, l, specs[..|specs| - 1]))
  }

  lemma EndStays(f: Faults, l: Log, s: Spec)
    requires Sound(l.k) && Present(f, l, s.pair)
    ensures s.pair.I() in PortEnsured(f, l, s).k.nics
  {
    PortOnly(f, l, s);
    hide Sound;
  }

  /** When all ports are found present, each has its jail end once it has been seen to. */
  lemma {:induction false} AllPresentMeans(f: Faults, l: Log, specs: seq<Spec>, n: nat)
    requires Sound(l.k) && AllPresent(f, l, specs) && n < |specs|
    ensures specs[n].pair.I() in PortsEnsured(f, l, specs[..n + 1]).k.nics
  {
    hide Sound, Present, PortEnsured;
    var rest, last := specs[..|specs| - 1], specs[|specs| - 1];
    if n < |rest| {
      AllPresentMeans(f, l, rest, n);
      assert rest[..n + 1] == specs[..n + 1];
    } else {
      PortsSound(f, l, rest);
      EndStays(f, PortsEnsured(f, l, rest), last);
      assert specs[..n + 1] == specs;
    }
  }

  method Ports(acts: Actions, specs: seq<Spec>, hostIfs: set<Name>) returns (complete: bool, hostIfs': set<Name>)
    modifies acts
    ensures acts.Now() == PortsEnsured(acts.faults, old(acts.Now()), specs)
    ensures complete == AllPresent(acts.faults, old(acts.Now()), specs)
    ensures hostIfs' == PortsIfs(acts.faults, old(acts.Now()), specs, hostIfs)
  {
    complete, hostIfs' := true, hostIfs;
    ghost var l := acts.Now();
    for n := 0 to |specs|
      invariant acts.Now() == PortsEnsured(acts.faults, l, specs[..n])
      invariant complete == AllPresent(acts.faults, l, specs[..n])
      invariant hostIfs' == PortsIfs(acts.faults, l, specs[..n], hostIfs)
    {
      hide Present, EnsuredIfs, PortEnsured;
      assert specs[..n + 1][..n] == specs[..n];
      var present;
      present, hostIfs' := OnePort(acts, specs[n], hostIfs');
      if !present {
        complete := false;
      }
    }
    assert specs[..|specs|] == specs;
  }

  lemma {:induction false} PortsSound(f: Faults, l: Log, specs: seq<Spec>)
    requires Sound(l.k)
    ensures Sound(PortsEnsured(f, l, specs).k) && PortsEnsured(f, l, specs).k.jails == l.k.jails
  {
    if specs != [] {
      PortsSound(f, l, specs[..|specs| - 1]);
      PortOnly(f, PortsEnsured(f, l, specs[..|specs| - 1]), specs[|specs| - 1]);
      hide Sound, PortEnsured;
    }
  }

  /** A fault-free pass under way: m ports are seen to, and the local set is the group it began with
      and their host interfaces. */
  ghost predicate Underway(f: Faults, nics0: Nics, nics: Nics, all: seq<Spec>, m: nat, hostIfs: set<Name>) {
    FaultFree(f) && m <= |all| && Toured(nics0, nics, all, m) && hostIfs == Grouped(nics0) + HostsOf(all, m)
  }

  lemma IsFaultFree(f: Faults, nics0: Nics, nics: Nics, all: seq<Spec>, m: nat, hostIfs: set<Name>)
    ensures Underway(f, nics0, nics, all, m, hostIfs) ==> FaultFree(f)
  {
  }

  /** These are some of all ports, from the m-th on. */
  ghost predicate Slice(specs: seq<Spec>, all: seq<Spec>, m: nat) {
    m + |specs| <= |all| && forall a :: 0 <= a < |specs| ==> specs[a] == all[m + a]
  }

  /** What must hold of all ports together. */
  ghost predicate Tourable(nics0: Nics, all: seq<Spec>) {
    Apart(all) && AllKin(nics0, all) && AllFunctional(all)
  }

  lemma OneTours(f: Faults, nics0: Nics, l: Log, all: seq<Spec>, m: nat, hostIfs: set<Name>)
    requires Sound(l.k) && Tourable(nics0, all) && Underway(f, nics0, l.k.nics, all, m, hostIfs) && m < |all| && all[m].pair.jail in l.k.jails
    ensures Underway(f, nics0, PortEnsured(f, l, all[m]).k.nics, all, m + 1, EnsuredIfs(f, l, all[m].pair, hostIfs))
    ensures Present(f, l, all[m].pair) && (AllOk(l.receipts) ==> AllOk(PortEnsured(f, l, all[m]).receipts))
  {
    hide FaultFree, Sound, Toured, PortEnsured, Present, Apart, AllKin, AllFunctional, AllOk, Grouped, HostsOf;
    TourStep(f, nics0, l, all, m);
    HostsMore(all, m);
    PresentThen(f, l, all[m].pair);
  }

  lemma PresentThen(f: Faults, l: Log, p: Pair)
    requires Sound(l.k) && Kin(l.k.nics, p) && FaultFree(f) && p.jail in l.k.jails
    ensures Present(f, l, p)
  {
    EnsuredUp(f, l, p);
    assert !Both(l.k.nics, p) ==> Works(f, Repaired(f, l, p), CreateEpair);
  }

  lemma {:induction false} PortsTour(f: Faults, nics0: Nics, l: Log, all: seq<Spec>, m: nat, hostIfs: set<Name>, specs: seq<Spec>)
    requires Sound(l.k) && Tourable(nics0, all) && Underway(f, nics0, l.k.nics, all, m, hostIfs) && Slice(specs, all, m)
    requires forall a :: 0 <= a < |specs| ==> specs[a].pair.jail in l.k.jails
    ensures Underway(f, nics0, PortsEnsured(f, l, specs).k.nics, all, m + |specs|, PortsIfs(f, l, specs, hostIfs))
    ensures AllPresent(f, l, specs) && (AllOk(l.receipts) ==> AllOk(PortsEnsured(f, l, specs).receipts))
  {
    hide Sound, Underway, Tourable, PortEnsured, AllOk, Present, EnsuredIfs, FaultFree;
    if specs != [] {
      var rest := specs[..|specs| - 1];
      assert Slice(rest, all, m);
      PortsTour(f, nics0, l, all, m, hostIfs, rest);
      PortsSound(f, l, rest);
      assert specs[|rest|] == all[m + |rest|];
      OneTours(f, nics0, PortsEnsured(f, l, rest), all, m + |rest|, PortsIfs(f, l, rest, hostIfs));
    }
  }

  lemma {:induction false} PortsKin(f: Faults, l: Log, all: seq<Spec>, m: nat, specs: seq<Spec>)
    requires Sound(l.k) && Apart(all) && AllKin(l.k.nics, all) && HalvesGo(f, all) && Slice(specs, all, m)
    ensures AllKin(PortsEnsured(f, l, specs).k.nics, all)
  {
    hide Sound, AllKin, Apart, HalvesGo, PortEnsured;
    if specs != [] {
      var rest := specs[..|specs| - 1];
      assert Slice(rest, all, m);
      PortsKin(f, l, all, m, rest);
      PortsSound(f, l, rest);
      assert specs[|rest|] == all[m + |rest|];
      KinStep(f, PortsEnsured(f, l, rest), all, m + |rest|);
    }
  }

  lemma {:induction false} PortsQuiet(f: Faults, l: Log, specs: seq<Spec>)
    requires AllDone(l.k.nics, specs) && AllFunctional(specs)
    ensures PortsEnsured(f, l, specs) == l
  {
    if specs != [] {
      PortsQuiet(f, l, specs[..|specs| - 1]);
      PortQuiet(f, l, specs[|specs| - 1]);
    }
  }

  // ------------------------------------------------------- the end of a tour

  /** A host interface of the group that no port wants, whose peer goes under the name of one: the
      port's new epair has taken it along, so its own destroy is refused. */
  ghost predicate SomeUsurped(nics: Nics, specs: seq<Spec>) {
    exists x :: x in Grouped(nics) && x !in HostsOf(specs, |specs|) && Usurped(nics, HostAt(x), specs, |specs|)
  }

  lemma TouredGroup(nics0: Nics, nics: Nics, specs: seq<Spec>)
    requires Toured(nics0, nics, specs, |specs|)
    ensures var hosts := HostsOf(specs, |specs|);
            && hosts <= Grouped(nics) <= Grouped(nics0) + hosts
            && (Grouped(nics0) - hosts <= Grouped(nics) <==> !SomeUsurped(nics0, specs))
            && (forall x :: x in Grouped(nics0) - hosts && HostAt(x) in nics ==> x in Grouped(nics))
  {
    hide Usurped, Renumbered, EndOf;
    var hosts := HostsOf(specs, |specs|);
    forall x | x in hosts ensures x in Grouped(nics) {
      var a :| 0 <= a < |specs| && specs[a].pair.host == x;
      assert PortAs(nics0, nics, specs[a]);
    }
    forall x | x !in hosts ensures NicAt(nics, HostAt(x)) == if Usurped(nics0, HostAt(x), specs, |specs|) then None else NicAt(nics0, HostAt(x)) {
      HostEnds(x, specs, |specs|);
    }
    if SomeUsurped(nics0, specs) {
      var x :| x in Grouped(nics0) && x !in hosts && Usurped(nics0, HostAt(x), specs, |specs|);
      assert NicAt(nics, HostAt(x)) == None;
      assert x in Grouped(nics0) - hosts && x !in Grouped(nics);
    }
  }

  /** What a pass leaves of the interface at x, if that is no desired end: nothing when it is usurped,
      is destroyed with an undesired host interface of the group, or is in an undesired jail. */
  function Remainder(nics0: Nics, x: Place, specs: seq<Spec>, kept: set<Name>): Option<Nic> {
    if Usurped(nics0, x, specs, |specs|) then None else NicLeft(nics0, x, Grouped(nics0) - HostsOf(specs, |specs|), kept)
  }

  ghost predicate Remains(nics0: Nics, nics: Nics, specs: seq<Spec>, kept: set<Name>) {
    forall x: Place :: x.name.Given? && !EndOf(x, specs, |specs|) ==> NicAt(nics, x) == Remainder(nics0, x, specs, kept)
  }

  lemma TouredRemains(nics0: Nics, nics: Nics, nics': Nics, specs: seq<Spec>, kept: set<Name>)
    requires Toured(nics0, nics, specs, |specs|) && LeftExactly(nics, nics', Grouped(nics0) - HostsOf(specs, |specs|), kept)
    ensures Remains(nics0, nics', specs, kept)
  {
    hide Usurped, EndOf, PortsAs, Spared, Grouped, HostsOf, Outside;
    var doomed := Grouped(nics0) - HostsOf(specs, |specs|);
    forall x: Place | x.name.Given? && !EndOf(x, specs, |specs|) ensures NicAt(nics', x) == Remainder(nics0, x, specs, kept) {
      assert NicAt(nics, x) == if Usurped(nics0, x, specs, |specs|) then None else NicAt(nics0, x);
      assert NicAt(nics', x) == NicLeft(nics, x, doomed, kept);
    }
  }

  /** A named interface that is no desired end is an old one. */
  lemma RemainsOld(nics0: Nics, nics: Nics, specs: seq<Spec>, kept: set<Name>, x: Place)
    requires Remains(nics0, nics, specs, kept) && x.name.Given? && x in nics && !EndOf(x, specs, |specs|)
    ensures x in nics0 && nics[x].grouped == nics0[x].grouped && (nics[x].peer == nics0[x].peer || nics[x].peer == None)
  {
    assert NicAt(nics, x) == Remainder(nics0, x, specs, kept);
    hide EndOf, Usurped, GoesWith, Outside;
  }

  /** After a tour, tearing down what is not desired leaves the desired ports and no other host
      interface of the group, and a receipt fails exactly when some interface was usurped. */
  lemma TourEnds(f: Faults, nics0: Nics, l: Log, specs: seq<Spec>, jails: set<Name>)
    requires FaultFree(f) && Sound(l.k) && Toured(nics0, l.k.nics, specs, |specs|) && AllKin(nics0, specs)
    requires jails <= l.k.jails.Keys && forall a :: 0 <= a < |specs| ==> specs[a].pair.jail !in jails
    ensures var hosts := HostsOf(specs, |specs|);
            var l' := Torn(f, l, jails, Grouped(nics0) + hosts - hosts);
            && Sound(l'.k) && l'.k.jails.Keys == l.k.jails.Keys - jails && JailsLess(l.k, l'.k, Sorted(jails))
            && Grouped(l'.k.nics) == hosts && PortsAs(nics0, l'.k.nics, specs, |specs|)
            && (AllOk(l.receipts) ==> (AllOk(l'.receipts) <==> !SomeUsurped(nics0, specs)))
            && Remains(nics0, l'.k.nics, specs, l'.k.jails.Keys)
  {
    hide Sound, Torn, AllOk, Usurped, FaultFree, JailsLess, Renumbered, SomeUsurped, Spared, LeftExactly, Remains;
    var hosts := HostsOf(specs, |specs|);
    var doomed := Grouped(nics0) + hosts - hosts;
    var l' := Torn(f, l, jails, doomed);
    TouredGroup(nics0, l.k.nics, specs);
    TornIs(f, l, jails, doomed);
    forall a | 0 <= a < |specs| ensures PortAs(nics0, l'.k.nics, specs[a]) {
      assert PortAs(nics0, l.k.nics, specs[a]);
      TornSpares(f, l, jails, doomed, specs[a].pair);
      SparedKin(l.k.nics, l'.k.nics, specs[a].pair);
    }
    assert doomed == Grouped(nics0) - hosts;
    TouredRemains(nics0, l.k.nics, l'.k.nics, specs, l'.k.jails.Keys);
  }

  /** Whatever fails, teardown of other hosts and jails keeps desired ends kin. */
  lemma KinEnds(f: Faults, l: Log, specs: seq<Spec>, jails: set<Name>, hostIfs: set<Name>)
    requires Sound(l.k) && AllKin(l.k.nics, specs) && forall a :: 0 <= a < |specs| ==> specs[a].pair.jail !in jails
    ensures var l' := Torn(f, l, jails, hostIfs - HostsOf(specs, |specs|)); Sound(l'.k) && AllKin(l'.k.nics, specs)
  {
    var l' := Torn(f, l, jails, hostIfs - HostsOf(specs, |specs|));
    TornIs(f, l, jails, hostIfs - HostsOf(specs, |specs|));
    hide Sound, Torn;
    forall a | 0 <= a < |specs| ensures Kin(l'.k.nics, specs[a].pair) {
      TornSpares(f, l, jails, hostIfs - HostsOf(specs, |specs|), specs[a].pair);
      SparedKin(l.k.nics, l'.k.nics, specs[a].pair);
    }
  }

  /** After a pass no kept address has another prefix length, so the next pass makes every port right. */
  lemma PortsKeepPrefixes(nics0: Nics, nics: Nics, specs: seq<Spec>)
    requires PortsAs(nics0, nics, specs, |specs|)
    ensures AllPrefixesKept(nics, specs)
  {
    forall a | 0 <= a < |specs| ensures PrefixesKept(nics, specs[a]) {
      assert PortAs(nics0, nics, specs[a]);
      RenumberedKept(Before(nics0, specs[a].pair), specs[a].ips);
    }
  }

  /** With every prefix length kept, a pass leaves every port done; otherwise not. */
  lemma DoneExactlyWhenKept(nics0: Nics, nics: Nics, specs: seq<Spec>)
    requires PortsAs(nics0, nics, specs, |specs|)
    ensures AllDone(nics, specs) <==> AllPrefixesKept(nics0, specs)
  {
    forall a | 0 <= a < |specs| ensures SpecDone(nics, specs[a]) <==> PrefixesKept(nics0, specs[a]) {
      assert PortAs(nics0, nics, specs[a]);
      RenumberedKept(Before(nics0, specs[a].pair), specs[a].ips);
    }
  }
}
