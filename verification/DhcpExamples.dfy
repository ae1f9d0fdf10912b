/**
 Concrete DHCP runs: a replaced port that makes a fault-free pass report a failure, and a failed
 reload that is forgotten.
 */
module DhcpExamples {
  import opened Collections
  import opened Names
  import opened JailPlane
  import opened Plumbing
  import opened Acting
  import opened PortPlane
  import opened Dnsmasq
  import opened Forgetting

  const EMPTY_WORLD := World(map[], map[], 0)
  const EMPTY_SERVICE := Service(map[], 0, map[], map[])

  const NETWORK := Network("n", "p", "m", [], "hosts", "opts", "argv")

  /** The same network, with another port. */
  const REPLACED := NETWORK.(port := "q")

  /** The same network, with another host. */
  const MORE_HOSTS := NETWORK.(hosts := "more hosts")

  lemma EmptyIsFine(n: Network)
    requires n.ips == []
    ensures Sound(EMPTY_WORLD) && AllHonest(EMPTY_SERVICE) && DistinctNetworks([n]) && AllKin(EMPTY_WORLD.nics, NetSpecs([n]))
    ensures !SomeUsurped(EMPTY_WORLD.nics, NetSpecs([n]))
  {
  }

  /** The host interface of another port is not there. */
  lemma OnlyItsPort(k: World, n: Network, m: Network)
    requires Remains(EMPTY_WORLD.nics, k.nics, NetSpecs([n]), k.jails.Keys) && DhcpIfName(m.port) != DhcpIfName(n.port)
    ensures AllKin(k.nics, NetSpecs([m]))
  {
    HostEnds(DhcpIfName(m.port), NetSpecs([n]), 1);
    if HostAt(DhcpIfName(m.port)) in k.nics {
      RemainsOld(EMPTY_WORLD.nics, k.nics, NetSpecs([n]), k.jails.Keys, HostAt(DhcpIfName(m.port)));
    }
    hide Remains;
  }

  lemma PortNames()
    ensures DhcpIfName(NETWORK.port) == "dhp" && DhcpIfName(REPLACED.port) == "dhq"
  {
  }

  /** Two fault-free passes, the second over the same network with its port replaced: both provide it,
      and the second has a failed receipt. */
  lemma ReplacedPortFailsAReceipt(f: Faults)
    requires FaultFree(f)
    ensures var first := Passed(f, EMPTY_WORLD, EMPTY_SERVICE, [NETWORK]);
            var second := Passed(f, first.l.k, first.s, [REPLACED]);
            && AllOk(first.l.receipts) && Provided(EMPTY_WORLD, first.l.k, first.s, [NETWORK])
            && Provided(first.l.k, second.l.k, second.s, [REPLACED]) && !AllOk(second.l.receipts)
  {
    hide Sound, AllHonest, AllKin, DistinctNetworks, Passed, Provided, Remains, AllOk, SomeUsurped, FaultFree, PortReplaced;
    var first := Passed(f, EMPTY_WORLD, EMPTY_SERVICE, [NETWORK]);
    EmptyIsFine(NETWORK);
    PassProvides(f, EMPTY_WORLD, EMPTY_SERVICE, [NETWORK]);
    EmptyIsFine(REPLACED);
    PortNames();
    OnlyItsPort(first.l.k, NETWORK, REPLACED);
    ProvidedHonest(EMPTY_WORLD, first.l.k, first.s, [NETWORK]);
    PassProvides(f, first.l.k, first.s, [REPLACED]);
    ReceiptsTellReplacedPorts(f, EMPTY_WORLD, first.l.k, first.s, [NETWORK], [REPLACED]);
    PortIsReplaced();
  }

  lemma PortIsReplaced()
    ensures PortReplaced([NETWORK], [REPLACED])
  {
    var before, desired := [NETWORK], [REPLACED];
    assert desired[0].id == "n" && before[0].id == "n";
    assert DhcpJail(before[0].id) in Jails(desired);
    PortNames();
    assert before[0].port == "p" && desired[0].port == "q";
    assert DhcpIfName(before[0].port) !in Hosts(desired);
  }

  // ------------------------------------------------------------ a failed reload

  /** Only reloads fail. */
  ghost predicate ReloadsFail(f: Faults) {
    forall n: nat, c: Cmd :: f(n, c) <==> c.ReloadDnsmasq?
  }

  lemma AfterFirst(f: Faults) returns (first: Stage)
    requires FaultFree(f)
    ensures first == Passed(f, EMPTY_WORLD, EMPTY_SERVICE, [NETWORK])
    ensures AllHonest(first.s) && InForce(first.s, NETWORK) && DhcpJail("n") in first.l.k.jails && Both(first.l.k.nics, NetSpec(MORE_HOSTS).pair)
  {
    first := Passed(f, EMPTY_WORLD, EMPTY_SERVICE, [NETWORK]);
    EmptyIsFine(NETWORK);
    PassProvides(f, EMPTY_WORLD, EMPTY_SERVICE, [NETWORK]);
    hide Passed, Remains, AllOk, SomeUsurped;
    assert AllInForce(first.s, [NETWORK], 1) && [NETWORK][0] == NETWORK;
    assert NetSpecs([NETWORK])[0] == NetSpec(NETWORK);
    assert PortAs(EMPTY_WORLD.nics, first.l.k.nics, NetSpecs([NETWORK])[0]);
    assert DhcpJail([NETWORK][0].id) in Jails([NETWORK]);
  }

  lemma ReloadIsForgotten(g: Faults, t: Stage)
    requires ReloadsFail(g) && InForce(t.s, NETWORK) && DhcpJail("n") in t.l.k.jails && Both(t.l.k.nics, NetSpec(MORE_HOSTS).pair)
    ensures Forgets(g, t, MORE_HOSTS) && Reached(g, t, MORE_HOSTS)
  {
    FilesNotedIs(t.l, t.s, MORE_HOSTS);
    hide FilesNoted, PortEnsured, Both, DhcpJail;
    assert JailEnsured(g, FilesNoted(t.l, t.s, MORE_HOSTS), DhcpJail("n")) == FilesNoted(t.l, t.s, MORE_HOSTS);
  }

  /** A network is served; its hosts change, and the reload fails: the pass leaves a dnsmasq that does not
      run what is stored, and no later pass over the network does anything about it. */
  lemma FailedReloadIsForgotten(f: Faults, g: Faults)
    requires FaultFree(f) && ReloadsFail(g)
    ensures var first := Passed(f, EMPTY_WORLD, EMPTY_SERVICE, [NETWORK]);
            var now := Networked(g, Begun(first.l.k, first.s), MORE_HOSTS);
            && AllHonest(first.s) && InForce(first.s, NETWORK) && !Honest(now.s, "n") && !InForce(now.s, MORE_HOSTS)
            && forall h: Faults, t: Stage :: t.s == now.s ==> Networked(h, t, MORE_HOSTS).s == now.s
  {
    var first := AfterFirst(f);
    var t := Begun(first.l.k, first.s);
    BegunIs(first.l.k, first.s);
    hide Passed, Networked, Forgets, Reached, InForce, PidsOk, Both, DhcpJail, FaultFree, ReloadsFail, Begun;
    ReloadIsForgotten(g, t);
    assert Honest(t.s, "n");
    HonestExactlyUnlessForgotten(g, t, MORE_HOSTS);
    ForgottenForGood(g, t, MORE_HOSTS);
  }
}
