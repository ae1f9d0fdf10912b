/**
 DHCP passes one after another, each with networks of its own, and deaths of any dnsmasq in
 between: when every pass provides what it wants, told from the first plane and the lists.
 */
module NetworkMoves {
  import opened Collections
  import opened Names
  import opened JailPlane
  import opened Plumbing
  import opened Acting
  import opened PortPlane
  import opened Crossings
  import opened Dnsmasq

  function TourOf(desired: seq<Network>): Tour {
    Tour(NetSpecs(desired), Jails(desired))
  }

  lemma ProvidedLeaves(k0: World, k: World, s: Service, desired: seq<Network>)
    requires Sound(k) && Provided(k0, k, s, desired) && Remains(k0.nics, k.nics, NetSpecs(desired), k.jails.Keys)
    ensures Leaves(k0.nics, k.nics, TourOf(desired))
  {
    HostsAre(desired);
    hide PortsAs, Remains, AllHonest, AllInForce, HostsOf, Grouped, Jails, Hosts, Ids;
  }

  /** After a fault-free pass over an honest plane, the names of the next one's networks are kin, so that
      it provides them too, if and only if none of them crosses. */
  lemma NextPassExactly(f: Faults, k: World, s: Service, desired: seq<Network>, next: seq<Network>)
    requires FaultFree(f) && Sound(k) && DistinctNetworks(desired) && AllKin(k.nics, NetSpecs(desired)) && AllHonest(s)
    ensures AllKin(Passed(f, k, s, desired).l.k.nics, NetSpecs(next)) <==>
              forall a :: 0 <= a < |next| ==> !Crosses(k.nics, TourOf(desired), NetSpec(next[a]).pair)
  {
    hide FaultFree, Sound, DistinctNetworks, AllHonest, Passed, Provided, Remains, AllOk, SomeUsurped, Leaves, Kin, Crosses, NetSpec;
    var t := Passed(f, k, s, desired);
    PassProvides(f, k, s, desired);
    ProvidedLeaves(k, t.l.k, t.s, desired);
    forall a | 0 <= a < |next| ensures Kin(t.l.k.nics, NetSpecs(next)[a].pair) <==> !Crosses(k.nics, TourOf(desired), NetSpec(next[a]).pair) {
      KinExactlyUnlessCrossing(k.nics, t.l.k.nics, TourOf(desired), NetSpec(next[a]).pair);
    }
  }

  // -------------------------------------------------------------- any number of turns

  function Tours(turns: seq<Turn>): seq<Tour> {
    if turns == [] then [] else
      Tours(turns[..|turns| - 1]) + match turns[|turns| - 1] case Pass(desired) => [TourOf(desired)] case Deaths(_) => []
  }

  /** The interfaces before the first pass and after each. */
  ghost function Along(f: Faults, life: Life, turns: seq<Turn>): (r: seq<Nics>)
    ensures |r| == |Tours(turns)| + 1
  {
    if turns == [] then [life.k.nics] else
      Along(f, life, turns[..|turns| - 1]) + if turns[|turns| - 1].Pass? then [Lived(f, life, turns).k.nics] else []
  }

  ghost predicate Separate(turns: seq<Turn>) {
    forall i :: 0 <= i < |turns| && turns[i].Pass? ==> DistinctNetworks(turns[i].desired)
  }

  lemma {:induction false} AlongEnds(f: Faults, life: Life, turns: seq<Turn>)
    ensures Along(f, life, turns)[0] == life.k.nics
    ensures Along(f, life, turns)[|Tours(turns)|] == Lived(f, life, turns).k.nics
  {
    hide Passed;
    if turns != [] {
      AlongEnds(f, life, turns[..|turns| - 1]);
    }
  }

  /** While passes find their names kin, the plane stays sound and honest, and each pass provides. */
  lemma {:induction false} ProvideSoFar(f: Faults, life: Life, turns: seq<Turn>)
    requires FaultFree(f) && Sound(life.k) && AllHonest(life.s) && Separate(turns)
    ensures IsRun(Along(f, life, turns), Tours(turns))
    ensures AllPassesKin(Along(f, life, turns), Tours(turns), |Tours(turns)|) ==>
              var now := Lived(f, life, turns);
              && Sound(now.k) && AllHonest(now.s)
              && (turns != [] ==> TurnedOut(Lived(f, life, turns[..|turns| - 1]), now, turns[|turns| - 1]))
  {
    hide FaultFree, Sound, AllHonest, Passed, DistinctNetworks, AllKin, Leaves, TurnedOut, Matched;
    AlongEnds(f, life, turns);
    if turns == [] {
      SoundIsMatched(life.k);
    } else {
      var rest, last, before := turns[..|turns| - 1], turns[|turns| - 1], Lived(f, life, turns[..|turns| - 1]);
      AlongEnds(f, life, rest);
      ProvideSoFar(f, life, rest);
      var planes, tours, n := Along(f, life, turns), Tours(turns), |Tours(rest)|;
      match last
      case Deaths(dead) =>
        assert planes == Along(f, life, rest) && tours == Tours(rest);
        if AllPassesKin(planes, tours, n) {
          DeathsAreHonest(before.s, dead);
          DeathsTurnOut(before, dead);
        }
      case Pass(desired) =>
        SamePasses(Along(f, life, rest), Tours(rest), planes, tours, n);
        if AllPassesKin(planes, tours, n + 1) {
          assert tours[n] == TourOf(desired) && AllKin(planes[n], tours[n].specs);
          assert DistinctNetworks(turns[|turns| - 1].desired);
          OnePassTurnsOut(f, before, desired);
        }
    }
  }

  lemma SoundIsMatched(k: World)
    requires Sound(k)
    ensures Matched(k.nics)
  {
  }

  lemma DeathsTurnOut(before: Life, dead: set<nat>)
    requires AllHonest(Died(before.s, dead))
    ensures TurnedOut(before, Life(before.k, Died(before.s, dead)), Deaths(dead))
  {
  }

  lemma OnePassTurnsOut(f: Faults, before: Life, desired: seq<Network>)
    requires FaultFree(f) && Sound(before.k) && AllHonest(before.s) && DistinctNetworks(desired) && AllKin(before.k.nics, NetSpecs(desired))
    ensures var t := Passed(f, before.k, before.s, desired);
            && Sound(t.l.k) && AllHonest(t.s) && Leaves(before.k.nics, t.l.k.nics, TourOf(desired))
            && TurnedOut(before, Life(t.l.k, t.s), Pass(desired))
  {
    hide FaultFree, Sound, Passed, DistinctNetworks, AllKin, Leaves, Remains, AllOk, SomeUsurped, AllInForce, PortsAs;
    var t := Passed(f, before.k, before.s, desired);
    PassProvides(f, before.k, before.s, desired);
    ProvidedLeaves(before.k, t.l.k, t.s, desired);
  }

  /** A run with one more pass is a run up to it. */
  lemma SamePasses(planes: seq<Nics>, tours: seq<Tour>, planes': seq<Nics>, tours': seq<Tour>, n: nat)
    requires |tours| == n && |planes| == n + 1 && |tours'| == n + 1 && |planes'| == n + 2
    requires tours'[..n] == tours && planes'[..n + 1] == planes
    ensures forall i :: 0 <= i <= n ==> planes'[i] == planes[i]
    ensures forall i :: 0 <= i < n ==> tours'[i] == tours[i]
    ensures forall i :: 0 <= i <= n ==> (AllPassesKin(planes, tours, i) <==> AllPassesKin(planes', tours', i))
  {
    hide AllKin;
    forall i | 0 <= i < n ensures tours'[i] == tours[i] {
      assert tours'[i] == tours'[..n][i];
    }
    forall i | 0 <= i <= n ensures planes'[i] == planes[i] {
      assert planes'[i] == planes'[..n + 1][i];
    }
  }

  lemma {:induction false} EarlierTours(turns: seq<Turn>, n: nat)
    requires n <= |turns|
    ensures Tours(turns[..n]) <= Tours(turns)
    decreases |turns|
  {
    hide TourOf;
    if n < |turns| {
      assert turns[..|turns| - 1][..n] == turns[..n];
      EarlierTours(turns[..|turns| - 1], n);
    } else {
      assert turns[..n] == turns;
    }
  }

  /** Over every run of fault-free passes and deaths: all passes find their names kin if and only if none
      cross, which the first plane and the lists decide; and then dnsmasq is always honest and every
      pass provides what it wants, also when ports go from network to network. */
  lemma EveryPassProvidesUncrossed(f: Faults, life: Life, turns: seq<Turn>, n: nat)
    requires FaultFree(f) && Sound(life.k) && AllHonest(life.s) && Separate(turns) && 0 < n <= |turns|
    ensures AllPassesKin(Along(f, life, turns), Tours(turns), |Tours(turns)|) <==> RunFits(life.k.nics, Tours(turns), |Tours(turns)|)
    ensures RunFits(life.k.nics, Tours(turns), |Tours(turns)|) ==>
              TurnedOut(Lived(f, life, turns[..n - 1]), Lived(f, life, turns[..n]), turns[n - 1])
  {
    hide FaultFree, Sound, AllHonest, AllPassesKin, RunFits, IsRun, TurnedOut, DistinctNetworks, Along, Tours, Lived;
    ProvideSoFar(f, life, turns);
    AlongEnds(f, life, turns);
    RunKinExactly(Along(f, life, turns), Tours(turns), |Tours(turns)|);
    if RunFits(life.k.nics, Tours(turns), |Tours(turns)|) {
      var now := turns[..n];
      EarlierTours(turns, n);
      SameFits(life.k.nics, Tours(now), Tours(turns), |Tours(now)|);
      ProvideSoFar(f, life, now);
      AlongEnds(f, life, now);
      RunKinExactly(Along(f, life, now), Tours(now), |Tours(now)|);
      assert now[..n - 1] == turns[..n - 1];
    }
  }
}
