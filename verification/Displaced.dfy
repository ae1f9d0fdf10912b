/**
 What one pass does when a claimed interface is not at home: it is attached where it belongs
 and then destroyed with what the planner takes for garbage. One pass realizes the document
 exactly when nothing it must provide itself is displaced.
 */
module Displacement {
  import opened Collections
  import opened Model
  import opened Pf
  import opened Ops
  import opened KernelModel
  import opened View
  import opened Planner
  import opened Reading
  import opened PlanContents
  import opened Phases
  import opened AddsPhase
  import opened Realization
  import opened Convergence

  /** An owned interface that bridge b claims sits in another bridge. */
  ghost predicate Displaced(c: Config, k: Kernel, b: Name, x: Name)
    requires Resolved(c)
  {
    Claims(c, b, x) && IsOwned(k, x) && x in k.master && k.master[x] != b
  }

  /** The document wants x made: a typed member, or a vlan uplink. */
  predicate Needed(c: Config, b: Name, x: Name)
    requires Resolved(c)
  {
    b in c.bridge.at && (IsVlanOf(c, b, x) || (x in c.bridge.at[b].member.at && c.bridge.at[b].member.at[x].typed))
  }

  /** Whatever is displaced is attached hardware, which may be absent. */
  ghost predicate NothingNeededIsDisplaced(c: Config, k: Kernel)
    requires Resolved(c)
  {
    forall b, x :: Displaced(c, k, b, x) ==> !Needed(c, b, x)
  }

  lemma DisplacedIsCondemned(c: Config, k: Kernel, b: Name, x: Name)
    requires Valid(c) && Ready(c, k) && Claims(c, b, x)
    ensures Displaced(c, k, b, x) <==> Condemned(c, k, x)
  {
    assert Claimed(c, x);
  }

  /** A displaced interface does not survive the pass. */
  lemma DisplacedIsDestroyed(c: Config, k: Kernel, k3: Kernel, k4: Kernel, b: Name, x: Name)
    requires Valid(c) && Ready(c, k) && Finished(c, k, k3, k4, {}) && Displaced(c, k, b, x)
    ensures x !in k4.ifs
  {
    DisplacedIsCondemned(c, k, b, x);
    FinishedIface(c, k, k3, k4, {}, x);
  }

  lemma NeededIsMissed(c: Config, k: Kernel, b: Name, x: Name)
    requires Resolved(c) && Needed(c, b, x) && x !in k.ifs
    ensures !BridgeRealized(c, k, b)
  {
    if IsVlanOf(c, b, x) {
      assert x in UplinkNames(c, c.bridge.at[b]);
    }
  }

  /** A member whose interface is gone is done when it was only attached hardware. */
  lemma AbsentMemberDone(c: Config, b: Name, x: Name, m: Member, k3: Kernel, k4: Kernel)
    requires Resolved(c) && !m.typed && m.bind.None? && x !in k4.ifs && MemberDone(c, b, x, m, k3)
    requires x in k4.anchors ==> x in k3.anchors && k4.anchors[x] == k3.anchors[x]
    ensures MemberDone(c, b, x, m, k4)
  {
  }

  lemma FinishedMember(c: Config, k: Kernel, k3: Kernel, k4: Kernel, b: Name, x: Name)
    requires Valid(c) && Ready(c, k) && Finished(c, k, k3, k4, {}) && NothingNeededIsDisplaced(c, k)
    requires b in c.bridge.at && x in c.bridge.at[b].member.at
    ensures MemberDone(c, b, x, c.bridge.at[b].member.at[x], k4)
  {
    assert x in c.bridge.at[b].member.keys;
    assert Claims(c, b, x);
    DisplacedIsCondemned(c, k, b, x);
    FinishedIface(c, k, k3, k4, {}, x);
    assert BridgeDone(c, b, k3);
    assert !IsBridge(k, x) by { assert Claimed(c, x); }
    if Displaced(c, k, b, x) {
      DisplacedIsDestroyed(c, k, k3, k4, b, x);
      AbsentMemberDone(c, b, x, c.bridge.at[b].member.at[x], k3, k4);
    } else {
      DoneFrame(c, b, x, c.bridge.at[b].member.at[x], k3, k4);
    }
  }

  lemma FinishedUplink(c: Config, k: Kernel, k3: Kernel, k4: Kernel, b: Name)
    requires Valid(c) && Ready(c, k) && Finished(c, k, k3, k4, {}) && NothingNeededIsDisplaced(c, k) && b in c.bridge.at
    ensures UplinkDone(c, b, k4)
  {
    assert BridgeDone(c, b, k3) && Resolved(c);
    hide Finished, Ready, NothingNeededIsDisplaced, MemberDone, Condemned, Resolved;
    forall x | x in UplinkNames(c, c.bridge.at[b])
      ensures Manufactured(c.bridge.at[b]) || x in k4.ifs ==> x in k4.ifs && InBridge(k4, b, x)
    {
      FinishedUplinkName(c, k, k3, k4, b, x);
      if !Displaced(c, k, b, x) {
        SameIface(k4, k3, x);
      }
    }
  }

  lemma FinishedUplinkName(c: Config, k: Kernel, k3: Kernel, k4: Kernel, b: Name, x: Name)
    requires Valid(c) && Ready(c, k) && Finished(c, k, k3, k4, {}) && NothingNeededIsDisplaced(c, k) && b in c.bridge.at
    requires x in UplinkNames(c, c.bridge.at[b])
    ensures if Displaced(c, k, b, x) then !Manufactured(c.bridge.at[b]) && x !in k4.ifs else At(k4, x) == At(k3, x)
  {
    assert Claims(c, b, x) && Resolved(c);
    assert Claimed(c, x);
    assert !IsBridge(k, x);
    assert !Displaced(c, k, b, x) || !IsVlanOf(c, b, x);
    hide NothingNeededIsDisplaced, Resolved, Finished, Ready, Condemned, Claimed, Claims;
    DisplacedIsCondemned(c, k, b, x);
    FinishedIface(c, k, k3, k4, {}, x);
    if Displaced(c, k, b, x) {
      DisplacedIsDestroyed(c, k, k3, k4, b, x);
    }
  }

  lemma FinishedStanza(c: Config, k: Kernel, k3: Kernel, k4: Kernel, b: Name)
    requires Valid(c) && Ready(c, k) && Finished(c, k, k3, k4, {}) && NothingNeededIsDisplaced(c, k) && b in c.bridge.at
    ensures BridgeRealized(c, k4, b)
  {
    FinishedIface(c, k, k3, k4, {}, b);
    SameIface(k4, k3, b);
    forall x | x in c.bridge.at[b].member.at ensures MemberDone(c, b, x, c.bridge.at[b].member.at[x], k4) {
      FinishedMember(c, k, k3, k4, b, x);
    }
    FinishedUplink(c, k, k3, k4, b);
    forall m | InBridge(k4, b, m) ensures Claims(c, b, m) {
      FinishedMaster(c, k, k3, k4, {}, m);
    }
  }

  lemma FinishedOthers(c: Config, k: Kernel, k3: Kernel, k4: Kernel, x: Name)
    requires Valid(c) && Ready(c, k) && Finished(c, k, k3, k4, {})
    ensures x in k4.anchors ==> Policied(c, x)
    ensures IsOwned(k4, x) ==> x in c.bridge.at || (Claimed(c, x) && !IsBridge(k4, x))
  {
    FinishedIface(c, k, k3, k4, {}, x);
  }

  lemma RealizedUnlessNeeded(c: Config, k: Kernel, k3: Kernel, k4: Kernel)
    requires Valid(c) && Ready(c, k) && Finished(c, k, k3, k4, {})
    ensures Realized(c, k4) <==> NothingNeededIsDisplaced(c, k)
  {
    hide Ready, Finished, Needed, BridgeRealized, Displaced;
    forall b, x | Displaced(c, k, b, x) && Needed(c, b, x) ensures !Realized(c, k4) {
      DisplacedIsDestroyed(c, k, k3, k4, b, x);
      NeededIsMissed(c, k4, b, x);
      NeededBridge(c, b, x);
    }
    if NothingNeededIsDisplaced(c, k) {
      FinishedNoConflict(c, k, k3, k4, {});
      forall b | b in c.bridge.at ensures BridgeRealized(c, k4, b) {
        FinishedStanza(c, k, k3, k4, b);
      }
      forall x
        ensures x in k4.anchors ==> Policied(c, x)
        ensures IsOwned(k4, x) ==> x in c.bridge.at || (Claimed(c, x) && !IsBridge(k4, x))
      {
        FinishedOthers(c, k, k3, k4, x);
      }
    }
  }

  lemma NeededBridge(c: Config, b: Name, x: Name)
    requires Resolved(c) && Needed(c, b, x)
    ensures b in c.bridge.at
  {
  }

  /** One fault-free pass realizes the document exactly when no typed member or vlan uplink it
      claims sits, owned, in another bridge: those are attached and then destroyed. */
  lemma OnePassRealizesExactly(c: Config, k: Kernel, v: KernelInterfaces, pf: PfState)
    requires Situation(c, k, v, pf) && Ready(c, k)
    ensures Executable(PlannedPhases(c, v, Some(pf)).Ops(), k)
    ensures Realized(c, Apply(PlannedPhases(c, v, Some(pf)).Ops(), k)) <==> NothingNeededIsDisplaced(c, k)
  {
    var k3 := RunPass(c, k, v, pf);
    RealizedUnlessNeeded(c, k, k3, Apply(PlannedPhases(c, v, Some(pf)).Ops(), k));
  }

  // ---------------------------------------------------------- a tap that moved

  /** Two bridges, the first with one tap. */
  function MovedConfig(here: Name, there: Name, tap: Name): Config {
    Config(map[],
           Dict([here, there], map[here := Bridge(2000, None, Dict([tap], map[tap := Member(true, "", "", None)])),
                                   there := Bridge(2000, None, Dict([], map[]))]),
           map[], map[])
  }

  /** The tap still sits in the second. */
  function MovedKernel(here: Name, there: Name, tap: Name): Kernel {
    Kernel(map[here := Iface(true, true, Some(2000)), there := Iface(true, true, Some(2000)), tap := Iface(false, true, None)],
           map[tap := there], map[], map[])
  }

  function MovedView(here: Name, there: Name, tap: Name): KernelInterfaces {
    KernelInterfaces(
      Dict([here, there, tap], map[here := Interface(true, true, [], Some(2000)), there := Interface(true, true, [tap], Some(2000)),
                                   tap := Interface(false, true, [], None)]),
      [here, there, tap], map[])
  }

  predicate Three(here: Name, there: Name, tap: Name) {
    here != there && here != tap && there != tap
  }

  /** What the example document says. */
  ghost predicate SaysMoved(c: Config, here: Name, there: Name, tap: Name) {
    && Valid(c)
    && (forall b :: b in c.bridge.at <==> b == here || b == there)
    && (forall b :: b in c.bridge.at ==> c.bridge.at[b].segment.None? && NoDup(WantedNames(c, c.bridge.at[b])))
    && (forall b, m :: b in c.bridge.at && m in c.bridge.at[b].member.at ==>
          b == here && m == tap && c.bridge.at[b].member.at[m] == Member(true, "", "", None))
    && (forall b, x :: Claims(c, b, x) <==> b == here && x == tap)
    && tap in c.bridge.at[here].member.at
  }

  lemma MovedSays(here: Name, there: Name, tap: Name)
    requires Three(here, there, tap)
    ensures SaysMoved(MovedConfig(here, there, tap), here, there, tap)
  {
    var c := MovedConfig(here, there, tap);
    MovedValid(here, there, tap);
    MovedWants(here, there, tap);
    hide Valid, Resolved, WantedNames, NoDup;
    forall b | b in c.bridge.at ensures (b == here || b == there) && c.bridge.at[b].segment.None? {}
    forall b, m | b in c.bridge.at && m in c.bridge.at[b].member.at
      ensures b == here && m == tap && c.bridge.at[b].member.at[m] == Member(true, "", "", None)
    {
      assert b == here || b == there;
    }
    forall b, x ensures Claims(c, b, x) <==> b == here && x == tap {
      if b in c.bridge.at {
        assert b == here || b == there;
      }
    }
  }

  lemma MovedWants(here: Name, there: Name, tap: Name)
    requires Three(here, there, tap)
    ensures var c := MovedConfig(here, there, tap);
            Valid(c) && WantedNames(c, c.bridge.at[here]) == [tap] && WantedNames(c, c.bridge.at[there]) == []
    ensures NoDup([tap]) && NoDup<Name>([])
  {
    MovedValid(here, there, tap);
    hide Valid;
  }

  lemma MovedValid(here: Name, there: Name, tap: Name)
    requires Three(here, there, tap)
    ensures Valid(MovedConfig(here, there, tap))
  {
    var c := MovedConfig(here, there, tap);
    assert c.bridge.keys == [here, there] && c.bridge.Valid();
    assert c.bridge.at[here].member.Valid() && c.bridge.at[there].member.Valid();
  }

  /** What the example kernel holds. */
  ghost predicate HoldsMoved(k: Kernel, here: Name, there: Name, tap: Name) {
    && (forall x :: x in k.ifs <==> x == here || x == there || x == tap)
    && k.ifs[here] == k.ifs[there] == Iface(true, true, Some(2000)) && k.ifs[tap] == Iface(false, true, None)
    && (forall x :: x in k.master <==> x == tap) && k.master[tap] == there
    && k.lock == map[] && k.anchors == map[]
  }

  lemma MovedReady(c: Config, k: Kernel, here: Name, there: Name, tap: Name)
    requires Three(here, there, tap) && SaysMoved(c, here, there, tap) && HoldsMoved(k, here, there, tap)
    ensures Ready(c, k)
  {
    assert Resolved(c) && Claims(c, here, tap);
    hide Valid, Resolved, Claims, WantedNames;
    assert forall x :: Claimed(c, x) <==> x == tap;
    hide Claimed;
  }

  /** What the example view shows. */
  ghost predicate ShowsMoved(v: KernelInterfaces, here: Name, there: Name, tap: Name) {
    && v.interfaces.Valid() && NoDup(v.owned) && v.addrs == map[]
    && (forall x :: x in v.interfaces.at <==> x == here || x == there || x == tap)
    && (forall x :: x in v.owned <==> x == here || x == there || x == tap)
    && v.interfaces.at[here] == Interface(true, true, [], Some(2000))
    && v.interfaces.at[there] == Interface(true, true, [tap], Some(2000))
    && v.interfaces.at[tap] == Interface(false, true, [], None)
  }

  lemma MovedShows(here: Name, there: Name, tap: Name)
    requires Three(here, there, tap)
    ensures ShowsMoved(MovedView(here, there, tap), here, there, tap)
  {
    var v := MovedView(here, there, tap);
    assert v.interfaces.keys == [here, there, tap] == v.owned;
  }

  lemma MovedRead(c: Config, k: Kernel, v: KernelInterfaces, here: Name, there: Name, tap: Name)
    requires Three(here, there, tap) && Resolved(c) && HoldsMoved(k, here, there, tap) && ShowsMoved(v, here, there, tap)
    ensures Reads(k, c, v) && ReadsPf(k, map[])
  {
    forall x | x in v.interfaces.at ensures ReadsIface(k, x, v.interfaces.at[x]) {
    }
    hide Resolved, ReadsIface, NoDup;
  }

  lemma MovedDisplaced(c: Config, k: Kernel, here: Name, there: Name, tap: Name)
    requires Three(here, there, tap) && SaysMoved(c, here, there, tap) && HoldsMoved(k, here, there, tap)
    ensures !NothingNeededIsDisplaced(c, k)
  {
    assert Displaced(c, k, here, tap) && Needed(c, here, tap);
  }

  lemma MovedSituation(c: Config, k: Kernel, v: KernelInterfaces)
    requires Valid(c) && Ready(c, k) && Reads(k, c, v) && ReadsPf(k, map[])
    ensures Situation(c, k, v, map[])
  {
  }

  lemma MovedFits(here: Name, there: Name, tap: Name)
    requires Three(here, there, tap)
    ensures var c, k, v := MovedConfig(here, there, tap), MovedKernel(here, there, tap), MovedView(here, there, tap);
            Valid(c) && Situation(c, k, v, map[]) && Ready(c, k) && !NothingNeededIsDisplaced(c, k)
  {
    var c, k, v := MovedConfig(here, there, tap), MovedKernel(here, there, tap), MovedView(here, there, tap);
    MovedSays(here, there, tap);
    MovedShows(here, there, tap);
    assert SaysMoved(c, here, there, tap) && Valid(c) && HoldsMoved(k, here, there, tap);
    hide MovedConfig, MovedKernel, MovedView, SaysMoved, HoldsMoved, ShowsMoved;
    MovedReady(c, k, here, there, tap);
    MovedRead(c, k, v, here, there, tap);
    MovedDisplaced(c, k, here, there, tap);
    hide Reads, ReadsPf, NothingNeededIsDisplaced;
    MovedSituation(c, k, v);
  }

  /** A tap whose port moved to another segment is attached there and destroyed in one pass. */
  lemma MovedTapIsLost(here: Name, there: Name, tap: Name)
    requires Three(here, there, tap)
    ensures var c, k, v := MovedConfig(here, there, tap), MovedKernel(here, there, tap), MovedView(here, there, tap);
            && Situation(c, k, v, map[]) && Ready(c, k)
            && var ops := PlannedPhases(c, v, Some(map[])).Ops();
               Executable(ops, k) && !Realized(c, Apply(ops, k))
  {
    hide MovedConfig, MovedKernel, MovedView, Situation, Ready, NothingNeededIsDisplaced, Realized, PlannedPhases, Executable, Apply;
    MovedFits(here, there, tap);
    OnePassRealizesExactly(MovedConfig(here, there, tap), MovedKernel(here, there, tap), MovedView(here, there, tap), map[]);
  }
}
