/**
 Whole passes. `Realized` says, without mentioning the planner, that the kernel is as
 the document wants it. A fault-free pass executes every op it planned and realizes
 the document when every claimed owned interface is at home; without that, it puts
 every one at home, so that the pass after it realizes the document.
 */
module Realization {
  import opened Collections
  import opened Model
  import opened Pf
  import opened KernelModel
  import opened Planner
  import opened Reading
  import opened AddsPhase

  ghost predicate BridgeRealized(c: Config, k: Kernel, b: Name)
    requires Resolved(c) && b in c.bridge.at
  {
    && b in k.ifs && k.ifs[b].isBridge && k.ifs[b].owned
    && (k.ifs[b].maxaddr.Some? ==> k.ifs[b].maxaddr.value == c.bridge.at[b].maxAddresses)
    && BridgeDone(c, b, k)
    && (forall m :: InBridge(k, b, m) ==> Claims(c, b, m))
  }

  /** Something that is doomed but could not be destroyed yet: detached, empty, its anchor gone. */
  ghost predicate Parked(c: Config, k: Kernel, x: Name)
    requires Resolved(c)
  {
    && IsOwned(k, x) && x !in c.bridge.at && !Claimed(c, x) && x !in k.anchors
    && (x in k.master ==> !IsOwned(k, k.master[x]))
    && (forall m :: !InBridge(k, x, m))
  }

  /** Realized, but for some parked interfaces and bridges still to be destroyed. */
  ghost predicate RealizedBut(c: Config, k: Kernel, parked: set<Name>)
    requires Resolved(c)
  {
    && NoConflict(c, k)
    && (forall b :: b in c.bridge.at ==> BridgeRealized(c, k, b))
    && (forall x :: x in k.anchors ==> Policied(c, x))
    && (forall x :: IsOwned(k, x) ==> x in c.bridge.at || x in parked || (Claimed(c, x) && !IsBridge(k, x)))
    && (forall x :: x in parked ==> Parked(c, k, x))
  }

  /** The kernel is as the document wants it, with nothing left over. */
  ghost predicate Realized(c: Config, k: Kernel)
    requires Resolved(c)
  {
    RealizedBut(c, k, {})
  }
}

module Convergence {
  import opened Collections
  import opened Model
  import opened Pf
  import opened Ops
  import opened KernelModel
  import opened View
  import opened Planner
  import opened Reading
  import opened PlanShape
  import opened PlanContents
  import opened Phases
  import opened AddsPhase
  import opened AddsContents
  import opened Realization

  // ------------------------------------------------- after creates and removes

  ghost predicate Cleared(c: Config, k: Kernel, k1: Kernel, k2: Kernel)
    requires Resolved(c)
  {
    && k2.ifs == k1.ifs
    && (forall x :: Get(k2.master, x) == if Evictee(c, k, x) then None else Get(k.master, x))
    && (forall x :: Get(k2.lock, x) == if Evictee(c, k, x) then None else Get(k.lock, x))
    && (forall x :: Get(k2.anchors, x) == if FlushedEarly(c, k, x) then None else Get(k.anchors, x))
  }

  lemma RemovedAre(c: Config, k: Kernel, ops: seq<Op>)
    requires Resolved(c) && forall op :: op in ops <==> IsRemove(c, k, op)
    ensures forall x :: x in Removed(ops) <==> Evictee(c, k, x)
    ensures forall x :: x in Flushed(ops) <==> FlushedEarly(c, k, x)
  {
    forall x | Evictee(c, k, x) ensures x in Removed(ops) {
      assert IsRemove(c, k, RemoveMember(k.master[x], x));
      assert RemoveMember(k.master[x], x) in ops;
    }
    forall x | FlushedEarly(c, k, x) ensures x in Flushed(ops) {
      assert IsRemove(c, k, FlushAnchor(x));
      assert FlushAnchor(x) in ops;
    }
  }

  lemma RunClearing(c: Config, k: Kernel, k1: Kernel, ops: seq<Op>)
    requires Resolved(c) && NoDup(ops) && forall op :: op in ops <==> IsRemove(c, k, op)
    requires k1.master == k.master && k1.lock == k.lock && k1.anchors == k.anchors
    ensures Executable(ops, k1) && Cleared(c, k, k1, Apply(ops, k1))
  {
    RunRemoves(ops, k1);
    RemovedAre(c, k, ops);
  }

  lemma RunRemovesPhase(c: Config, k: Kernel, v: KernelInterfaces, pf: PfState, k1: Kernel)
    requires Situation(c, k, v, pf)
    requires k1.master == k.master && k1.lock == k.lock && k1.anchors == k.anchors
    ensures Executable(PlannedPhases(c, v, Some(pf)).removes, k1)
    ensures Cleared(c, k, k1, Apply(PlannedPhases(c, v, Some(pf)).removes, k1))
  {
    RemovesAre(c, k, v, pf);
    RemovesOnce(c, k, v, pf);
    RunClearing(c, k, k1, PlannedPhases(c, v, Some(pf)).removes);
  }

  lemma CreatedClaim(c: Config, k: Kernel, k1: Kernel, b: Name, x: Name)
    requires Valid(c) && Distinct(c) && Uncaptured(c, k) && CreatedUpTo(c, k, k1, |c.bridge.keys|)
    requires Claims(c, b, x)
    ensures !IsBridge(k1, x)
    ensures x in k1.ifs <==> x in k.ifs || IsVlanOf(c, b, x)
    ensures x in k.ifs ==> k1.ifs[x] == k.ifs[x]
  {
    var n := |c.bridge.keys|;
    assert Get(k1.ifs, x) == CreatedIface(c, k, n, x);
    assert Claimed(c, x);
    assert x in c.bridge.keys[..n] ==> x in c.bridge.keys;
    assert VlanUpTo(c, n, x) <==> IsVlanOf(c, b, x) by {
      VlanClaim(c, b, x);
    }
  }

  lemma VlanClaim(c: Config, b: Name, x: Name)
    requires Valid(c) && Distinct(c) && Claims(c, b, x)
    ensures VlanUpTo(c, |c.bridge.keys|, x) <==> IsVlanOf(c, b, x)
  {
    forall j | 0 <= j < |c.bridge.keys| && IsVlanOf(c, c.bridge.keys[j], x) ensures c.bridge.keys[j] == b {
      assert c.bridge.keys[j] in c.bridge.keys;
      assert Claims(c, c.bridge.keys[j], x);
    }
    if IsVlanOf(c, b, x) {
      var j := KeyIndex(c.bridge.keys, b);
      assert IsVlanOf(c, c.bridge.keys[j], x);
    }
  }

  lemma CreatedBridgeIs(c: Config, k: Kernel, k1: Kernel, b: Name)
    requires Valid(c) && CreatedUpTo(c, k, k1, |c.bridge.keys|) && b in c.bridge.at
    ensures b in k1.ifs && k1.ifs[b].isBridge && k1.ifs[b].owned
    ensures k1.ifs[b].maxaddr.Some? ==> k1.ifs[b].maxaddr.value == c.bridge.at[b].maxAddresses
  {
    assert Get(k1.ifs, b) == CreatedIface(c, k, |c.bridge.keys|, b);
    assert c.bridge.keys[..|c.bridge.keys|] == c.bridge.keys;
    assert b in c.bridge.keys;
  }

  /** Whatever else exists after the creates phase existed before it, or is a claimed vlan. */
  lemma CreatedOther(c: Config, k: Kernel, k1: Kernel, x: Name)
    requires Valid(c) && CreatedUpTo(c, k, k1, |c.bridge.keys|) && x !in c.bridge.at
    ensures x in k.ifs ==> x in k1.ifs && k1.ifs[x] == k.ifs[x]
    ensures x in k1.ifs && x !in k.ifs ==> k1.ifs[x] == Iface(false, true, None) && Claimed(c, x)
  {
    var n := |c.bridge.keys|;
    assert Get(k1.ifs, x) == CreatedIface(c, k, n, x);
    assert x in c.bridge.keys[..n] ==> x in c.bridge.keys;
    if VlanUpTo(c, n, x) {
      var j :| 0 <= j < n && IsVlanOf(c, c.bridge.keys[j], x);
      assert Claims(c, c.bridge.keys[j], x);
    }
  }

  lemma ClaimsStaged(c: Config, k: Kernel, k1: Kernel, k2: Kernel, b: Name)
    requires Valid(c) && Ready(c, k) && WellFormed(k2)
    requires CreatedUpTo(c, k, k1, |c.bridge.keys|) && Cleared(c, k, k1, k2)
    requires b in c.bridge.at
    ensures StanzaReady(c, k, k2, b)
  {
    CreatedBridgeIs(c, k, k1, b);
    forall x | Claims(c, b, x) ensures Staged(c, k, k2, b, x) {
      CreatedClaim(c, k, k1, b, x);
      assert Get(k2.master, x) == if Evictee(c, k, x) then None else Get(k.master, x);
      assert Get(k2.lock, x) == if Evictee(c, k, x) then None else Get(k.lock, x);
      assert Get(k2.anchors, x) == if FlushedEarly(c, k, x) then None else Get(k.anchors, x);
      assert Claimed(c, x);
      assert PoliciedMember(c, b, x) ==> Policied(c, x);
    }
  }

  // ---------------------------------------------------------- after the adds

  ghost predicate BridgesPopulated(c: Config, k3: Kernel)
    requires Resolved(c)
  {
    forall b :: b in c.bridge.at ==>
                  && b in k3.ifs && k3.ifs[b].isBridge && k3.ifs[b].owned
                  && (k3.ifs[b].maxaddr.Some? ==> k3.ifs[b].maxaddr.value == c.bridge.at[b].maxAddresses)
                  && BridgeDone(c, b, k3)
  }

  ghost predicate OthersKept(c: Config, k: Kernel, k3: Kernel)
    requires Resolved(c)
  {
    && (forall x :: x !in c.bridge.at && x in k.ifs ==> x in k3.ifs && k3.ifs[x] == k.ifs[x])
    && (forall x :: x !in c.bridge.at && x in k3.ifs && x !in k.ifs ==> k3.ifs[x] == Iface(false, true, None) && Claimed(c, x))
  }

  ghost predicate MastersRight(c: Config, k: Kernel, k3: Kernel)
    requires Resolved(c)
  {
    forall x :: x in k3.master ==> Claims(c, k3.master[x], x) || (InBridge(k, k3.master[x], x) && !Evictee(c, k, x))
  }

  ghost predicate AnchorsRight(c: Config, k: Kernel, k3: Kernel)
    requires Resolved(c)
  {
    forall x :: x in k3.anchors ==> Policied(c, x) || (x in k.anchors && !FlushedEarly(c, k, x))
  }

  /** The kernel once creates, removes and adds have run, told from the kernel that was read. */
  ghost predicate Populated(c: Config, k: Kernel, k3: Kernel)
    requires Resolved(c)
  {
    WellFormed(k3) && BridgesPopulated(c, k3) && OthersKept(c, k, k3) && MastersRight(c, k, k3) && AnchorsRight(c, k, k3)
  }

  lemma BridgesArePopulated(c: Config, k: Kernel, k1: Kernel, k2: Kernel, k3: Kernel)
    requires Valid(c) && CreatedUpTo(c, k, k1, |c.bridge.keys|) && k2.ifs == k1.ifs
    requires AddsBound(c, k2, k3) && BridgesDone(c, |c.bridge.keys|, k3)
    ensures BridgesPopulated(c, k3)
  {
    forall b | b in c.bridge.at
      ensures && b in k3.ifs && k3.ifs[b].isBridge && k3.ifs[b].owned
              && (k3.ifs[b].maxaddr.Some? ==> k3.ifs[b].maxaddr.value == c.bridge.at[b].maxAddresses)
              && BridgeDone(c, b, k3)
    {
      CreatedBridgeIs(c, k, k1, b);
      var j := KeyIndex(c.bridge.keys, b);
    }
  }

  lemma OthersAreKept(c: Config, k: Kernel, k1: Kernel, k2: Kernel, k3: Kernel)
    requires Valid(c) && CreatedUpTo(c, k, k1, |c.bridge.keys|) && k2.ifs == k1.ifs && AddsBound(c, k2, k3)
    ensures OthersKept(c, k, k3)
  {
    forall x | x !in c.bridge.at && x in k.ifs ensures x in k3.ifs && k3.ifs[x] == k.ifs[x] {
      CreatedOther(c, k, k1, x);
    }
    forall x | x !in c.bridge.at && x in k3.ifs && x !in k.ifs
      ensures k3.ifs[x] == Iface(false, true, None) && Claimed(c, x)
    {
      CreatedOther(c, k, k1, x);
      if x !in k2.ifs {
        var b :| TypedMember(c, b, x);
        assert Claims(c, b, x);
      }
    }
  }

  lemma MastersAndAnchorsRight(c: Config, k: Kernel, k1: Kernel, k2: Kernel, k3: Kernel)
    requires Valid(c) && Cleared(c, k, k1, k2) && AddsBound(c, k2, k3)
    ensures MastersRight(c, k, k3) && AnchorsRight(c, k, k3)
  {
    forall x | x in k3.master
      ensures Claims(c, k3.master[x], x) || (InBridge(k, k3.master[x], x) && !Evictee(c, k, x))
    {
      assert Get(k2.master, x) == if Evictee(c, k, x) then None else Get(k.master, x);
      if Get(k2.master, x) == Get(k3.master, x) {
        assert x in k2.master && k2.master[x] == k3.master[x];
      }
    }
    forall x | x in k3.anchors ensures Policied(c, x) || (x in k.anchors && !FlushedEarly(c, k, x)) {
      assert Get(k2.anchors, x) == if FlushedEarly(c, k, x) then None else Get(k.anchors, x);
      if x !in k2.anchors {
        var b :| PoliciedMember(c, b, x);
        assert Policied(c, x);
      }
    }
  }

  /** Creates and removes run without a refusal and leave every stanza ready. */
  lemma RunUpToRemoves(c: Config, k: Kernel, v: KernelInterfaces, pf: PfState) returns (k1: Kernel, k2: Kernel)
    requires Situation(c, k, v, pf) && Ready(c, k)
    ensures var p := PlannedPhases(c, v, Some(pf));
            Executable(p.creates + p.removes, k) && k2 == Apply(p.creates + p.removes, k)
    ensures CreatedUpTo(c, k, k1, |c.bridge.keys|) && Cleared(c, k, k1, k2) && WellFormed(k2)
    ensures forall b :: b in c.bridge.at ==> StanzaReady(c, k, k2, b)
  {
    var p := PlannedPhases(c, v, Some(pf));
    RunCreates(c, k, v, |c.bridge.keys|);
    ApplyWellFormed(p.creates, k);
    k1 := Apply(p.creates, k);
    RunRemovesPhase(c, k, v, pf, k1);
    ApplyWellFormed(p.removes, k1);
    k2 := Apply(p.removes, k1);
    ApplyConcat(p.creates, p.removes, k);
    forall b | b in c.bridge.at ensures StanzaReady(c, k, k2, b) {
      ClaimsStaged(c, k, k1, k2, b);
    }
  }

  /** Creates, removes and adds run without a refusal and leave a populated kernel. */
  lemma RunUpToAdds(c: Config, k: Kernel, v: KernelInterfaces, pf: PfState)
    requires Situation(c, k, v, pf) && Ready(c, k)
    ensures var p := PlannedPhases(c, v, Some(pf));
            Executable(p.creates + p.removes + p.adds, k) && Populated(c, k, Apply(p.creates + p.removes + p.adds, k))
  {
    var p := PlannedPhases(c, v, Some(pf));
    var n := |c.bridge.keys|;
    var k1, k2 := RunUpToRemoves(c, k, v, pf);
    RunAdds(c, k, v, pf, k2, n);
    AddsAre(c, k, v, pf, n);
    AddsBounded(c, k, p.adds, k2);
    var k3 := Apply(p.adds, k2);
    ApplyConcat(p.creates + p.removes, p.adds, k);
    BridgesArePopulated(c, k, k1, k2, k3);
    OthersAreKept(c, k, k1, k2, k3);
    MastersAndAnchorsRight(c, k, k1, k2, k3);
  }

  // ----------------------------------------------------------------- destroys

  /** What the destroys take away: every condemned interface and doomed bridge but the parked ones. */
  ghost function Gone(c: Config, k: Kernel, parked: set<Name>): set<Name>
    requires Resolved(c)
  {
    set x | x in k.ifs && (Condemned(c, k, x) || DoomedBridge(c, k, x)) && x !in parked
  }

  ghost function FlushedLate(c: Config, k: Kernel): set<Name>
    requires Resolved(c)
  {
    set x | x in k.anchors && Condemned(c, k, x)
  }

  /** The destroys of a plan, some of which may have been held up. */
  ghost predicate Destructions(c: Config, k: Kernel, ops: seq<Op>, parked: set<Name>)
    requires Resolved(c)
  {
    && NoDup(ops)
    && (forall x :: x in parked ==> Condemned(c, k, x) || DoomedBridge(c, k, x))
    && (forall op :: op in ops <==> IsDestruction(c, k, op) && !(IsDestroy(op) && op.name in parked))
  }

  lemma DestructionsAre(c: Config, k: Kernel, ops: seq<Op>, parked: set<Name>)
    requires Resolved(c) && Destructions(c, k, ops, parked)
    ensures Destroyed(ops) == Gone(c, k, parked)
    ensures Flushed(ops) == FlushedLate(c, k)
  {
    forall x | Condemned(c, k, x) && x !in parked ensures x in Destroyed(ops) {
      assert IsDestruction(c, k, DestroyIface(x));
      assert DestroyIface(x) in ops;
    }
    forall x | DoomedBridge(c, k, x) && x !in parked ensures x in Destroyed(ops) {
      assert IsDestruction(c, k, DestroyBridge(x));
      assert DestroyBridge(x) in ops;
    }
    forall x | Condemned(c, k, x) && x in k.anchors ensures x in Flushed(ops) {
      assert IsDestruction(c, k, FlushAnchor(x));
      assert FlushAnchor(x) in ops;
    }
  }

  lemma DestroyPhaseHolds(c: Config, k: Kernel, k3: Kernel, ops: seq<Op>, parked: set<Name>)
    requires Valid(c) && NoConflict(c, k) && Populated(c, k, k3) && WellFormed(k)
    requires Destructions(c, k, ops, parked)
    ensures DestroyPhase(ops, k3)
  {
    DestructionsAre(c, k, ops, parked);
    forall i, j | 0 <= i < j < |ops| && IsDestroy(ops[i]) && IsDestroy(ops[j]) ensures ops[i].name != ops[j].name {
      assert ops[i] in ops && ops[j] in ops;
    }
    forall x | x in Destroyed(ops) ensures IsOwned(k3, x) && (IsBridge(k3, x) ==> DoomedBridge(c, k, x)) {
      assert x !in c.bridge.at;
    }
    forall m | m in k3.master ensures k3.master[m] !in Destroyed(ops) {
      var b := k3.master[m];
      assert IsBridge(k3, b);
      if DoomedBridge(c, k, b) {
        assert !Claims(c, b, m);
        assert InBridge(k, b, m) ==> Leaves(c, k, b, m);
      }
    }
  }

  /** The kernel once the destroys have run too, all but the parked ones. */
  ghost predicate Finished(c: Config, k: Kernel, k3: Kernel, k4: Kernel, parked: set<Name>)
    requires Resolved(c)
  {
    && Populated(c, k, k3) && WellFormed(k4)
    && (forall x :: x in parked ==> Condemned(c, k, x) || DoomedBridge(c, k, x))
    && k4 == Purged(k3, Gone(c, k, parked), FlushedLate(c, k))
  }

  lemma RunDestroysPhase(c: Config, k: Kernel, k3: Kernel, ops: seq<Op>, parked: set<Name>)
    requires Valid(c) && NoConflict(c, k) && Populated(c, k, k3) && WellFormed(k)
    requires Destructions(c, k, ops, parked)
    ensures Executable(ops, k3) && Finished(c, k, k3, Apply(ops, k3), parked)
  {
    DestroyPhaseHolds(c, k, k3, ops, parked);
    RunDestroys(ops, k3);
    ApplyWellFormed(ops, k3);
    DestructionsAre(c, k, ops, parked);
  }

  /** At home, no claimed name is condemned. */
  lemma HomeIsSafe(c: Config, k: Kernel, x: Name)
    requires Valid(c) && WellFormed(k) && Home(c, k) && Claimed(c, x)
    ensures !Condemned(c, k, x)
  {
    var b :| Claims(c, b, x);
  }

  lemma FinishedIface(c: Config, k: Kernel, k3: Kernel, k4: Kernel, parked: set<Name>, x: Name)
    requires Valid(c) && Finished(c, k, k3, k4, parked)
    ensures x in k4.ifs ==> x in k3.ifs && k4.ifs[x] == k3.ifs[x]
    ensures x in k4.ifs && (Condemned(c, k, x) || DoomedBridge(c, k, x)) ==> x in parked
    ensures x in k3.ifs && x !in k4.ifs ==> Condemned(c, k, x) || DoomedBridge(c, k, x)
    ensures x in k4.master ==> x in k3.master && k4.master[x] == k3.master[x]
    ensures x in k4.anchors ==> x in k3.anchors && !(Condemned(c, k, x) && x in k.anchors)
    ensures !Condemned(c, k, x) && !DoomedBridge(c, k, x) ==> At(k4, x) == At(k3, x)
  {
  }

  /** Whose member a name is after the pass: the claimant's, or a foreign bridge's as before. */
  lemma FinishedMaster(c: Config, k: Kernel, k3: Kernel, k4: Kernel, parked: set<Name>, x: Name)
    requires Valid(c) && Ready(c, k) && Finished(c, k, k3, k4, parked) && x in k4.master
    ensures Claims(c, k4.master[x], x) || (InBridge(k, k4.master[x], x) && !IsOwned(k, k4.master[x]) && !IsOwned(k4, k4.master[x]))
  {
    var b := k4.master[x];
    FinishedIface(c, k, k3, k4, parked, x);
    FinishedIface(c, k, k3, k4, parked, b);
    if !Claims(c, b, x) {
      assert InBridge(k, b, x) && !Evictee(c, k, x);
      assert !IsOwned(k, b);
      assert b !in c.bridge.at;
    }
  }

  lemma FinishedReady(c: Config, k: Kernel, k3: Kernel, k4: Kernel, parked: set<Name>)
    requires Valid(c) && Ready(c, k) && Finished(c, k, k3, k4, parked)
    ensures Ready(c, k4) && Home(c, k4)
  {
    forall b | b in c.bridge.at && Manufactured(c.bridge.at[b])
      ensures var trunk := c.physnet[c.bridge.at[b].segment.value.physnet]; trunk in k4.ifs && !k4.ifs[trunk].owned
    {
      var trunk := c.physnet[c.bridge.at[b].segment.value.physnet];
      FinishedIface(c, k, k3, k4, parked, trunk);
      assert trunk !in c.bridge.at;
    }
    forall x | Claimed(c, x) ensures !IsBridge(k4, x) && (x in k4.master ==> IsOwned(k4, k4.master[x])) {
      FinishedIface(c, k, k3, k4, parked, x);
      assert x !in c.bridge.at by {
        var b :| Claims(c, b, x);
      }
      if x in k4.master {
        FinishedMaster(c, k, k3, k4, parked, x);
        FinishedIface(c, k, k3, k4, parked, k4.master[x]);
      }
    }
    forall b, x | Claims(c, b, x) && IsOwned(k4, x) && x in k4.master ensures k4.master[x] == b {
      assert Claimed(c, x);
      FinishedMaster(c, k, k3, k4, parked, x);
    }
    FinishedNoConflict(c, k, k3, k4, parked);
  }

  lemma FinishedNoConflict(c: Config, k: Kernel, k3: Kernel, k4: Kernel, parked: set<Name>)
    requires Valid(c) && Ready(c, k) && Finished(c, k, k3, k4, parked)
    ensures NoConflict(c, k4)
  {
    forall b | b in c.bridge.at && b in k4.ifs ensures k4.ifs[b].isBridge && k4.ifs[b].owned {
      FinishedIface(c, k, k3, k4, parked, b);
    }
    forall b, m | b in c.bridge.at && m in c.bridge.at[b].member.at && c.bridge.at[b].member.at[m].typed && m in k4.ifs
      ensures k4.ifs[m].owned
    {
      FinishedIface(c, k, k3, k4, parked, m);
      assert Claims(c, b, m);
    }
  }

  lemma FinishedBridge(c: Config, k: Kernel, k3: Kernel, k4: Kernel, parked: set<Name>, b: Name)
    requires Valid(c) && Ready(c, k) && Home(c, k) && Finished(c, k, k3, k4, parked) && b in c.bridge.at
    ensures BridgeRealized(c, k4, b)
  {
    FinishedIface(c, k, k3, k4, parked, b);
    SameIface(k4, k3, b);
    forall x | Claims(c, b, x) ensures At(k4, x) == At(k3, x) {
      assert Claimed(c, x);
      HomeIsSafe(c, k, x);
      FinishedIface(c, k, k3, k4, parked, x);
    }
    BridgeDoneFrame(c, b, k3, k4);
    forall m | InBridge(k4, b, m) ensures Claims(c, b, m) {
      FinishedMaster(c, k, k3, k4, parked, m);
    }
  }

  lemma FinishedRest(c: Config, k: Kernel, k3: Kernel, k4: Kernel, parked: set<Name>, x: Name)
    requires Valid(c) && Ready(c, k) && Home(c, k) && Finished(c, k, k3, k4, parked)
    ensures x in k4.anchors ==> Policied(c, x)
    ensures IsOwned(k4, x) ==> x in c.bridge.at || x in parked || (Claimed(c, x) && !IsBridge(k4, x))
    ensures x in parked ==> Parked(c, k4, x)
  {
    FinishedIface(c, k, k3, k4, parked, x);
    if x in parked {
      assert !Claimed(c, x) by {
        if Claimed(c, x) { HomeIsSafe(c, k, x); }
      }
      ParkedStays(c, k, k3, k4, parked, x);
    }
  }

  lemma ParkedStays(c: Config, k: Kernel, k3: Kernel, k4: Kernel, parked: set<Name>, x: Name)
    requires Valid(c) && Ready(c, k) && Finished(c, k, k3, k4, parked) && x in parked && !Claimed(c, x)
    ensures Parked(c, k4, x)
  {
    assert x !in c.bridge.at;
    assert x in k3.ifs && k3.ifs[x] == k.ifs[x];
    assert !Policied(c, x) by {
      if Policied(c, x) {
        var b :| b in c.bridge.at && x in c.bridge.at[b].member.at
                 && (c.bridge.at[b].member.at[x].filter != "" || c.bridge.at[b].member.at[x].bind.Some?);
        assert Claims(c, b, x);
      }
    }
    if x in k4.master {
      FinishedMaster(c, k, k3, k4, parked, x);
      assert !Claims(c, k4.master[x], x);
    }
    forall m ensures !InBridge(k4, x, m) {
      if InBridge(k4, x, m) {
        FinishedMaster(c, k, k3, k4, parked, m);
      }
    }
  }

  lemma FinishedRealizes(c: Config, k: Kernel, k3: Kernel, k4: Kernel, parked: set<Name>)
    requires Valid(c) && Ready(c, k) && Home(c, k) && Finished(c, k, k3, k4, parked)
    ensures RealizedBut(c, k4, parked)
  {
    FinishedReady(c, k, k3, k4, parked);
    forall b | b in c.bridge.at ensures BridgeRealized(c, k4, b) {
      FinishedBridge(c, k, k3, k4, parked, b);
    }
    forall x
      ensures x in k4.anchors ==> Policied(c, x)
      ensures IsOwned(k4, x) ==> x in c.bridge.at || x in parked || (Claimed(c, x) && !IsBridge(k4, x))
      ensures x in parked ==> Parked(c, k4, x)
    {
      FinishedRest(c, k, k3, k4, parked, x);
    }
  }

  // ------------------------------------------------------------- whole passes

  lemma RunPass(c: Config, k: Kernel, v: KernelInterfaces, pf: PfState) returns (k3: Kernel)
    requires Situation(c, k, v, pf) && Ready(c, k)
    ensures var ops := PlannedPhases(c, v, Some(pf)).Ops();
            Executable(ops, k) && Finished(c, k, k3, Apply(ops, k), {})
  {
    var p := PlannedPhases(c, v, Some(pf));
    RunUpToAdds(c, k, v, pf);
    k3 := Apply(p.creates + p.removes + p.adds, k);
    DestroysAre(c, k, v, pf);
    assert Destructions(c, k, p.destroys, {});
    RunDestroysPhase(c, k, k3, p.destroys, {});
    ApplyConcat(p.creates + p.removes + p.adds, p.destroys, k);
  }

  /** The kernel accepts every op of a plan in turn. */
  lemma PlanIsExecutable(c: Config, k: Kernel, v: KernelInterfaces, pf: PfState)
    requires Situation(c, k, v, pf) && Ready(c, k)
    ensures Executable(PlannedPhases(c, v, Some(pf)).Ops(), k)
  {
    var k3 := RunPass(c, k, v, pf);
  }

  /** One fault-free pass realizes the document when every claimed owned interface is at home. */
  lemma OnePassConverges(c: Config, k: Kernel, v: KernelInterfaces, pf: PfState)
    requires Situation(c, k, v, pf) && Ready(c, k) && Home(c, k)
    ensures Executable(PlannedPhases(c, v, Some(pf)).Ops(), k)
    ensures var k' := Apply(PlannedPhases(c, v, Some(pf)).Ops(), k);
            Realized(c, k') && Ready(c, k') && Home(c, k')
  {
    var k3 := RunPass(c, k, v, pf);
    FinishedRealizes(c, k, k3, Apply(PlannedPhases(c, v, Some(pf)).Ops(), k), {});
    FinishedReady(c, k, k3, Apply(PlannedPhases(c, v, Some(pf)).Ops(), k), {});
  }

  /** From anywhere, one fault-free pass puts every claimed owned interface at home. */
  lemma OnePassRehomes(c: Config, k: Kernel, v: KernelInterfaces, pf: PfState)
    requires Situation(c, k, v, pf) && Ready(c, k)
    ensures Executable(PlannedPhases(c, v, Some(pf)).Ops(), k)
    ensures var k' := Apply(PlannedPhases(c, v, Some(pf)).Ops(), k);
            Ready(c, k') && Home(c, k')
  {
    var k3 := RunPass(c, k, v, pf);
    FinishedReady(c, k, k3, Apply(PlannedPhases(c, v, Some(pf)).Ops(), k), {});
  }

  /** Two passes realize the document from anywhere. */
  lemma TwoPassesConverge(c: Config, k: Kernel, v: KernelInterfaces, pf: PfState, v': KernelInterfaces, pf': PfState)
    requires Situation(c, k, v, pf) && Ready(c, k)
    requires Executable(PlannedPhases(c, v, Some(pf)).Ops(), k)
    requires var k' := Apply(PlannedPhases(c, v, Some(pf)).Ops(), k);
             Reads(k', c, v') && ReadsPf(k', pf')
    ensures var k' := Apply(PlannedPhases(c, v, Some(pf)).Ops(), k);
            var ops := PlannedPhases(c, v', Some(pf')).Ops();
            Executable(ops, k') && Realized(c, Apply(ops, k'))
  {
    var k' := Apply(PlannedPhases(c, v, Some(pf)).Ops(), k);
    OnePassRehomes(c, k, v, pf);
    OnePassConverges(c, k', v', pf');
  }
}
