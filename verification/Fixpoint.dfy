/**
 When a plan is empty, and what is planned after a pass whose destroys were held up.
 No hypothesis on the names of the document is needed here.
 */
module Fixpoint {
  import opened Collections
  import opened Model
  import opened Pf
  import opened Ops
  import opened KernelModel
  import opened View
  import opened Planner
  import opened Reading
  import opened PlanShape
  import opened PlanContents
  import opened AddsPhase
  import opened Realization

  /** The kernel and what a pass reads of it. */
  ghost predicate Observed(c: Config, k: Kernel, v: KernelInterfaces, pf: PfState) {
    Valid(c) && WellFormed(k) && Reads(k, c, v) && ReadsPf(k, pf)
  }

  // ------------------------------------------------------------ planner errors

  lemma {:induction false} MembersErrorIs(v: KernelInterfaces, members: Dict<Member>, j: nat)
    requires members.Valid() && j <= |members.keys|
    ensures MembersError(v, members, j).None? <==>
              forall i :: 0 <= i < j ==> (members.at[members.keys[i]].typed && v.Has(members.keys[i]) ==> v.HasOwned(members.keys[i]))
  {
    if j > 0 {
      MembersErrorIs(v, members, j - 1);
    }
  }

  ghost predicate BridgeNoConflict(c: Config, k: Kernel, b: Name)
    requires Resolved(c) && b in c.bridge.at
  {
    && !UplinkTooLong(c, c.bridge.at[b])
    && (b in k.ifs ==> k.ifs[b].isBridge && k.ifs[b].owned)
    && (forall m :: m in c.bridge.at[b].member.at ==> c.bridge.at[b].member.at[m].typed && m in k.ifs ==> k.ifs[m].owned)
  }

  lemma BridgeErrorIs(c: Config, k: Kernel, v: KernelInterfaces, pf: PfState, b: Name)
    requires Observed(c, k, v, pf) && b in c.bridge.at
    ensures BridgeError(c, v, b).None? <==> BridgeNoConflict(c, k, b)
  {
    var members := c.bridge.at[b].member;
    MembersErrorIs(v, members, |members.keys|);
    assert v.Has(b) <==> b in k.ifs;
    forall m | m in members.at ensures v.Has(m) <==> m in k.ifs {
      assert Claims(c, b, m);
    }
    if BridgeError(c, v, b).None? {
      forall m | m in members.at && members.at[m].typed && m in k.ifs ensures k.ifs[m].owned {
        var i := KeyIndex(members.keys, m);
        assert v.HasOwned(m);
      }
    }
    if BridgeNoConflict(c, k, b) {
      forall i | 0 <= i < |members.keys| && members.at[members.keys[i]].typed && v.Has(members.keys[i])
        ensures v.HasOwned(members.keys[i])
      {
        assert members.keys[i] in members.keys;
      }
    }
  }

  lemma {:induction false} FirstErrorIs(c: Config, v: KernelInterfaces, i: nat)
    requires Valid(c) && i <= |c.bridge.keys|
    ensures FirstError(c, v, i).None? <==> forall j :: 0 <= j < i ==> BridgeError(c, v, c.bridge.keys[j]).None?
  {
    hide BridgeError, Resolved;
    if i > 0 {
      FirstErrorIs(c, v, i - 1);
    }
  }

  /** The planner raises exactly when the kernel conflicts with the document. */
  lemma ErrorIffConflict(c: Config, k: Kernel, v: KernelInterfaces, pf: PfState)
    requires Observed(c, k, v, pf)
    ensures Planned(c, v, Some(pf)).Ok? <==> NoConflict(c, k)
  {
    FirstErrorIs(c, v, |c.bridge.keys|);
    if Planned(c, v, Some(pf)).Ok? {
      forall b | b in c.bridge.at ensures BridgeNoConflict(c, k, b) {
        var j := KeyIndex(c.bridge.keys, b);
        BridgeErrorIs(c, k, v, pf, b);
      }
      assert NoConflict(c, k) by {
        forall b, m | b in c.bridge.at && m in c.bridge.at[b].member.at && c.bridge.at[b].member.at[m].typed && m in k.ifs
          ensures k.ifs[m].owned
        {
          assert BridgeNoConflict(c, k, b);
        }
      }
    }
    if NoConflict(c, k) {
      forall j | 0 <= j < |c.bridge.keys| ensures BridgeError(c, v, c.bridge.keys[j]).None? {
        assert c.bridge.keys[j] in c.bridge.keys;
        assert BridgeNoConflict(c, k, c.bridge.keys[j]);
        BridgeErrorIs(c, k, v, pf, c.bridge.keys[j]);
      }
    }
  }

  // --------------------------------------------------------- one empty stanza

  lemma {:induction false} TableDriftEmpty(x: Name, names: seq<Name>, wanted: map<Name, set<Addr>>, s: AnchorState)
    requires forall i :: 0 <= i < |names| ==> names[i] in wanted
    ensures TableDrift(x, names, wanted, s) == [] <==> forall t :: t in names ==> KnownTable(s, t) == wanted[t]
  {
    if names != [] {
      TableDriftEmpty(x, names[..|names| - 1], wanted, s);
      assert names == names[..|names| - 1] + [names[|names| - 1]];
    }
  }

  lemma TableOpsEmpty(c: Config, k: Kernel, pf: PfState, x: Name, m: Member)
    requires Valid(c) && SameAnchor(k, pf, x)
    ensures TableOps(c, x, m, Some(pf)) == [] <==>
              (HasPolicy(c, m) && RulesOk(c, m, k, x) ==> TablesOk(c, m, k.anchors[x].tables))
  {
    if HasPolicy(c, m) && AnchorCurrent(c, m, pf, x) {
      var wanted := MemberTables(c, m);
      TableDriftEmpty(x, Sorted(wanted.Keys), wanted, pf[x]);
      assert forall t :: KnownTable(pf[x], t) == Lookup(k.anchors[x].tables, t);
    }
  }

  lemma AttachEmpty(c: Config, k: Kernel, v: KernelInterfaces, pf: PfState, b: Name, x: Name, m: Member)
    requires Valid(c) && WellFormed(k) && Seen(k, v, pf, b, x)
    ensures AttachOps(c, v, Some(pf), b, x, m) == [] <==>
              && (m.typed ==> x in k.ifs)
              && (x in k.ifs ==> InBridge(k, b, x))
              && (HasPolicy(c, m) && x in k.ifs ==> RulesOk(c, m, k, x))
  {
  }

  lemma LockEmpty(k: Kernel, v: KernelInterfaces, pf: PfState, b: Name, x: Name, m: Member)
    requires Seen(k, v, pf, b, x)
    ensures LockOps(v, b, x, m) == [] <==> (m.bind.Some? ==> InBridge(k, b, x) && Get(k.lock, x) == Some(m.bind.value.mac))
  {
  }

  /** A member plans nothing exactly when it is done. */
  lemma MemberEmpty(c: Config, k: Kernel, v: KernelInterfaces, pf: PfState, b: Name, x: Name, m: Member)
    requires Valid(c) && WellFormed(k) && Seen(k, v, pf, b, x)
    ensures MemberAdds(c, v, Some(pf), b, x, m) == [] <==> MemberDone(c, b, x, m, k)
  {
    AttachEmpty(c, k, v, pf, b, x, m);
    TableOpsEmpty(c, k, pf, x, m);
    LockEmpty(k, v, pf, b, x, m);
  }

  ghost predicate Quiet(c: Config, v: KernelInterfaces, pf: PfState, b: Name, members: Dict<Member>, x: Name)
    requires Resolved(c)
  {
    x in members.at ==> MemberAdds(c, v, Some(pf), b, x, members.at[x]) == []
  }

  lemma LastMemberAdds(c: Config, v: KernelInterfaces, pf: PfState, b: Name, members: Dict<Member>, j: nat)
    requires Resolved(c) && members.Valid() && 0 < j <= |members.keys|
    ensures MembersAdds(c, v, Some(pf), b, members, j) == [] <==>
              MembersAdds(c, v, Some(pf), b, members, j - 1) == [] && Quiet(c, v, pf, b, members, members.keys[j - 1])
  {
    var x := members.keys[j - 1];
    assert x in members.keys;
    ConcatEmpty(MembersAdds(c, v, Some(pf), b, members, j - 1), MemberAdds(c, v, Some(pf), b, x, members.at[x]));
  }

  lemma {:induction false} QuietMembers(c: Config, v: KernelInterfaces, pf: PfState, b: Name, members: Dict<Member>, j: nat, i: nat)
    requires Resolved(c) && members.Valid() && i < j <= |members.keys|
    requires MembersAdds(c, v, Some(pf), b, members, j) == []
    ensures Quiet(c, v, pf, b, members, members.keys[i])
  {
    LastMemberAdds(c, v, pf, b, members, j);
    if i < j - 1 {
      QuietMembers(c, v, pf, b, members, j - 1, i);
    }
  }

  lemma {:induction false} MembersQuiet(c: Config, v: KernelInterfaces, pf: PfState, b: Name, members: Dict<Member>, j: nat)
    requires Resolved(c) && members.Valid() && j <= |members.keys|
    requires forall i :: 0 <= i < j ==> Quiet(c, v, pf, b, members, members.keys[i])
    ensures MembersAdds(c, v, Some(pf), b, members, j) == []
  {
    hide MemberAdds, Resolved;
    if j > 0 {
      MembersQuiet(c, v, pf, b, members, j - 1);
      LastMemberAdds(c, v, pf, b, members, j);
    }
  }

  /** The members of a stanza plan nothing exactly when each of them does. */
  lemma MembersEmpty(c: Config, v: KernelInterfaces, pf: PfState, b: Name, members: Dict<Member>)
    requires Resolved(c) && members.Valid()
    ensures MembersAdds(c, v, Some(pf), b, members, |members.keys|) == [] <==>
              forall x :: x in members.at ==> MemberAdds(c, v, Some(pf), b, x, members.at[x]) == []
  {
    if MembersAdds(c, v, Some(pf), b, members, |members.keys|) == [] {
      forall x | x in members.at ensures MemberAdds(c, v, Some(pf), b, x, members.at[x]) == [] {
        var i := KeyIndex(members.keys, x);
        QuietMembers(c, v, pf, b, members, |members.keys|, i);
      }
    }
    if forall x :: x in members.at ==> MemberAdds(c, v, Some(pf), b, x, members.at[x]) == [] {
      forall i | 0 <= i < |members.keys| ensures Quiet(c, v, pf, b, members, members.keys[i]) {
        assert members.keys[i] in members.keys;
      }
      MembersQuiet(c, v, pf, b, members, |members.keys|);
    }
  }

  lemma ConcatEmpty(a: seq<Op>, b: seq<Op>)
    ensures a + b == [] <==> a == [] && b == []
  {
  }

  /** Situation without the absence of conflicts. */
  lemma ObservedSeen(c: Config, k: Kernel, v: KernelInterfaces, pf: PfState, b: Name, x: Name)
    requires Observed(c, k, v, pf) && Claims(c, b, x) && BridgeNoConflict(c, k, b)
    ensures Seen(k, v, pf, b, x)
  {
    assert Claimed(c, x);
    assert v.Has(x) <==> x in k.ifs;
    assert v.Has(b) <==> b in k.ifs;
    if v.Has(b) {
      assert v.interfaces.at[b].isBridge;
    }
  }

  lemma BridgeAddsEmpty(c: Config, k: Kernel, v: KernelInterfaces, pf: PfState, b: Name)
    requires Observed(c, k, v, pf) && b in c.bridge.at && BridgeNoConflict(c, k, b)
    ensures BridgeAdds(c, v, Some(pf), b) == [] <==> BridgeDone(c, b, k)
  {
    var bridge := c.bridge.at[b];
    var members := bridge.member;
    MembersEmpty(c, v, pf, b, members);
    forall x | Claims(c, b, x) ensures Seen(k, v, pf, b, x) {
      ObservedSeen(c, k, v, pf, b, x);
    }
    assert MembersAdds(c, v, Some(pf), b, members, |members.keys|) == [] <==>
           forall x :: x in members.at ==> MemberDone(c, b, x, members.at[x], k) by {
      forall x | x in members.at
        ensures MemberAdds(c, v, Some(pf), b, x, members.at[x]) == [] <==> MemberDone(c, b, x, members.at[x], k)
      {
        assert Claims(c, b, x);
        MemberEmpty(c, k, v, pf, b, x, members.at[x]);
      }
    }
    UplinkEmpty(c, k, v, pf, b);
  }

  lemma UplinkEmpty(c: Config, k: Kernel, v: KernelInterfaces, pf: PfState, b: Name)
    requires Observed(c, k, v, pf) && b in c.bridge.at && BridgeNoConflict(c, k, b)
    ensures UplinkAdds(c, v, b, c.bridge.at[b]) == [] <==> UplinkDone(c, b, k)
  {
    var names := UplinkNames(c, c.bridge.at[b]);
    if names != [] {
      assert names[0] in names;
      assert Claims(c, b, names[0]);
      ObservedSeen(c, k, v, pf, b, names[0]);
    }
  }

  /** A stanza's creates are empty exactly when its bridge is there, sized, and its vlan exists. */
  lemma BridgeCreatesEmpty(c: Config, k: Kernel, v: KernelInterfaces, pf: PfState, b: Name)
    requires Observed(c, k, v, pf) && b in c.bridge.at
    ensures BridgeCreates(c, v, b) == [] <==>
              && b in k.ifs
              && (k.ifs[b].maxaddr.Some? ==> k.ifs[b].maxaddr.value == c.bridge.at[b].maxAddresses)
              && (Manufactured(c.bridge.at[b]) ==> UplinkNames(c, c.bridge.at[b])[0] in k.ifs)
  {
    assert v.Has(b) <==> b in k.ifs;
    if Manufactured(c.bridge.at[b]) {
      var x := UplinkNames(c, c.bridge.at[b])[0];
      assert Claims(c, b, x);
      assert Claimed(c, x);
      assert v.Has(x) <==> x in k.ifs;
    }
  }

  // ------------------------------------------------------------- whole phases

  ghost predicate BridgeCreated(c: Config, k: Kernel, b: Name)
    requires Resolved(c) && b in c.bridge.at
  {
    && b in k.ifs
    && (k.ifs[b].maxaddr.Some? ==> k.ifs[b].maxaddr.value == c.bridge.at[b].maxAddresses)
    && (Manufactured(c.bridge.at[b]) ==> UplinkNames(c, c.bridge.at[b])[0] in k.ifs)
  }

  lemma {:induction false} CreatesEmptyUpTo(c: Config, v: KernelInterfaces, i: nat)
    requires Valid(c) && i <= |c.bridge.keys|
    ensures Creates(c, v, i) == [] <==> forall j :: 0 <= j < i ==> BridgeCreates(c, v, c.bridge.keys[j]) == []
  {
    hide BridgeCreates, Resolved;
    if i > 0 {
      CreatesEmptyUpTo(c, v, i - 1);
      assert c.bridge.keys[i - 1] in c.bridge.keys;
      ConcatEmpty(Creates(c, v, i - 1), BridgeCreates(c, v, c.bridge.keys[i - 1]));
    }
  }

  lemma CreatesEmpty(c: Config, k: Kernel, v: KernelInterfaces, pf: PfState)
    requires Observed(c, k, v, pf)
    ensures Creates(c, v, |c.bridge.keys|) == [] <==> forall b :: b in c.bridge.at ==> BridgeCreated(c, k, b)
  {
    CreatesEmptyUpTo(c, v, |c.bridge.keys|);
    forall b | b in c.bridge.at ensures BridgeCreates(c, v, b) == [] <==> BridgeCreated(c, k, b) {
      BridgeCreatesEmpty(c, k, v, pf, b);
    }
    if Creates(c, v, |c.bridge.keys|) == [] {
      forall b | b in c.bridge.at ensures BridgeCreated(c, k, b) {
        var j := KeyIndex(c.bridge.keys, b);
        assert BridgeCreates(c, v, c.bridge.keys[j]) == [];
      }
    }
    if forall b :: b in c.bridge.at ==> BridgeCreated(c, k, b) {
      forall j | 0 <= j < |c.bridge.keys| ensures BridgeCreates(c, v, c.bridge.keys[j]) == [] {
        assert c.bridge.keys[j] in c.bridge.keys;
        assert BridgeCreated(c, k, c.bridge.keys[j]);
      }
    }
  }

  ghost predicate BridgeQuiet(c: Config, v: KernelInterfaces, pf: PfState, b: Name)
    requires Valid(c)
  {
    b in c.bridge.at ==> BridgeAdds(c, v, Some(pf), b) == []
  }

  lemma LastBridgeAdds(c: Config, v: KernelInterfaces, pf: PfState, i: nat)
    requires Valid(c) && 0 < i <= |c.bridge.keys|
    ensures Adds(c, v, Some(pf), i) == [] <==>
              Adds(c, v, Some(pf), i - 1) == [] && BridgeQuiet(c, v, pf, c.bridge.keys[i - 1])
  {
    assert c.bridge.keys[i - 1] in c.bridge.keys;
    ConcatEmpty(Adds(c, v, Some(pf), i - 1), BridgeAdds(c, v, Some(pf), c.bridge.keys[i - 1]));
  }

  /** A list built step by step is empty exactly when every step adds nothing. */
  lemma {:induction false} AllSteps(n: nat, i: nat, empty: nat -> bool, quiet: nat -> bool)
    requires i <= n && empty(0)
    requires forall j :: 0 <= j < n ==> (empty(j + 1) <==> empty(j) && quiet(j))
    ensures empty(i) <==> forall j :: 0 <= j < i ==> quiet(j)
  {
    if i > 0 {
      AllSteps(n, i - 1, empty, quiet);
      assert empty(i) <==> empty(i - 1) && quiet(i - 1) by {
        assert i - 1 + 1 == i;
      }
    }
  }

  lemma AddsEmptyAt(c: Config, v: KernelInterfaces, pf: PfState)
    requires Valid(c)
    ensures Adds(c, v, Some(pf), |c.bridge.keys|) == [] <==> forall b :: b in c.bridge.at ==> BridgeAdds(c, v, Some(pf), b) == []
  {
    hide BridgeAdds, Resolved;
    var n := |c.bridge.keys|;
    var empty := (i: nat) => i <= n && Adds(c, v, Some(pf), i) == [];
    var quiet := (j: nat) => j < n && BridgeQuiet(c, v, pf, c.bridge.keys[j]);
    forall j | 0 <= j < n ensures empty(j + 1) <==> empty(j) && quiet(j) {
      LastBridgeAdds(c, v, pf, j + 1);
    }
    AllSteps(n, n, empty, quiet);
    if Adds(c, v, Some(pf), n) == [] {
      forall b | b in c.bridge.at ensures BridgeAdds(c, v, Some(pf), b) == [] {
        var j := KeyIndex(c.bridge.keys, b);
        assert quiet(j);
      }
    }
    if forall b :: b in c.bridge.at ==> BridgeAdds(c, v, Some(pf), b) == [] {
      forall j | 0 <= j < n ensures quiet(j) {
        assert c.bridge.keys[j] in c.bridge.keys;
      }
    }
  }

  lemma AddsEmpty(c: Config, k: Kernel, v: KernelInterfaces, pf: PfState)
    requires Situation(c, k, v, pf)
    ensures Adds(c, v, Some(pf), |c.bridge.keys|) == [] <==> forall b :: b in c.bridge.at ==> BridgeDone(c, b, k)
  {
    forall b | b in c.bridge.at ensures BridgeAdds(c, v, Some(pf), b) == [] <==> BridgeDone(c, b, k) {
      assert BridgeNoConflict(c, k, b);
      BridgeAddsEmpty(c, k, v, pf, b);
    }
    AddsEmptyAt(c, v, pf);
  }

  // -------------------------------------------------------------- the results

  /** The destroy of a parked name, of the kind its interface needs. */
  predicate Redestroys(k: Kernel, parked: set<Name>, op: Op) {
    IsDestroy(op) && op.name in parked && (op.DestroyBridge? <==> IsBridge(k, op.name))
  }

  lemma NothingToClear(c: Config, k: Kernel, parked: set<Name>)
    requires Valid(c) && WellFormed(k) && RealizedBut(c, k, parked)
    ensures forall op :: !IsRemove(c, k, op)
    ensures forall op :: IsDestruction(c, k, op) <==> Redestroys(k, parked, op)
  {
    forall x | x in parked ensures x !in c.bridge.at && IsOwned(k, x) && !Claimed(c, x) && x !in k.anchors && !Evictee(c, k, x) {
      assert Parked(c, k, x);
    }
    forall b, m | b in parked ensures !InBridge(k, b, m) {
      assert Parked(c, k, b);
    }
    forall b, x ensures !Leaves(c, k, b, x) {
      if b in c.bridge.at {
        assert BridgeRealized(c, k, b);
      }
    }
    assert forall x :: Condemned(c, k, x) <==> x in parked && !IsBridge(k, x);
    assert forall x :: DoomedBridge(c, k, x) <==> x in parked && IsBridge(k, x);
  }

  /** After a pass whose destroys were held up, the next plan is exactly those destroys. */
  lemma NextPlanIsTheParked(c: Config, k: Kernel, v: KernelInterfaces, pf: PfState, parked: set<Name>)
    requires Observed(c, k, v, pf) && RealizedBut(c, k, parked)
    ensures Planned(c, v, Some(pf)).Ok?
    ensures var ops := Planned(c, v, Some(pf)).value.Ops();
            NoDup(ops) && forall op :: op in ops <==> Redestroys(k, parked, op)
  {
    ErrorIffConflict(c, k, v, pf);
    var p := PlannedPhases(c, v, Some(pf));
    forall b | b in c.bridge.at ensures BridgeCreated(c, k, b) {
      assert BridgeRealized(c, k, b);
    }
    forall b | b in c.bridge.at ensures BridgeDone(c, b, k) {
      assert BridgeRealized(c, k, b);
    }
    CreatesEmpty(c, k, v, pf);
    AddsEmpty(c, k, v, pf);
    RemovesAre(c, k, v, pf);
    DestroysAre(c, k, v, pf);
    NothingToClear(c, k, parked);
    NoElements(p.removes);
    assert p.Ops() == p.destroys;
  }

  /** A plan is empty exactly when the kernel realizes the document. */
  lemma EmptyIffRealized(c: Config, k: Kernel, v: KernelInterfaces, pf: PfState)
    requires Observed(c, k, v, pf)
    ensures Planned(c, v, Some(pf)).Ok? && Planned(c, v, Some(pf)).value.Ops() == [] <==> Realized(c, k)
  {
    if Realized(c, k) {
      NextPlanIsTheParked(c, k, v, pf, {});
      NoElements(Planned(c, v, Some(pf)).value.Ops());
    }
    if Planned(c, v, Some(pf)).Ok? && Planned(c, v, Some(pf)).value.Ops() == [] {
      ErrorIffConflict(c, k, v, pf);
      EmptyRealizes(c, k, v, pf);
    }
  }

  lemma NothingLeftOver(c: Config, k: Kernel)
    requires Valid(c) && WellFormed(k)
    requires forall op :: !IsRemove(c, k, op) && !IsDestruction(c, k, op)
    ensures forall b, x :: !Leaves(c, k, b, x)
    ensures forall x :: x in k.anchors ==> Policied(c, x)
    ensures forall x :: IsOwned(k, x) ==> x in c.bridge.at || (Claimed(c, x) && !IsBridge(k, x))
  {
    forall b, x ensures !Leaves(c, k, b, x) {
      assert !IsRemove(c, k, RemoveMember(b, x));
    }
    forall x | x in k.anchors ensures Policied(c, x) {
      assert !IsRemove(c, k, FlushAnchor(x));
    }
    forall x | IsOwned(k, x) ensures x in c.bridge.at || (Claimed(c, x) && !IsBridge(k, x)) {
      assert !IsDestruction(c, k, DestroyIface(x));
      assert !IsDestruction(c, k, DestroyBridge(x));
    }
  }

  lemma EmptyRealizes(c: Config, k: Kernel, v: KernelInterfaces, pf: PfState)
    requires Situation(c, k, v, pf) && PlannedPhases(c, v, Some(pf)).Ops() == []
    ensures Realized(c, k)
  {
    var p := PlannedPhases(c, v, Some(pf));
    assert p.creates == [] && p.removes == [] && p.adds == [] && p.destroys == [];
    CreatesEmpty(c, k, v, pf);
    AddsEmpty(c, k, v, pf);
    RemovesAre(c, k, v, pf);
    DestroysAre(c, k, v, pf);
    forall op ensures !IsRemove(c, k, op) && !IsDestruction(c, k, op) {
      assert op !in p.removes && op !in p.destroys;
    }
    NothingLeftOver(c, k);
    forall b | b in c.bridge.at ensures BridgeRealized(c, k, b) {
      assert BridgeCreated(c, k, b) && BridgeDone(c, b, k);
      forall m | InBridge(k, b, m) ensures Claims(c, b, m) {
        assert !Leaves(c, k, b, m);
      }
    }
  }
}
