/**
 Planning on a partial reading of the kernel loses nothing: any two faithful readings of
 one kernel give the same error, or the same ops. Only the order of removes and destroys
 can differ, with the order in which the readings list bridges and members.
 */
module PartialView {
  import opened Collections
  import opened Model
  import opened Pf
  import opened Ops
  import opened KernelModel
  import opened View
  import opened Planner
  import opened Reading
  import opened PlanContents
  import opened AddsPhase
  import opened Fixpoint

  /** Two readings of one kernel. */
  ghost predicate TwoReadings(c: Config, k: Kernel, v: KernelInterfaces, pf: PfState, v': KernelInterfaces, pf': PfState) {
    Observed(c, k, v, pf) && Observed(c, k, v', pf')
  }

  lemma SameLookups(c: Config, k: Kernel, v: KernelInterfaces, pf: PfState, v': KernelInterfaces, pf': PfState, x: Name)
    requires TwoReadings(c, k, v, pf, v', pf') && (x in c.bridge.at || Claimed(c, x))
    ensures v.Has(x) <==> v'.Has(x)
    ensures v.Has(x) ==> v.interfaces.at[x].isBridge == v'.interfaces.at[x].isBridge
    ensures v.Has(x) ==> v.interfaces.at[x].maxaddr == v'.interfaces.at[x].maxaddr
    ensures v.HasOwned(x) <==> v'.HasOwned(x)
  {
    assert v.Has(x) <==> x in k.ifs;
    assert v'.Has(x) <==> x in k.ifs;
  }

  // ------------------------------------------------------------------- errors

  lemma {:induction false} SameMembersError(v: KernelInterfaces, v': KernelInterfaces, members: Dict<Member>, j: nat)
    requires j <= |members.keys| && forall x :: x in members.keys ==> x in members.at
    requires forall x :: x in members.keys ==> (v.Has(x) <==> v'.Has(x)) && (v.HasOwned(x) <==> v'.HasOwned(x))
    ensures MembersError(v, members, j) == MembersError(v', members, j)
  {
    if j > 0 {
      SameMembersError(v, v', members, j - 1);
      assert members.keys[j - 1] in members.keys;
    }
  }

  lemma {:induction false} SameError(c: Config, k: Kernel, v: KernelInterfaces, pf: PfState, v': KernelInterfaces, pf': PfState, i: nat)
    requires TwoReadings(c, k, v, pf, v', pf') && i <= |c.bridge.keys|
    ensures FirstError(c, v, i) == FirstError(c, v', i)
  {
    hide BridgeError, Resolved;
    if i > 0 {
      var b := c.bridge.keys[i - 1];
      assert b in c.bridge.keys;
      SameError(c, k, v, pf, v', pf', i - 1);
      SameBridgeError(c, k, v, pf, v', pf', b);
    }
  }

  lemma SameBridgeError(c: Config, k: Kernel, v: KernelInterfaces, pf: PfState, v': KernelInterfaces, pf': PfState, b: Name)
    requires TwoReadings(c, k, v, pf, v', pf') && b in c.bridge.at
    ensures BridgeError(c, v, b) == BridgeError(c, v', b)
  {
    SameLookups(c, k, v, pf, v', pf', b);
    var members := c.bridge.at[b].member;
    assert members.Valid();
    forall x | x in members.keys ensures (v.Has(x) <==> v'.Has(x)) && (v.HasOwned(x) <==> v'.HasOwned(x)) {
      assert Claims(c, b, x);
      SameLookups(c, k, v, pf, v', pf', x);
    }
    SameMembersError(v, v', members, |members.keys|);
    hide MembersError, TwoReadings, Resolved;
  }

  // ---------------------------------------------------------- creates and adds

  lemma {:induction false} SameCreates(c: Config, k: Kernel, v: KernelInterfaces, pf: PfState, v': KernelInterfaces, pf': PfState, i: nat)
    requires TwoReadings(c, k, v, pf, v', pf') && i <= |c.bridge.keys|
    ensures Creates(c, v, i) == Creates(c, v', i)
  {
    hide BridgeCreates, Resolved;
    if i > 0 {
      var b := c.bridge.keys[i - 1];
      assert b in c.bridge.keys;
      SameCreates(c, k, v, pf, v', pf', i - 1);
      SameBridgeCreates(c, k, v, pf, v', pf', b);
    }
  }

  lemma SameBridgeCreates(c: Config, k: Kernel, v: KernelInterfaces, pf: PfState, v': KernelInterfaces, pf': PfState, b: Name)
    requires TwoReadings(c, k, v, pf, v', pf') && b in c.bridge.at
    ensures BridgeCreates(c, v, b) == BridgeCreates(c, v', b)
  {
    SameLookups(c, k, v, pf, v', pf', b);
    if Manufactured(c.bridge.at[b]) {
      var x := UplinkNames(c, c.bridge.at[b])[0];
      assert Claims(c, b, x);
      SameLookups(c, k, v, pf, v', pf', x);
    }
  }

  lemma SameMember(c: Config, k: Kernel, v: KernelInterfaces, pf: PfState, v': KernelInterfaces, pf': PfState, b: Name, x: Name, m: Member)
    requires Valid(c) && Seen(k, v, pf, b, x) && Seen(k, v', pf', b, x)
    ensures MemberAdds(c, v, Some(pf), b, x, m) == MemberAdds(c, v', Some(pf'), b, x, m)
  {
    assert AnchorCurrent(c, m, pf, x) <==> AnchorCurrent(c, m, pf', x);
    assert LoadOps(c, x, m, Some(pf)) == LoadOps(c, x, m, Some(pf'));
    if HasPolicy(c, m) && AnchorCurrent(c, m, pf, x) {
      var wanted := MemberTables(c, m);
      SameDrift(x, Sorted(wanted.Keys), wanted, pf[x], pf'[x]);
    }
  }

  lemma {:induction false} SameDrift(x: Name, names: seq<Name>, wanted: map<Name, set<Addr>>, s: AnchorState, s': AnchorState)
    requires forall i :: 0 <= i < |names| ==> names[i] in wanted
    requires s.tables == s'.tables
    ensures TableDrift(x, names, wanted, s) == TableDrift(x, names, wanted, s')
  {
    if names != [] {
      SameDrift(x, names[..|names| - 1], wanted, s, s');
    }
  }

  lemma {:induction false} SameMembers(c: Config, k: Kernel, v: KernelInterfaces, pf: PfState, v': KernelInterfaces, pf': PfState, b: Name, j: nat)
    requires TwoReadings(c, k, v, pf, v', pf') && NoConflict(c, k)
    requires b in c.bridge.at && j <= |c.bridge.at[b].member.keys|
    ensures MembersAdds(c, v, Some(pf), b, c.bridge.at[b].member, j) == MembersAdds(c, v', Some(pf'), b, c.bridge.at[b].member, j)
  {
    hide MemberAdds, Resolved, NoConflict;
    if j > 0 {
      assert c.bridge.at[b].member.keys[j - 1] in c.bridge.at[b].member.keys;
      SameMembers(c, k, v, pf, v', pf', b, j - 1);
      SameMemberOf(c, k, v, pf, v', pf', b, c.bridge.at[b].member.keys[j - 1]);
    }
  }

  lemma SameMemberOf(c: Config, k: Kernel, v: KernelInterfaces, pf: PfState, v': KernelInterfaces, pf': PfState, b: Name, x: Name)
    requires TwoReadings(c, k, v, pf, v', pf') && NoConflict(c, k)
    requires b in c.bridge.at && x in c.bridge.at[b].member.at
    ensures MemberAdds(c, v, Some(pf), b, x, c.bridge.at[b].member.at[x]) == MemberAdds(c, v', Some(pf'), b, x, c.bridge.at[b].member.at[x])
  {
    assert Claims(c, b, x);
    ClaimedAreSeen(c, k, v, pf, b, x);
    ClaimedAreSeen(c, k, v', pf', b, x);
    SameMember(c, k, v, pf, v', pf', b, x, c.bridge.at[b].member.at[x]);
  }

  lemma SameUplinks(c: Config, k: Kernel, v: KernelInterfaces, pf: PfState, v': KernelInterfaces, pf': PfState, b: Name)
    requires TwoReadings(c, k, v, pf, v', pf') && NoConflict(c, k) && b in c.bridge.at
    ensures UplinkAdds(c, v, b, c.bridge.at[b]) == UplinkAdds(c, v', b, c.bridge.at[b])
  {
    var names := UplinkNames(c, c.bridge.at[b]);
    if names != [] {
      assert Claims(c, b, names[0]);
      ClaimedAreSeen(c, k, v, pf, b, names[0]);
      ClaimedAreSeen(c, k, v', pf', b, names[0]);
    }
  }

  lemma SameBridgeAdds(c: Config, k: Kernel, v: KernelInterfaces, pf: PfState, v': KernelInterfaces, pf': PfState, b: Name)
    requires TwoReadings(c, k, v, pf, v', pf') && NoConflict(c, k) && b in c.bridge.at
    ensures BridgeAdds(c, v, Some(pf), b) == BridgeAdds(c, v', Some(pf'), b)
  {
    SameMembers(c, k, v, pf, v', pf', b, |c.bridge.at[b].member.keys|);
    SameUplinks(c, k, v, pf, v', pf', b);
  }

  lemma {:induction false} SameAdds(c: Config, k: Kernel, v: KernelInterfaces, pf: PfState, v': KernelInterfaces, pf': PfState, i: nat)
    requires TwoReadings(c, k, v, pf, v', pf') && NoConflict(c, k) && i <= |c.bridge.keys|
    ensures Adds(c, v, Some(pf), i) == Adds(c, v', Some(pf'), i)
  {
    hide BridgeAdds, Resolved;
    if i > 0 {
      assert c.bridge.keys[i - 1] in c.bridge.keys;
      SameAdds(c, k, v, pf, v', pf', i - 1);
      SameBridgeAdds(c, k, v, pf, v', pf', c.bridge.keys[i - 1]);
    }
  }

  // ----------------------------------------------------------------- the result

  lemma SamePhases(c: Config, k: Kernel, v: KernelInterfaces, pf: PfState, v': KernelInterfaces, pf': PfState)
    requires TwoReadings(c, k, v, pf, v', pf') && NoConflict(c, k)
    ensures var p, p' := PlannedPhases(c, v, Some(pf)), PlannedPhases(c, v', Some(pf'));
            p.creates == p'.creates && p.adds == p'.adds
            && multiset(p.removes) == multiset(p'.removes) && multiset(p.destroys) == multiset(p'.destroys)
  {
    var p, p' := PlannedPhases(c, v, Some(pf)), PlannedPhases(c, v', Some(pf'));
    SameCreates(c, k, v, pf, v', pf', |c.bridge.keys|);
    SameAdds(c, k, v, pf, v', pf', |c.bridge.keys|);
    RemovesAre(c, k, v, pf);
    RemovesAre(c, k, v', pf');
    RemovesOnce(c, k, v, pf);
    RemovesOnce(c, k, v', pf');
    SameElementsSameMultiset(p.removes, p'.removes);
    DestroysAre(c, k, v, pf);
    DestroysAre(c, k, v', pf');
    SameElementsSameMultiset(p.destroys, p'.destroys);
  }

  /** Whatever part of the kernel a faithful reading shows, the outcome of planning is the same. */
  lemma PartialViewLosesNothing(c: Config, k: Kernel, v: KernelInterfaces, pf: PfState, v': KernelInterfaces, pf': PfState)
    requires TwoReadings(c, k, v, pf, v', pf')
    ensures var r, r' := Planned(c, v, Some(pf)), Planned(c, v', Some(pf'));
            && (r.Err? ==> r' == r)
            && (r.Ok? ==> r'.Ok? && multiset(r.value.Ops()) == multiset(r'.value.Ops()))
  {
    SameError(c, k, v, pf, v', pf', |c.bridge.keys|);
    if Planned(c, v, Some(pf)).Ok? {
      ErrorIffConflict(c, k, v, pf);
      SamePhases(c, k, v, pf, v', pf');
    }
  }
}
