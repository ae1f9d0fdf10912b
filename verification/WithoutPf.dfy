/** Plans made without a reading of the anchors: an anchor is loaded only where its interface is attached. */
module WithoutPf {
  import opened Collections
  import opened Model
  import opened Pf
  import opened Ops
  import opened View
  import opened Planner

  const NOTHING_LOADED: PfState := map[]

  predicate InPlace(v: KernelInterfaces, b: Name, x: Name) {
    v.Has(x) && x in v.MembersOf(b)
  }

  /** The load of an interface that bridge b wants and the plan attaches. */
  ghost predicate LoadsOnAttach(c: Config, v: KernelInterfaces, op: Op, b: Name)
    requires Resolved(c)
  {
    && op.LoadAnchor? && b in c.bridge.at && op.ifname in c.bridge.at[b].member.at && !InPlace(v, b, op.ifname)
    && var m := c.bridge.at[b].member.at[op.ifname];
       (v.Has(op.ifname) || m.typed) && HasPolicy(c, m) && op == LoadAnchor(op.ifname, m.filter, WantedRules(c, m), MemberTables(c, m))
  }

  lemma NoDrift(c: Config, x: Name, m: Member)
    requires Resolved(c)
    ensures TableOps(c, x, m, None) == [] && TableOps(c, x, m, Some(NOTHING_LOADED)) == []
    ensures LoadOps(c, x, m, None) == LoadOps(c, x, m, Some(NOTHING_LOADED))
  {
  }

  lemma MemberWithout(c: Config, v: KernelInterfaces, b: Name, x: Name, op: Op)
    requires Resolved(c) && b in c.bridge.at && x in c.bridge.at[b].member.at
    ensures var m := c.bridge.at[b].member.at[x];
            op in MemberAdds(c, v, None, b, x, m) <==>
              if op.LoadAnchor? then LoadsOnAttach(c, v, op, b) && op.ifname == x
              else op in MemberAdds(c, v, Some(NOTHING_LOADED), b, x, m)
  {
    hide Resolved, WantedRules, MemberTables, AnchorCurrent, HasPolicy, TableDrift;
    NoDrift(c, x, c.bridge.at[b].member.at[x]);
  }

  /** The op is added for bridge b, as a member's or its uplink's. */
  ghost predicate AddedFor(c: Config, v: KernelInterfaces, pf: Option<PfState>, op: Op, b: Name)
    requires Valid(c) && b in c.bridge.at
  {
    || (exists x :: x in c.bridge.at[b].member.at && op in MemberAdds(c, v, pf, b, x, c.bridge.at[b].member.at[x]))
    || op in UplinkAdds(c, v, b, c.bridge.at[b])
  }

  lemma {:induction false} MembersHave(c: Config, v: KernelInterfaces, pf: Option<PfState>, b: Name, members: Dict<Member>, j: nat, op: Op)
    requires Resolved(c) && members.Valid() && j <= |members.keys|
    ensures op in MembersAdds(c, v, pf, b, members, j) <==>
              exists i: nat :: i < j && op in MemberAdds(c, v, pf, b, members.keys[i], members.at[members.keys[i]])
  {
    hide Resolved, MemberAdds;
    if j > 0 {
      MembersHave(c, v, pf, b, members, j - 1, op);
    }
  }

  lemma BridgeHas(c: Config, v: KernelInterfaces, pf: Option<PfState>, b: Name, op: Op)
    requires Valid(c) && b in c.bridge.at
    ensures op in BridgeAdds(c, v, pf, b) <==> AddedFor(c, v, pf, op, b)
  {
    var members := c.bridge.at[b].member;
    MembersHave(c, v, pf, b, members, |members.keys|, op);
    hide Resolved, MemberAdds, UplinkAdds, MembersAdds;
    if x :| x in members.at && op in MemberAdds(c, v, pf, b, x, members.at[x]) {
      assert x in members.keys;
      var i: nat :| i < |members.keys| && members.keys[i] == x;
    }
    if i: nat :| i < |members.keys| && op in MemberAdds(c, v, pf, b, members.keys[i], members.at[members.keys[i]]) {
      assert members.keys[i] in members.keys;
    }
  }

  lemma {:induction false} AddsHave(c: Config, v: KernelInterfaces, pf: Option<PfState>, n: nat, op: Op)
    requires Valid(c) && n <= |c.bridge.keys|
    ensures op in Adds(c, v, pf, n) <==> exists i: nat :: i < n && c.bridge.keys[i] in c.bridge.at && AddedFor(c, v, pf, op, c.bridge.keys[i])
  {
    hide AddedFor, BridgeAdds, Resolved;
    if n > 0 {
      AddsHave(c, v, pf, n - 1, op);
      assert c.bridge.keys[n - 1] in c.bridge.keys;
      BridgeHas(c, v, pf, c.bridge.keys[n - 1], op);
    }
  }

  lemma AddedWithout(c: Config, v: KernelInterfaces, op: Op, b: Name)
    requires Valid(c) && b in c.bridge.at
    ensures AddedFor(c, v, None, op, b) <==> if op.LoadAnchor? then LoadsOnAttach(c, v, op, b) else AddedFor(c, v, Some(NOTHING_LOADED), op, b)
  {
    hide Resolved, MemberAdds, LoadsOnAttach;
    forall x | x in c.bridge.at[b].member.at
      ensures op in MemberAdds(c, v, None, b, x, c.bridge.at[b].member.at[x]) <==>
                if op.LoadAnchor? then LoadsOnAttach(c, v, op, b) && op.ifname == x
                else op in MemberAdds(c, v, Some(NOTHING_LOADED), b, x, c.bridge.at[b].member.at[x])
    {
      MemberWithout(c, v, b, x, op);
    }
    LoadsAreMembers(c, v, op, b);
  }

  lemma LoadsAreMembers(c: Config, v: KernelInterfaces, op: Op, b: Name)
    requires Valid(c) && b in c.bridge.at
    ensures LoadsOnAttach(c, v, op, b) ==> op.LoadAnchor? && op.ifname in c.bridge.at[b].member.at
    ensures op in UplinkAdds(c, v, b, c.bridge.at[b]) ==> op.AddMember?
  {
  }

  lemma {:induction false} GcWithout(items: seq<GcItem>)
    ensures Gc(None, items) == Gc(Some(NOTHING_LOADED), items)
  {
    if items != [] {
      GcWithout(items[..|items| - 1]);
    }
  }

  lemma AddsWithout(c: Config, v: KernelInterfaces, op: Op)
    requires Valid(c)
    ensures var n := |c.bridge.keys|;
            op in Adds(c, v, None, n) <==>
              if op.LoadAnchor? then exists b :: LoadsOnAttach(c, v, op, b) else op in Adds(c, v, Some(NOTHING_LOADED), n)
  {
    hide Resolved, AddedFor, LoadsOnAttach, Adds;
    AddsHave(c, v, None, |c.bridge.keys|, op);
    AddsHave(c, v, Some(NOTHING_LOADED), |c.bridge.keys|, op);
    forall b | b in c.bridge.at
      ensures AddedFor(c, v, None, op, b) <==> if op.LoadAnchor? then LoadsOnAttach(c, v, op, b) else AddedFor(c, v, Some(NOTHING_LOADED), op, b)
      ensures exists i: nat :: i < |c.bridge.keys| && c.bridge.keys[i] == b
    {
      AddedWithout(c, v, op, b);
      assert b in c.bridge.keys;
    }
    LoadsAreOfBridges(c, v, op);
  }

  /** Without a reading of the anchors a plan is the one for no anchors, but that a member in place is
      not loaded. */
  lemma PlannedWithoutPf(c: Config, v: KernelInterfaces, op: Op)
    requires Valid(c)
    ensures var p, q := PlannedPhases(c, v, None), PlannedPhases(c, v, Some(NOTHING_LOADED));
            && p.creates == q.creates && p.removes == q.removes && p.destroys == q.destroys && p.notes == q.notes
            && (op in p.adds <==> if op.LoadAnchor? then exists b :: LoadsOnAttach(c, v, op, b) else op in q.adds)
    ensures Planned(c, v, None).Err? <==> Planned(c, v, Some(NOTHING_LOADED)).Err?
  {
    GcWithout(GcItems(c, v));
    NothingStale(c, v);
    AddsWithout(c, v, op);
    hide Gc, GcItems, StaleAnchors, Resolved, LoadsOnAttach, FirstError, MemberRemoves, Creates, Notes, Adds;
  }

  lemma NothingStale(c: Config, v: KernelInterfaces)
    requires Valid(c)
    ensures StaleAnchors(c, v, Some(NOTHING_LOADED)) == [] && StaleAnchors(c, v, None) == []
  {
    NoElements(Sorted(NOTHING_LOADED.Keys));
  }

  lemma LoadsAreOfBridges(c: Config, v: KernelInterfaces, op: Op)
    requires Valid(c)
    ensures forall b :: LoadsOnAttach(c, v, op, b) ==> b in c.bridge.at
  {
  }
}
