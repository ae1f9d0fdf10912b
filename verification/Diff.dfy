/**
 The planner in the source's own form: one pass over the document and the view that
 appends to the lists of a `Plan`, proved to compute `Planner.Planned`.
 */
module Diffing {
  import opened Collections
  import opened Model
  import opened Pf
  import opened Ops
  import opened View
  import opened Planner
  import opened PlanShape

  /** A plan under construction; its ops are the phases so far, in order. */
  class Plan {
    var creates: seq<Op>
    var removes: seq<Op>
    var adds: seq<Op>
    var destroys: seq<Op>
    var notes: seq<Note>

    constructor ()
      ensures Lists() == Phases([], [], [], [], [])
    {
      creates, removes, adds, destroys, notes := [], [], [], [], [];
    }

    function Lists(): Phases
      reads this
    {
      Phases(creates, removes, adds, destroys, notes)
    }

    /** As `Gc` does with one more name: nothing for a name it has seen. */
    method DestroyOnce(pf: Option<PfState>, queued: set<Name>, name: Name) returns (queued': set<Name>)
      modifies this`destroys
      ensures GcState(queued', destroys) == GcStep(pf, GcIface(name), GcState(queued, old(destroys)))
    {
      queued' := queued;
      if name !in queued {
        queued' := queued' + {name};
        if pf.Some? && name in pf.value && pf.value[name].exists_ {
          destroys := destroys + [FlushAnchor(name)];
        }
        destroys := destroys + [DestroyIface(name)];
      }
    }
  }

  // --------------------------------------------------------------- pf plane

  /** `LoadOps` and `TableOps` of one member: at most one load, and no replaces beside it. */
  method PfOpsFor(c: Config, name: Name, m: Member, pf: Option<PfState>) returns (load: Option<Op>, tableOps: seq<Op>)
    requires Resolved(c)
    ensures LoadOps(c, name, m, pf) == if load.Some? then [load.value] else []
    ensures tableOps == TableOps(c, name, m, pf)
  {
    hide BindLines, FilterLines, Resolved;
    load, tableOps := None, [];
    var filt := FilterOf(c, m);
    if filt.None? && m.bind.None? {
      return;
    }
    var tables := MemberTables(c, m);
    var rules := Render(filt, m.bind);
    if pf.None? || name !in pf.value || !pf.value[name].exists_ || pf.value[name].hash != Some(rules) {
      load := Some(LoadAnchor(name, m.filter, rules, tables));
      return;
    }
    var names := SortNames(tables.Keys);
    tableOps := DriftOps(name, names, tables, pf.value[name]);
  }

  method DriftOps(name: Name, names: seq<Name>, tables: map<Name, set<Addr>>, s: AnchorState) returns (ops: seq<Op>)
    requires forall i :: 0 <= i < |names| ==> names[i] in tables
    ensures ops == TableDrift(name, names, tables, s)
  {
    ops := [];
    for i := 0 to |names|
      invariant ops == TableDrift(name, names[..i], tables, s)
    {
      assert names[..i + 1][..i] == names[..i];
      if tables[names[i]] != KnownTable(s, names[i]) {
        ops := ops + [ReplaceTable(name, names[i], tables[names[i]])];
      }
    }
    assert names[..|names|] == names;
  }

  // -------------------------------------------------------------- one member

  /** Makes a member present, policied and attached, as far as it is not. */
  method Attach(c: Config, v: KernelInterfaces, pf: Option<PfState>, bridge: Name, name: Name, m: Member, wantedLoad: Option<Op>, plan: Plan)
    requires Resolved(c)
    requires LoadOps(c, name, m, pf) == if wantedLoad.Some? then [wantedLoad.value] else []
    modifies plan`adds, plan`notes
    ensures plan.adds == old(plan.adds) + AttachOps(c, v, pf, bridge, name, m)
    ensures plan.notes == old(plan.notes) + MemberNotes(v, bridge, name, m)
  {
    ghost var loads := LoadOps(c, name, m, pf);
    var exists_, load := v.Has(name), wantedLoad;
    if m.typed {
      if !exists_ {
        plan.adds := plan.adds + [CreateTap(name, m.description)];
        if load.Some? {
          plan.adds := plan.adds + [load.value];
        }
        plan.adds := plan.adds + [AddMember(bridge, name)];
        load := None;
        assert plan.adds == old(plan.adds) + ([CreateTap(name, m.description)] + loads + [AddMember(bridge, name)]);
      } else if name !in v.MembersOf(bridge) {
        if load.Some? {
          plan.adds := plan.adds + [load.value];
          load := None;
        }
        plan.adds := plan.adds + [AddMember(bridge, name)];
        assert plan.adds == old(plan.adds) + (loads + [AddMember(bridge, name)]);
      }
    } else {
      if !exists_ {
        plan.notes := plan.notes + [AwaitingAttach(name, bridge)];
        load := None;
      } else if name !in v.MembersOf(bridge) {
        if load.Some? {
          plan.adds := plan.adds + [load.value];
          load := None;
        }
        plan.adds := plan.adds + [AddMember(bridge, name)];
        assert plan.adds == old(plan.adds) + (loads + [AddMember(bridge, name)]);
      }
    }
    // the member is in place, its anchor perhaps not
    if load.Some? && pf.Some? && exists_ {
      plan.adds := plan.adds + [load.value];
    }
  }

  lemma Append3(before: seq<Op>, a: seq<Op>, b: seq<Op>, d: seq<Op>)
    ensures before + a + b + d == before + (a + b + d)
  {
  }

  lemma Append2<T>(before: seq<T>, a: seq<T>, b: seq<T>)
    ensures before + a + b == before + (a + b)
  {
  }

  method DiffMember(c: Config, v: KernelInterfaces, pf: Option<PfState>, bridge: Name, name: Name, m: Member, plan: Plan)
      returns (error: Option<PlanError>)
    requires Resolved(c)
    modifies plan`adds, plan`notes
    ensures error == if m.typed && v.Has(name) && !v.HasOwned(name) then Some(ForeignMember(name)) else None
    ensures error.None? ==> plan.adds == old(plan.adds) + MemberAdds(c, v, pf, bridge, name, m)
    ensures error.None? ==> plan.notes == old(plan.notes) + MemberNotes(v, bridge, name, m)
  {
    if m.typed && v.Has(name) && !v.HasOwned(name) {
      return Some(ForeignMember(name));
    }
    error := None;
    var load, tableOps := PfOpsFor(c, name, m, pf);
    Append3(plan.adds, AttachOps(c, v, pf, bridge, name, m), tableOps, LockOps(v, bridge, name, m));
    Attach(c, v, pf, bridge, name, m, load, plan);
    plan.adds := plan.adds + tableOps;
    // mac lock after bind
    plan.adds := plan.adds + LockOps(v, bridge, name, m);
  }

  method DiffMembers(c: Config, v: KernelInterfaces, pf: Option<PfState>, bridge: Name, members: Dict<Member>, plan: Plan)
      returns (error: Option<PlanError>)
    requires Resolved(c) && members.Valid()
    modifies plan`adds, plan`notes
    ensures error == MembersError(v, members, |members.keys|)
    ensures error.None? ==> plan.adds == old(plan.adds) + MembersAdds(c, v, pf, bridge, members, |members.keys|)
    ensures error.None? ==> plan.notes == old(plan.notes) + MembersNotes(v, bridge, members, |members.keys|)
  {
    hide MemberAdds, MemberNotes, Resolved;
    error := None;
    var j := 0;
    while j < |members.keys| && error.None?
      invariant 0 <= j <= |members.keys|
      invariant error == MembersError(v, members, j)
      invariant error.None? ==> plan.adds == old(plan.adds) + MembersAdds(c, v, pf, bridge, members, j)
      invariant error.None? ==> plan.notes == old(plan.notes) + MembersNotes(v, bridge, members, j)
    {
      MembersStep(c, v, pf, bridge, members, j, old(plan.adds), old(plan.notes));
      error := DiffMember(c, v, pf, bridge, members.keys[j], members.at[members.keys[j]], plan);
      j := j + 1;
    }
    if error.Some? {
      MembersErrorStays(v, members, j, |members.keys|);
    }
  }

  lemma MembersStep(c: Config, v: KernelInterfaces, pf: Option<PfState>, bridge: Name, members: Dict<Member>, j: nat,
                    adds: seq<Op>, notes: seq<Note>)
    requires Resolved(c) && members.Valid() && j < |members.keys|
    ensures members.keys[j] in members.at
    ensures adds + MembersAdds(c, v, pf, bridge, members, j + 1)
            == adds + MembersAdds(c, v, pf, bridge, members, j) + MemberAdds(c, v, pf, bridge, members.keys[j], members.at[members.keys[j]])
    ensures notes + MembersNotes(v, bridge, members, j + 1)
            == notes + MembersNotes(v, bridge, members, j) + MemberNotes(v, bridge, members.keys[j], members.at[members.keys[j]])
    ensures MembersError(v, members, j).None? ==>
              MembersError(v, members, j + 1) ==
              if members.at[members.keys[j]].typed && v.Has(members.keys[j]) && !v.HasOwned(members.keys[j])
              then Some(ForeignMember(members.keys[j])) else None
  {
    assert members.keys[j] in members.keys;
    Append2(adds, MembersAdds(c, v, pf, bridge, members, j), MemberAdds(c, v, pf, bridge, members.keys[j], members.at[members.keys[j]]));
    Append2(notes, MembersNotes(v, bridge, members, j), MemberNotes(v, bridge, members.keys[j], members.at[members.keys[j]]));
  }

  lemma {:induction false} MembersErrorStays(v: KernelInterfaces, members: Dict<Member>, i: nat, j: nat)
    requires members.Valid() && i <= j <= |members.keys| && MembersError(v, members, i).Some?
    ensures MembersError(v, members, j) == MembersError(v, members, i)
    decreases j
  {
    if i < j {
      MembersErrorStays(v, members, i, j - 1);
    }
  }

  // -------------------------------------------------------------- one bridge

  /** Foreign members are removed; owned ones among them are queued for destruction. */
  method Evict(c: Config, v: KernelInterfaces, bridge: Name, wanted: seq<Name>, early: seq<Name>, plan: Plan) returns (early': seq<Name>)
    modifies plan`removes
    ensures plan.removes == old(plan.removes) + Removes(bridge, Unwanted(v.MembersOf(bridge), wanted))
    ensures early' == early + OwnedOf(v, Unwanted(v.MembersOf(bridge), wanted))
  {
    var current := v.MembersOf(bridge);
    early' := early;
    for i := 0 to |current|
      invariant plan.removes == old(plan.removes) + Removes(bridge, Unwanted(current[..i], wanted))
      invariant early' == early + OwnedOf(v, Unwanted(current[..i], wanted))
    {
      var member := current[i];
      UnwantedStep(v, bridge, current, wanted, i);
      if member !in wanted {
        Append2(old(plan.removes), Removes(bridge, Unwanted(current[..i], wanted)), [RemoveMember(bridge, member)]);
        plan.removes := plan.removes + [RemoveMember(bridge, member)];
        if v.HasOwned(member) {
          Append2(early, OwnedOf(v, Unwanted(current[..i], wanted)), [member]);
          early' := early' + [member];
        }
      }
    }
    assert current[..|current|] == current;
  }

  lemma UnwantedStep(v: KernelInterfaces, bridge: Name, current: seq<Name>, wanted: seq<Name>, i: nat)
    requires i < |current|
    ensures var before, after := Unwanted(current[..i], wanted), Unwanted(current[..i + 1], wanted);
            var keep := current[i] in wanted;
            && Removes(bridge, after) == Removes(bridge, before) + (if keep then [] else [RemoveMember(bridge, current[i])])
            && OwnedOf(v, after) == OwnedOf(v, before) + (if !keep && v.HasOwned(current[i]) then [current[i]] else [])
            && (keep ==> after == before)
  {
    assert current[..i + 1][..i] == current[..i];
    var before, after := Unwanted(current[..i], wanted), Unwanted(current[..i + 1], wanted);
    if current[i] !in wanted {
      assert after == before + [current[i]];
      assert after[..|after| - 1] == before && after[|after| - 1] == current[i];
    } else {
      assert after == before;
    }
  }

  method DiffUplinks(c: Config, v: KernelInterfaces, bridge: Name, b: Bridge, plan: Plan)
    requires BridgeResolved(c, b)
    modifies plan`adds, plan`notes
    ensures plan.adds == old(plan.adds) + UplinkAdds(c, v, bridge, b)
    ensures plan.notes == old(plan.notes) + UplinkNotes(c, v, bridge, b)
  {
    var names := UplinkNames(c, b);
    for i := 0 to |names|
      invariant plan.adds == old(plan.adds) + if i == 0 then [] else UplinkAdds(c, v, bridge, b)
      invariant plan.notes == old(plan.notes) + if i == 0 then [] else UplinkNotes(c, v, bridge, b)
    {
      if names[i] in v.MembersOf(bridge) {
        continue;
      }
      if Manufactured(b) || v.Has(names[i]) {
        plan.adds := plan.adds + [AddMember(bridge, names[i])];
      } else {
        plan.notes := plan.notes + [AwaitingAttach(names[i], bridge)];
      }
    }
  }

  method CreateMissing(c: Config, v: KernelInterfaces, name: Name, b: Bridge, plan: Plan)
    requires Resolved(c) && name in c.bridge.at && b == c.bridge.at[name]
    modifies plan`creates
    ensures plan.creates == old(plan.creates) + BridgeCreates(c, v, name)
  {
    if !v.Has(name) {
      plan.creates := plan.creates + [CreateBridge(name, b.maxAddresses)];
    } else if v.interfaces.at[name].maxaddr.Some? && v.interfaces.at[name].maxaddr.value != b.maxAddresses {
      plan.creates := plan.creates + [SetMaxaddr(name, b.maxAddresses)];
    }
    plan.creates := plan.creates + UplinkCreates(c, b, v);
  }

  /** Members and uplinks of one stanza. */
  method DiffStanza(c: Config, v: KernelInterfaces, pf: Option<PfState>, name: Name, b: Bridge, plan: Plan) returns (error: Option<PlanError>)
    requires Valid(c) && name in c.bridge.at && b == c.bridge.at[name]
    modifies plan`adds, plan`notes
    ensures error == MembersError(v, b.member, |b.member.keys|)
    ensures error.None? ==> plan.adds == old(plan.adds) + BridgeAdds(c, v, pf, name)
    ensures error.None? ==> plan.notes == old(plan.notes) + BridgeNotes(c, v, name)
  {
    error := DiffMembers(c, v, pf, name, b.member, plan);
    if error.None? {
      Append2(old(plan.adds), MembersAdds(c, v, pf, name, b.member, |b.member.keys|), UplinkAdds(c, v, name, b));
      Append2(old(plan.notes), MembersNotes(v, name, b.member, |b.member.keys|), UplinkNotes(c, v, name, b));
      DiffUplinks(c, v, name, b, plan);
    }
  }

  method DiffBridge(c: Config, v: KernelInterfaces, pf: Option<PfState>, name: Name, early: seq<Name>, plan: Plan)
      returns (error: Option<PlanError>, early': seq<Name>)
    requires Valid(c) && name in c.bridge.at
    modifies plan`creates, plan`adds, plan`notes, plan`removes
    ensures error == BridgeError(c, v, name)
    ensures error.None? ==> plan.creates == old(plan.creates) + BridgeCreates(c, v, name)
    ensures error.None? ==> plan.adds == old(plan.adds) + BridgeAdds(c, v, pf, name)
    ensures error.None? ==> plan.removes == old(plan.removes) + Removes(name, Evicted(c, v, name))
    ensures error.None? ==> plan.notes == old(plan.notes) + BridgeNotes(c, v, name)
    ensures error.None? ==> early' == early + OwnedOf(v, Evicted(c, v, name))
  {
    var b := c.bridge.at[name];
    early' := early;
    if UplinkTooLong(c, b) {
      return Some(VlanNameTooLong(UplinkNames(c, b)[0])), early;
    }
    // the planner gives up rather than take it over
    if v.Has(name) && !v.interfaces.at[name].isBridge {
      return Some(NotABridge(name)), early;
    }
    if v.Has(name) && !v.HasOwned(name) {
      return Some(ForeignBridge(name)), early;
    }
    CreateMissing(c, v, name, b, plan);
    error := DiffStanza(c, v, pf, name, b, plan);
    if error.None? {
      early' := Evict(c, v, name, WantedNames(c, b), early, plan);
    }
  }

  lemma {:induction false} FirstErrorStays(c: Config, v: KernelInterfaces, i: nat, j: nat)
    requires Valid(c) && i <= j <= |c.bridge.keys| && FirstError(c, v, i).Some?
    ensures FirstError(c, v, j) == FirstError(c, v, i)
    decreases j
  {
    if i < j {
      FirstErrorStays(c, v, i, j - 1);
    }
  }

  // -------------------------------------------------------- garbage collection

  method QueueIfaces(pf: Option<PfState>, names: seq<Name>, queued: set<Name>, ghost items: seq<GcItem>, plan: Plan) returns (queued': set<Name>)
    requires GcState(queued, plan.destroys) == Gc(pf, items)
    modifies plan`destroys
    ensures GcState(queued', plan.destroys) == Gc(pf, items + Ifaces(names))
  {
    queued' := queued;
    assert items + Ifaces([]) == items;
    for i := 0 to |names|
      invariant GcState(queued', plan.destroys) == Gc(pf, items + Ifaces(names[..i]))
    {
      queued' := plan.DestroyOnce(pf, queued', names[i]);
      GcSnoc(pf, items + Ifaces(names[..i]), GcIface(names[i]));
      assert items + Ifaces(names[..i + 1]) == items + Ifaces(names[..i]) + [GcIface(names[i])];
    }
    assert names[..|names|] == names;
  }

  lemma GcSnoc(pf: Option<PfState>, items: seq<GcItem>, item: GcItem)
    ensures Gc(pf, items + [item]) == GcStep(pf, item, Gc(pf, items))
  {
    assert (items + [item])[..|items|] == items;
  }

  /** The owned names among some members, in their order. */
  method OwnedMembersOf(v: KernelInterfaces, members: seq<Name>) returns (owned: seq<Name>)
    ensures owned == OwnedOf(v, members)
  {
    owned := [];
    for i := 0 to |members|
      invariant owned == OwnedOf(v, members[..i])
    {
      assert members[..i + 1][..i] == members[..i];
      if v.HasOwned(members[i]) {
        owned := owned + [members[i]];
      }
    }
    assert members[..|members|] == members;
  }

  method RemoveAll(bridge: Name, members: seq<Name>, plan: Plan)
    modifies plan`removes
    ensures plan.removes == old(plan.removes) + Removes(bridge, members)
  {
    for i := 0 to |members|
      invariant plan.removes == old(plan.removes) + Removes(bridge, members[..i])
    {
      assert members[..i + 1][..i] == members[..i];
      plan.removes := plan.removes + [RemoveMember(bridge, members[i])];
    }
    assert members[..|members|] == members;
  }

  /** `Teardown` of the owned bridges the document lacks, each bridge destroyed last. */
  method TearDownBridges(c: Config, v: KernelInterfaces, pf: Option<PfState>, plan: Plan) returns (queued: set<Name>)
    requires plan.destroys == []
    modifies plan`removes, plan`destroys
    ensures plan.removes == old(plan.removes) + Teardown(c, v, v.interfaces.keys)
    ensures GcState(queued, plan.destroys) == Gc(pf, TeardownItems(c, v, v.interfaces.keys))
  {
    var names := v.interfaces.keys;
    queued := {};
    for i := 0 to |names|
      invariant plan.removes == old(plan.removes) + Teardown(c, v, names[..i])
      invariant GcState(queued, plan.destroys) == Gc(pf, TeardownItems(c, v, names[..i]))
    {
      TeardownStep(c, v, names, i);
      if Doomed(c, v, names[i]) {
        Append2(old(plan.removes), Teardown(c, v, names[..i]), Removes(names[i], v.MembersOf(names[i])));
        queued := TearDown(v, pf, names[i], queued, TeardownItems(c, v, names[..i]), plan);
      }
    }
    assert names[..|names|] == names;
  }

  lemma TeardownStep(c: Config, v: KernelInterfaces, names: seq<Name>, i: nat)
    requires i < |names|
    ensures var name := names[i];
            && Teardown(c, v, names[..i + 1])
               == Teardown(c, v, names[..i]) + (if Doomed(c, v, name) then Removes(name, v.MembersOf(name)) else [])
            && TeardownItems(c, v, names[..i + 1])
               == TeardownItems(c, v, names[..i])
                  + (if Doomed(c, v, name) then Ifaces(OwnedOf(v, v.MembersOf(name))) + [GcBridge(name)] else [])
    ensures !Doomed(c, v, names[i]) ==>
              && Teardown(c, v, names[..i + 1]) == Teardown(c, v, names[..i])
              && TeardownItems(c, v, names[..i + 1]) == TeardownItems(c, v, names[..i])
  {
    assert names[..i + 1][..i] == names[..i];
  }

  /** One unwanted bridge: its members out, the owned ones and the bridge queued. */
  method TearDown(v: KernelInterfaces, pf: Option<PfState>, name: Name, queued: set<Name>, ghost items: seq<GcItem>, plan: Plan)
      returns (queued': set<Name>)
    requires GcState(queued, plan.destroys) == Gc(pf, items)
    modifies plan`removes, plan`destroys
    ensures plan.removes == old(plan.removes) + Removes(name, v.MembersOf(name))
    ensures GcState(queued', plan.destroys) == Gc(pf, items + (Ifaces(OwnedOf(v, v.MembersOf(name))) + [GcBridge(name)]))
  {
    RemoveAll(name, v.MembersOf(name), plan);
    var owned := OwnedMembersOf(v, v.MembersOf(name));
    queued' := QueueIfaces(pf, owned, queued, items, plan);
    queued' := queued' + {name};
    plan.destroys := plan.destroys + [DestroyBridge(name)];
    GcSnoc(pf, items + Ifaces(owned), GcBridge(name));
    Append2(items, Ifaces(owned), [GcBridge(name)]);
  }

  method FlushStale(c: Config, pf: PfState, flushed: set<Name>, plan: Plan)
    modifies plan`removes
    ensures plan.removes == old(plan.removes) + StaleFlushes(c, pf, flushed, Sorted(pf.Keys))
  {
    var names := SortNames(pf.Keys);
    FlushStaleOf(c, pf, flushed, names, plan);
  }

  method FlushStaleOf(c: Config, pf: PfState, flushed: set<Name>, names: seq<Name>, plan: Plan)
    requires forall i :: 0 <= i < |names| ==> names[i] in pf
    modifies plan`removes
    ensures plan.removes == old(plan.removes) + StaleFlushes(c, pf, flushed, names)
  {
    for i := 0 to |names|
      invariant plan.removes == old(plan.removes) + StaleFlushes(c, pf, flushed, names[..i])
    {
      assert names[..i + 1][..i] == names[..i];
      if pf[names[i]].exists_ && !Policied(c, names[i]) && names[i] !in flushed {
        plan.removes := plan.removes + [FlushAnchor(names[i])];
      }
    }
    assert names[..|names|] == names;
  }

  method FindOrphans(v: KernelInterfaces, desired: set<Name>) returns (orphans: seq<Name>)
    ensures orphans == Orphans(v, desired, v.owned)
  {
    orphans := [];
    for i := 0 to |v.owned|
      invariant orphans == Orphans(v, desired, v.owned[..i])
    {
      assert v.owned[..i + 1][..i] == v.owned[..i];
      var name := v.owned[i];
      if name in v.interfaces.at && !v.interfaces.at[name].isBridge && name !in desired {
        orphans := orphans + [name];
      }
    }
    assert v.owned[..|v.owned|] == v.owned;
  }

  /** Flushes the removes phase holds before the anchors are cleaned up: none. */
  lemma NoFlushAmongRemoves(c: Config, v: KernelInterfaces)
    requires Valid(c)
    ensures forall op :: op in MemberRemoves(c, v) ==> op.RemoveMember?
  {
    EvictionsMembers(c, v, |c.bridge.keys|);
    TeardownMembers(c, v, v.interfaces.keys);
  }

  // --------------------------------------------------------------------- diff

  lemma BridgesStep(c: Config, v: KernelInterfaces, pf: Option<PfState>, i: nat)
    requires Valid(c) && i < |c.bridge.keys|
    ensures c.bridge.keys[i] in c.bridge.at
    ensures Creates(c, v, i + 1) == Creates(c, v, i) + BridgeCreates(c, v, c.bridge.keys[i])
    ensures Adds(c, v, pf, i + 1) == Adds(c, v, pf, i) + BridgeAdds(c, v, pf, c.bridge.keys[i])
    ensures Evictions(c, v, i + 1) == Evictions(c, v, i) + Removes(c.bridge.keys[i], Evicted(c, v, c.bridge.keys[i]))
    ensures Notes(c, v, i + 1) == Notes(c, v, i) + BridgeNotes(c, v, c.bridge.keys[i])
    ensures Desired(c, i + 1) == Desired(c, i) + Elements(WantedNames(c, c.bridge.at[c.bridge.keys[i]]))
    ensures EarlyDestroys(c, v, i + 1) == EarlyDestroys(c, v, i) + OwnedOf(v, Evicted(c, v, c.bridge.keys[i]))
    ensures FirstError(c, v, i).None? ==> FirstError(c, v, i + 1) == BridgeError(c, v, c.bridge.keys[i])
  {
    assert c.bridge.keys[i] in c.bridge.keys;
  }

  /** What the loop over the document leaves in the plan after i bridges. */
  ghost predicate BridgesDiffed(c: Config, v: KernelInterfaces, pf: Option<PfState>, lists: Phases, i: nat)
    requires Valid(c) && i <= |c.bridge.keys|
  {
    lists == Phases(Creates(c, v, i), Evictions(c, v, i), Adds(c, v, pf, i), [], Notes(c, v, i))
  }

  /** The loop's locals and the plan after i bridges. */
  ghost predicate DiffedUpTo(c: Config, v: KernelInterfaces, pf: Option<PfState>, i: int, error: Option<PlanError>,
                             desired: set<Name>, early: seq<Name>, lists: Phases)
    requires Valid(c)
  {
    && 0 <= i <= |c.bridge.keys|
    && error == FirstError(c, v, i)
    && (error.None? ==> BridgesDiffed(c, v, pf, lists, i) && desired == Desired(c, i) && early == EarlyDestroys(c, v, i))
  }

  method DiffNext(c: Config, v: KernelInterfaces, pf: Option<PfState>, i: nat, desired: set<Name>, early: seq<Name>, plan: Plan)
      returns (error: Option<PlanError>, desired': set<Name>, early': seq<Name>)
    requires Valid(c) && i < |c.bridge.keys|
    requires DiffedUpTo(c, v, pf, i, None, desired, early, plan.Lists())
    modifies plan
    ensures DiffedUpTo(c, v, pf, i + 1, error, desired', early', plan.Lists())
  {
    var name := c.bridge.keys[i];
    BridgesStep(c, v, pf, i);
    error, early' := DiffBridge(c, v, pf, name, early, plan);
    desired' := desired + Elements(WantedNames(c, c.bridge.at[name]));
  }

  lemma NothingDiffed(c: Config, v: KernelInterfaces, pf: Option<PfState>)
    requires Valid(c)
    ensures DiffedUpTo(c, v, pf, 0, None, {}, [], Phases([], [], [], [], []))
  {
  }

  method DiffBridges(c: Config, v: KernelInterfaces, pf: Option<PfState>, plan: Plan)
      returns (error: Option<PlanError>, desired: set<Name>, early: seq<Name>, ghost done: nat)
    requires Valid(c) && plan.Lists() == Phases([], [], [], [], [])
    modifies plan
    ensures DiffedUpTo(c, v, pf, done, error, desired, early, plan.Lists())
    ensures error.None? ==> done == |c.bridge.keys|
  {
    NothingDiffed(c, v, pf);
    error, desired, early := None, {}, [];
    var i := 0;
    while i < |c.bridge.keys| && error.None?
      invariant DiffedUpTo(c, v, pf, i, error, desired, early, plan.Lists())
    {
      error, desired, early := DiffNext(c, v, pf, i, desired, early, plan);
      i := i + 1;
    }
    done := i;
  }

  lemma FlushedConcat(removes: seq<Op>, destroys: seq<Op>)
    requires forall op :: op in removes ==> op.RemoveMember?
    ensures Flushed(removes + destroys) == Flushed(destroys)
  {
    forall op ensures op in removes + destroys <==> op in removes || op in destroys {}
  }

  /** Unwanted bridges, evicted members, stale anchors and orphans. */
  method CollectGarbage(c: Config, v: KernelInterfaces, pf: Option<PfState>, desired: set<Name>, early: seq<Name>, plan: Plan)
    requires Valid(c) && plan.destroys == [] && plan.removes == Evictions(c, v, |c.bridge.keys|)
    requires desired == Desired(c, |c.bridge.keys|) && early == EarlyDestroys(c, v, |c.bridge.keys|)
    modifies plan`removes, plan`destroys
    ensures plan.removes == MemberRemoves(c, v) + StaleAnchors(c, v, pf)
    ensures plan.destroys == Gc(pf, GcItems(c, v)).destroys
  {
    var queued := TearDownBridges(c, v, pf, plan);
    queued := QueueIfaces(pf, early, queued, TeardownItems(c, v, v.interfaces.keys), plan);
    if pf.Some? {
      var flushed := Flushed(plan.removes + plan.destroys);
      NoFlushAmongRemoves(c, v);
      FlushedConcat(plan.removes, plan.destroys);
      FlushStale(c, pf.value, flushed, plan);
    }
    var orphans := FindOrphans(v, desired);
    queued := QueueIfaces(pf, orphans, queued, EarlyItems(c, v), plan);
  }

  /** Diff a desired document against a view of the kernel into a plan. */
  method Diff(c: Config, v: KernelInterfaces, pf: Option<PfState>) returns (result: Result<Phases, PlanError>)
    requires Valid(c)
    ensures result == Planned(c, v, pf)
  {
    var plan := new Plan();
    var error, desired, early, done := DiffBridges(c, v, pf, plan);
    if error.Some? {
      FirstErrorStays(c, v, done, |c.bridge.keys|);
      return Err(error.value);
    }
    CollectGarbage(c, v, pf, desired, early, plan);
    result := Ok(plan.Lists());
  }
}
