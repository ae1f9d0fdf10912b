/**
 What the planner sees of the kernel (`KernelInterfaces` in ifconfig.py).
 `interfaces` keeps the order in which they were read, `owned` the kernel's order.
 */
module View {
  import opened Collections
  import opened Model

  datatype Interface = Interface(isBridge: bool, isOwned: bool, members: seq<Name>, maxaddr: Option<nat>)

  datatype AddrEntry = AddrEntry(mac: Mac, member: Name, isStatic: bool)

  /** The MAC of the first static entry of a member in a bridge's address list. */
  function FirstStatic(entries: seq<AddrEntry>, member: Name): Option<Mac> {
    if entries == [] then None
    else if entries[0].member == member && entries[0].isStatic then Some(entries[0].mac)
    else FirstStatic(entries[1..], member)
  }

  datatype KernelInterfaces = KernelInterfaces(interfaces: Dict<Interface>, owned: seq<Name>, addrs: map<Name, seq<AddrEntry>>) {
    predicate Has(name: Name) {
      name in interfaces.at
    }

    predicate HasOwned(name: Name) {
      name in interfaces.at && interfaces.at[name].isOwned
    }

    function StaticLock(bridge: Name, member: Name): Option<Mac> {
      if bridge in addrs then FirstStatic(addrs[bridge], member) else None
    }

    function MembersOf(bridge: Name): seq<Name> {
      if bridge in interfaces.at then interfaces.at[bridge].members else []
    }
  }
}

/**
 The planner (l2_agent/plan.py): `diff` and its helpers, first as functions of the
 inputs, then as the list-appending method proved to compute them.

 A Python set is walked in an unspecified order. The planner walks each bridge's
 members in one loop only, so letting a view list members in any order covers
 every such order.
 */
module Planner {
  import opened Collections
  import opened Model
  import opened Pf
  import opened Ops
  import opened View

  type PfState = map<Name, AnchorState>

  datatype PlanError = VlanNameTooLong(name: Name) | NotABridge(name: Name) | ForeignBridge(name: Name) | ForeignMember(name: Name)

  datatype Note = AwaitingAttach(name: Name, bridge: Name)

  // ------------------------------------------------------------ one bridge

  function UplinkNames(c: Config, b: Bridge): seq<Name>
    requires BridgeResolved(c, b)
  {
    match b.segment
    case None => []
    case Some(Vlan(p, vid)) => [VlanName(c.physnet[p], vid)]
    case Some(Flat(p)) => [c.physnet[p]]
  }

  predicate Manufactured(b: Bridge) {
    b.segment.Some? && b.segment.value.Vlan?
  }

  /** The derived vlan name exceeds IFNAMSIZ. */
  predicate UplinkTooLong(c: Config, b: Bridge)
    requires BridgeResolved(c, b)
  {
    Manufactured(b) && |UplinkNames(c, b)[0]| > IFNAME_MAX
  }

  /** Every name the bridge's stanza wants as a member. */
  function WantedNames(c: Config, b: Bridge): seq<Name>
    requires BridgeResolved(c, b)
  {
    UplinkNames(c, b) + b.member.keys
  }

  function UplinkCreates(c: Config, b: Bridge, v: KernelInterfaces): seq<Op>
    requires BridgeResolved(c, b)
  {
    var names := UplinkNames(c, b);
    if Manufactured(b) && !v.Has(names[0]) then
      [CreateVlan(names[0], BeforeLastDot(names[0]), b.segment.value.vid)]
    else []
  }

  function BridgeCreates(c: Config, v: KernelInterfaces, name: Name): seq<Op>
    requires Resolved(c) && name in c.bridge.at
  {
    var b := c.bridge.at[name];
    (if !v.Has(name) then [CreateBridge(name, b.maxAddresses)]
     else if v.interfaces.at[name].maxaddr.Some? && v.interfaces.at[name].maxaddr.value != b.maxAddresses
     then [SetMaxaddr(name, b.maxAddresses)]
     else [])
    + UplinkCreates(c, b, v)
  }

  // ------------------------------------------------------------- pf plane

  function FilterOf(c: Config, m: Member): Option<Filter> {
    if m.filter != "" && m.filter in c.filter then Some(c.filter[m.filter]) else None
  }

  predicate HasPolicy(c: Config, m: Member) {
    FilterOf(c, m).Some? || m.bind.Some?
  }

  ghost function WantedRules(c: Config, m: Member): Ruleset {
    Rendered(FilterOf(c, m), m.bind)
  }

  function MemberTables(c: Config, m: Member): map<Name, set<Addr>>
    requires Resolved(c)
  {
    if FilterOf(c, m).Some? then
      ResolvedTables(c, m.filter);
      WantedTables(FilterOf(c, m), c)
    else map[]
  }

  function KnownTable(s: AnchorState, t: Name): set<Addr> {
    if t in s.tables then s.tables[t] else {}
  }

  function TableDrift(ifname: Name, names: seq<Name>, wanted: map<Name, set<Addr>>, s: AnchorState): seq<Op>
    requires forall i :: 0 <= i < |names| ==> names[i] in wanted
  {
    if names == [] then [] else
      var t := names[|names| - 1];
      TableDrift(ifname, names[..|names| - 1], wanted, s)
      + if wanted[t] != KnownTable(s, t) then [ReplaceTable(ifname, t, wanted[t])] else []
  }

  /** The anchor is loaded and carries the wanted hash. */
  ghost predicate AnchorCurrent(c: Config, m: Member, pf: PfState, ifname: Name) {
    ifname in pf && pf[ifname].exists_ && pf[ifname].hash == Some(WantedRules(c, m))
  }

  ghost function LoadOps(c: Config, ifname: Name, m: Member, pf: Option<PfState>): seq<Op>
    requires Resolved(c)
  {
    if !HasPolicy(c, m) then []
    else if pf.Some? && AnchorCurrent(c, m, pf.value, ifname) then []
    else [LoadAnchor(ifname, m.filter, WantedRules(c, m), MemberTables(c, m))]
  }

  ghost function TableOps(c: Config, ifname: Name, m: Member, pf: Option<PfState>): seq<Op>
    requires Resolved(c)
  {
    if HasPolicy(c, m) && pf.Some? && AnchorCurrent(c, m, pf.value, ifname) then
      var wanted := MemberTables(c, m);
      TableDrift(ifname, Sorted(wanted.Keys), wanted, pf.value[ifname])
    else []
  }

  // ------------------------------------------------------------ one member

  function LockOps(v: KernelInterfaces, bridge: Name, name: Name, m: Member): seq<Op> {
    if m.bind.Some? && v.StaticLock(bridge, name) != Some(m.bind.value.mac)
    then [LockMemberMac(bridge, name, m.bind.value.mac)] else []
  }

  /** The ops that make one member present, policied and attached. */
  ghost function AttachOps(c: Config, v: KernelInterfaces, pf: Option<PfState>, bridge: Name, name: Name, m: Member): seq<Op>
    requires Resolved(c)
  {
    var load := LoadOps(c, name, m, pf);
    if !v.Has(name) then
      if m.typed then [CreateTap(name, m.description)] + load + [AddMember(bridge, name)] else []
    else if name !in v.MembersOf(bridge) then
      load + [AddMember(bridge, name)]
    else if pf.Some? then load
    else []
  }

  ghost function MemberAdds(c: Config, v: KernelInterfaces, pf: Option<PfState>, bridge: Name, name: Name, m: Member): seq<Op>
    requires Resolved(c)
  {
    AttachOps(c, v, pf, bridge, name, m) + TableOps(c, name, m, pf) + LockOps(v, bridge, name, m)
  }

  function MemberNotes(v: KernelInterfaces, bridge: Name, name: Name, m: Member): seq<Note> {
    if !m.typed && !v.Has(name) then [AwaitingAttach(name, bridge)] else []
  }

  ghost function MembersAdds(c: Config, v: KernelInterfaces, pf: Option<PfState>, bridge: Name, members: Dict<Member>, j: nat): seq<Op>
    requires Resolved(c) && members.Valid() && j <= |members.keys|
  {
    if j == 0 then [] else
      var name := members.keys[j - 1];
      MembersAdds(c, v, pf, bridge, members, j - 1) + MemberAdds(c, v, pf, bridge, name, members.at[name])
  }

  function MembersNotes(v: KernelInterfaces, bridge: Name, members: Dict<Member>, j: nat): seq<Note>
    requires j <= |members.keys| && forall x :: x in members.keys ==> x in members.at
  {
    if j == 0 then [] else
      var name := members.keys[j - 1];
      MembersNotes(v, bridge, members, j - 1) + MemberNotes(v, bridge, name, members.at[name])
  }

  /** The first typed member that exists without the ownership group. */
  function MembersError(v: KernelInterfaces, members: Dict<Member>, j: nat): Option<PlanError>
    requires j <= |members.keys| && forall x :: x in members.keys ==> x in members.at
  {
    if j == 0 then None
    else if MembersError(v, members, j - 1).Some? then MembersError(v, members, j - 1)
    else
      var name := members.keys[j - 1];
      if members.at[name].typed && v.Has(name) && !v.HasOwned(name) then Some(ForeignMember(name)) else None
  }

  // ---------------------------------------------------------- uplink adds

  function UplinkAdds(c: Config, v: KernelInterfaces, bridge: Name, b: Bridge): seq<Op>
    requires BridgeResolved(c, b)
  {
    var names := UplinkNames(c, b);
    if names != [] && names[0] !in v.MembersOf(bridge) && (Manufactured(b) || v.Has(names[0]))
    then [AddMember(bridge, names[0])] else []
  }

  function UplinkNotes(c: Config, v: KernelInterfaces, bridge: Name, b: Bridge): seq<Note>
    requires BridgeResolved(c, b)
  {
    var names := UplinkNames(c, b);
    if names != [] && names[0] !in v.MembersOf(bridge) && !Manufactured(b) && !v.Has(names[0])
    then [AwaitingAttach(names[0], bridge)] else []
  }

  // -------------------------------------------------------- one whole stanza

  ghost function BridgeAdds(c: Config, v: KernelInterfaces, pf: Option<PfState>, name: Name): seq<Op>
    requires Valid(c) && name in c.bridge.at
  {
    var b := c.bridge.at[name];
    MembersAdds(c, v, pf, name, b.member, |b.member.keys|) + UplinkAdds(c, v, name, b)
  }

  ghost function BridgeNotes(c: Config, v: KernelInterfaces, name: Name): seq<Note>
    requires Valid(c) && name in c.bridge.at
  {
    var b := c.bridge.at[name];
    MembersNotes(v, name, b.member, |b.member.keys|) + UplinkNotes(c, v, name, b)
  }

  /** The members, of a list, that the stanza does not want. */
  function Unwanted(members: seq<Name>, wanted: seq<Name>): seq<Name> {
    if members == [] then [] else
      Unwanted(members[..|members| - 1], wanted)
      + if members[|members| - 1] in wanted then [] else [members[|members| - 1]]
  }

  function Removes(bridge: Name, members: seq<Name>): seq<Op> {
    if members == [] then []
    else Removes(bridge, members[..|members| - 1]) + [RemoveMember(bridge, members[|members| - 1])]
  }

  function OwnedOf(v: KernelInterfaces, members: seq<Name>): seq<Name> {
    if members == [] then [] else
      OwnedOf(v, members[..|members| - 1])
      + if v.HasOwned(members[|members| - 1]) then [members[|members| - 1]] else []
  }

  function Evicted(c: Config, v: KernelInterfaces, name: Name): seq<Name>
    requires Resolved(c) && name in c.bridge.at
  {
    Unwanted(v.MembersOf(name), WantedNames(c, c.bridge.at[name]))
  }

  ghost function BridgeError(c: Config, v: KernelInterfaces, name: Name): Option<PlanError>
    requires Valid(c) && name in c.bridge.at
  {
    var b := c.bridge.at[name];
    if UplinkTooLong(c, b) then Some(VlanNameTooLong(UplinkNames(c, b)[0]))
    else if v.Has(name) && !v.interfaces.at[name].isBridge then Some(NotABridge(name))
    else if v.Has(name) && !v.HasOwned(name) then Some(ForeignBridge(name))
    else MembersError(v, b.member, |b.member.keys|)
  }

  // ------------------------------------------------------ all stanzas in order

  ghost function Creates(c: Config, v: KernelInterfaces, i: nat): seq<Op>
    requires Valid(c) && i <= |c.bridge.keys|
  {
    if i == 0 then [] else Creates(c, v, i - 1) + BridgeCreates(c, v, c.bridge.keys[i - 1])
  }

  ghost function Adds(c: Config, v: KernelInterfaces, pf: Option<PfState>, i: nat): seq<Op>
    requires Valid(c) && i <= |c.bridge.keys|
  {
    if i == 0 then [] else Adds(c, v, pf, i - 1) + BridgeAdds(c, v, pf, c.bridge.keys[i - 1])
  }

  ghost function Evictions(c: Config, v: KernelInterfaces, i: nat): seq<Op>
    requires Valid(c) && i <= |c.bridge.keys|
  {
    if i == 0 then [] else
      Evictions(c, v, i - 1) + Removes(c.bridge.keys[i - 1], Evicted(c, v, c.bridge.keys[i - 1]))
  }

  ghost function EarlyDestroys(c: Config, v: KernelInterfaces, i: nat): seq<Name>
    requires Valid(c) && i <= |c.bridge.keys|
  {
    if i == 0 then [] else
      EarlyDestroys(c, v, i - 1) + OwnedOf(v, Evicted(c, v, c.bridge.keys[i - 1]))
  }

  ghost function Notes(c: Config, v: KernelInterfaces, i: nat): seq<Note>
    requires Valid(c) && i <= |c.bridge.keys|
  {
    if i == 0 then [] else Notes(c, v, i - 1) + BridgeNotes(c, v, c.bridge.keys[i - 1])
  }

  ghost function FirstError(c: Config, v: KernelInterfaces, i: nat): Option<PlanError>
    requires Valid(c) && i <= |c.bridge.keys|
  {
    if i == 0 then None
    else if FirstError(c, v, i - 1).Some? then FirstError(c, v, i - 1)
    else BridgeError(c, v, c.bridge.keys[i - 1])
  }

  // ------------------------------------------------------ garbage collection

  predicate Doomed(c: Config, v: KernelInterfaces, name: Name) {
    name in v.interfaces.at && v.interfaces.at[name].isBridge && v.HasOwned(name) && name !in c.bridge.at
  }

  /** RemoveMember for every member of every unwanted owned bridge. */
  function Teardown(c: Config, v: KernelInterfaces, names: seq<Name>): seq<Op> {
    if names == [] then [] else
      var name := names[|names| - 1];
      Teardown(c, v, names[..|names| - 1])
      + if Doomed(c, v, name) then Removes(name, v.MembersOf(name)) else []
  }

  datatype GcItem = GcIface(name: Name) | GcBridge(name: Name)

  function Ifaces(names: seq<Name>): seq<GcItem> {
    seq(|names|, i requires 0 <= i < |names| => GcIface(names[i]))
  }

  /** What the unwanted bridges queue for destruction: owned members, then the bridge. */
  function TeardownItems(c: Config, v: KernelInterfaces, names: seq<Name>): seq<GcItem> {
    if names == [] then [] else
      var name := names[|names| - 1];
      TeardownItems(c, v, names[..|names| - 1])
      + if Doomed(c, v, name) then Ifaces(OwnedOf(v, v.MembersOf(name))) + [GcBridge(name)] else []
  }

  /** Every non-bridge name the first i stanzas claim. */
  ghost function Desired(c: Config, i: nat): set<Name>
    requires Valid(c) && i <= |c.bridge.keys|
  {
    if i == 0 then {} else
      Desired(c, i - 1) + Elements(WantedNames(c, c.bridge.at[c.bridge.keys[i - 1]]))
  }

  function Orphans(v: KernelInterfaces, desired: set<Name>, owned: seq<Name>): seq<Name> {
    if owned == [] then [] else
      var name := owned[|owned| - 1];
      Orphans(v, desired, owned[..|owned| - 1])
      + if name in v.interfaces.at && !v.interfaces.at[name].isBridge && name !in desired then [name] else []
  }

  /** The state `destroy_once` works on. */
  datatype GcState = GcState(queued: set<Name>, destroys: seq<Op>)

  function GcStep(pf: Option<PfState>, item: GcItem, s: GcState): GcState {
    match item
    case GcBridge(n) => GcState(s.queued + {n}, s.destroys + [DestroyBridge(n)])
    case GcIface(n) =>
      if n in s.queued then s
      else GcState(
        s.queued + {n},
        s.destroys
        + (if pf.Some? && n in pf.value && pf.value[n].exists_ then [FlushAnchor(n)] else [])
        + [DestroyIface(n)])
  }

  function Gc(pf: Option<PfState>, items: seq<GcItem>): GcState {
    if items == [] then GcState({}, [])
    else GcStep(pf, items[|items| - 1], Gc(pf, items[..|items| - 1]))
  }

  predicate Policied(c: Config, name: Name) {
    exists b :: b in c.bridge.at && name in c.bridge.at[b].member.at
                && (c.bridge.at[b].member.at[name].filter != "" || c.bridge.at[b].member.at[name].bind.Some?)
  }

  function Flushed(ops: seq<Op>): set<Name> {
    set op | op in ops && op.FlushAnchor? :: op.ifname
  }

  /** A flush for every loaded anchor, of a list of names, nothing else accounts for. */
  function StaleFlushes(c: Config, pf: PfState, flushed: set<Name>, names: seq<Name>): seq<Op>
    requires forall i :: 0 <= i < |names| ==> names[i] in pf
  {
    if names == [] then [] else
      var n := names[|names| - 1];
      StaleFlushes(c, pf, flushed, names[..|names| - 1])
      + if pf[n].exists_ && !Policied(c, n) && n !in flushed then [FlushAnchor(n)] else []
  }

  // --------------------------------------------------------------- the plan

  datatype Phases = Phases(creates: seq<Op>, removes: seq<Op>, adds: seq<Op>, destroys: seq<Op>, notes: seq<Note>) {
    function Ops(): seq<Op> {
      creates + removes + adds + destroys
    }
  }

  ghost function EarlyItems(c: Config, v: KernelInterfaces): seq<GcItem>
    requires Valid(c)
  {
    TeardownItems(c, v, v.interfaces.keys) + Ifaces(EarlyDestroys(c, v, |c.bridge.keys|))
  }

  ghost function GcItems(c: Config, v: KernelInterfaces): seq<GcItem>
    requires Valid(c)
  {
    EarlyItems(c, v) + Ifaces(Orphans(v, Desired(c, |c.bridge.keys|), v.owned))
  }

  ghost function MemberRemoves(c: Config, v: KernelInterfaces): seq<Op>
    requires Valid(c)
  {
    Evictions(c, v, |c.bridge.keys|) + Teardown(c, v, v.interfaces.keys)
  }

  ghost function StaleAnchors(c: Config, v: KernelInterfaces, pf: Option<PfState>): seq<Op>
    requires Valid(c)
  {
    if pf.None? then []
    else StaleFlushes(c, pf.value, Flushed(Gc(pf, EarlyItems(c, v)).destroys), Sorted(pf.value.Keys))
  }

  ghost function PlannedPhases(c: Config, v: KernelInterfaces, pf: Option<PfState>): Phases
    requires Valid(c)
  {
    var n := |c.bridge.keys|;
    Phases(
      Creates(c, v, n),
      MemberRemoves(c, v) + StaleAnchors(c, v, pf),
      Adds(c, v, pf, n),
      Gc(pf, GcItems(c, v)).destroys,
      Notes(c, v, n))
  }

  /** The planner as a function: an error, or the ops of the four phases and the notes. */
  ghost function Planned(c: Config, v: KernelInterfaces, pf: Option<PfState>): Result<Phases, PlanError>
    requires Valid(c)
  {
    var error := FirstError(c, v, |c.bridge.keys|);
    if error.Some? then Err(error.value) else Ok(PlannedPhases(c, v, pf))
  }
}
