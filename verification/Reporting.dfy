/**
 What the agent reports to Neutron after a pass (`_sync` in agent.py): the devices none of
 whose interface names awaits attachment. Receipts are all it knows about the pass.
 */
module Reporting {
  import opened Collections
  import opened Model
  import opened Ops
  import opened KernelModel
  import opened View
  import opened Planner
  import opened Reading
  import opened PlanShape
  import opened PlanContents
  import opened AddsPhase
  import opened Realization
  import opened Parking
  import opened Writing
  import opened Names
  import opened PortConfig
  import opened PfSemantics
  import opened Assembly
  import opened Enforcement

  // ------------------------------------------------------------ reading receipts

  /** The pass did not raise: every receipt is ok or parked. */
  ghost predicate NoneFailed(ops: seq<Op>, outcomes: nat -> Outcome, k: Kernel) {
    forall i :: 0 <= i < |ops| ==> !ReceiptFor(ops[i], outcomes(i), Run(ops[..i], outcomes, k)).Failed()
  }

  /** The outcomes the receipts tell of: parked ops blocked, the others worked. */
  ghost function Told(ops: seq<Op>, outcomes: nat -> Outcome, k: Kernel): nat -> Outcome {
    (i: nat) => if i < |ops| && ReceiptFor(ops[i], outcomes(i), Run(ops[..i], outcomes, k)).parked then Blocks else Works
  }

  /** A receipt that is ok although its command failed leaves the kernel as success would have:
      the flushed anchor was empty, the destroyed interface already absent. */
  lemma StepAsTold(op: Op, outcome: Outcome, k: Kernel)
    requires !ReceiptFor(op, outcome, k).Failed()
    ensures Step(op, outcome, k) == Step(op, if ReceiptFor(op, outcome, k).parked then Blocks else Works, k)
    ensures ReceiptFor(op, outcome, k).parked ==> IsDestroy(op)
  {
    if op.FlushAnchor? && !outcome.Works? {
      assert k.anchors - {op.ifname} == k.anchors;
    }
  }

  /** What an op is for. */
  ghost predicate Achieved(op: Op, k: Kernel) {
    match op
    case CreateBridge(n, mx) => IsBridge(k, n) && IsOwned(k, n) && k.ifs[n].maxaddr == Some(mx)
    case CreateVlan(n, _, _) => IsOwned(k, n)
    case CreateTap(n, _) => IsOwned(k, n)
    case LoadAnchor(i, _, rules, tables) =>
      i in k.anchors && k.anchors[i].rules == Some(rules)
      && forall t :: t in tables ==> t in k.anchors[i].tables && k.anchors[i].tables[t] == tables[t]
    case ReplaceTable(i, t, members) => i in k.anchors && t in k.anchors[i].tables && k.anchors[i].tables[t] == members
    case FlushAnchor(i) => i !in k.anchors
    case LockMemberMac(b, m, mac) => InBridge(k, b, m) && Get(k.lock, m) == Some(mac)
    case AddMember(b, m) => InBridge(k, b, m)
    case RemoveMember(b, m) => !InBridge(k, b, m)
    case DestroyIface(n) => n !in k.ifs
    case DestroyBridge(n) => n !in k.ifs
    case SetMaxaddr(b, mx) => b in k.ifs && k.ifs[b].maxaddr == Some(mx)
  }

  /** A receipt that is ok means that its op's aim is reached; a parked one is of an owned interface whose
      destroy blocked; a failed one of a command that did not work, or that the kernel or, for a destroy of
      something unowned, the writer itself refuses. Where the command works and is accepted, all is ok. */
  lemma ReceiptMeans(op: Op, outcome: Outcome, k: Kernel)
    ensures var r := ReceiptFor(op, outcome, k);
            && r.op == op
            && (r.ok ==> Achieved(op, Step(op, outcome, k)) && !r.parked)
            && (r.parked <==> IsDestroy(op) && IsOwned(k, op.name) && outcome.Blocks?)
            && (!r.ok ==> Step(op, outcome, k) == k && (!outcome.Works? || !Enabled(op, k)))
            && (outcome.Works? && Enabled(op, k) ==> r.ok && r.executed)
            && (IsDestroy(op) ==> (r.executed <==> IsOwned(k, op.name)))
            && (IsDestroy(op) && op.name in k.ifs && !k.ifs[op.name].owned ==> !r.ok)
            && (IsDestroy(op) && op.name !in k.ifs ==> r.ok)
            && (op.FlushAnchor? && op.ifname !in k.anchors ==> r.ok)
  {
    if op.FlushAnchor? && op.ifname !in k.anchors {
      assert k.anchors - {op.ifname} == k.anchors;
    }
  }

  lemma {:induction false} RunAsTold(ops: seq<Op>, outcomes: nat -> Outcome, k: Kernel, n: nat)
    requires NoneFailed(ops, outcomes, k) && n <= |ops|
    ensures Run(ops[..n], outcomes, k) == Run(ops[..n], Told(ops, outcomes, k), k)
  {
    if n > 0 {
      RunAsTold(ops, outcomes, k, n - 1);
      assert ops[..n][..n - 1] == ops[..n - 1];
      StepAsTold(ops[n - 1], outcomes(n - 1), Run(ops[..n - 1], outcomes, k));
    }
  }

  lemma OnlyDestroysParked(ops: seq<Op>, outcomes: nat -> Outcome, k: Kernel)
    requires NoneFailed(ops, outcomes, k)
    ensures OnlyDestroysHeld(ops, Told(ops, outcomes, k))
  {
    forall i | 0 <= i < |ops| && !WorksAt(Told(ops, outcomes, k), 0, i) ensures IsDestroy(ops[i]) {
      StepAsTold(ops[i], outcomes(i), Run(ops[..i], outcomes, k));
    }
  }

  /** A pass from home none of whose receipts failed realizes the document, but for parked
      destroys; no claimed interface is gone. */
  lemma CleanReceiptsRealize(c: Config, k: Kernel, v: KernelInterfaces, pf: PfState, outcomes: nat -> Outcome)
    requires Situation(c, k, v, pf) && Ready(c, k) && Home(c, k)
    requires NoneFailed(PlannedPhases(c, v, Some(pf)).Ops(), outcomes, k)
    ensures var ops := PlannedPhases(c, v, Some(pf)).Ops();
            var k' := Run(ops, outcomes, k);
            RealizedBut(c, k', HeldNames(ops, Told(ops, outcomes, k))) && KeepsClaimed(c, k, k')
  {
    var ops := PlannedPhases(c, v, Some(pf)).Ops();
    hide PlannedPhases, Situation, Ready, Home, NoneFailed, Told, RealizedBut, KeepsClaimed, HeldNames;
    OnlyDestroysParked(ops, outcomes, k);
    RunAsTold(ops, outcomes, k, |ops|);
    assert ops[..|ops|] == ops;
    HeldPassRealizes(c, k, v, pf, Told(ops, outcomes, k));
  }

  // ----------------------------------------------------------------- reporting

  function Waiting(notes: seq<Note>): set<Name> {
    set i | 0 <= i < |notes| :: notes[i].name
  }

  /** The devices reported up. */
  function NowUp(devices: set<string>, notes: seq<Note>): set<string> {
    set d | d in devices && TapName(d) !in Waiting(notes) && DhcpIfName(d) !in Waiting(notes) && RouterIfName(d) !in Waiting(notes)
  }

  /** The devices a built document covers. */
  function Rendered(ports: seq<Port>): set<string> {
    set i | 0 <= i < |ports| :: ports[i].id
  }

  lemma {:induction false} MemberIsNoted(v: KernelInterfaces, b: Name, members: Dict<Member>, j: nat, i: nat)
    requires members.Valid() && i < j <= |members.keys|
    requires !members.at[members.keys[i]].typed && !v.Has(members.keys[i])
    ensures AwaitingAttach(members.keys[i], b) in MembersNotes(v, b, members, j)
  {
    if i < j - 1 {
      MemberIsNoted(v, b, members, j - 1, i);
    }
  }

  lemma {:induction false} StanzaIsNoted(c: Config, v: KernelInterfaces, note: Note, n: nat, i: nat)
    requires Valid(c) && i < n <= |c.bridge.keys| && note in BridgeNotes(c, v, c.bridge.keys[i])
    ensures note in Notes(c, v, n)
  {
    hide BridgeNotes, Resolved;
    if i < n - 1 {
      StanzaIsNoted(c, v, note, n - 1, i);
    }
  }

  /** Untyped members that are not there are in the notes. */
  lemma AbsentIsNoted(c: Config, v: KernelInterfaces, b: Name, x: Name)
    requires Valid(c) && b in c.bridge.at && x in c.bridge.at[b].member.at
    requires !c.bridge.at[b].member.at[x].typed && !v.Has(x)
    ensures x in Waiting(Notes(c, v, |c.bridge.keys|))
  {
    var members := c.bridge.at[b].member;
    var i := KeyIndex(members.keys, x);
    MemberIsNoted(v, b, members, |members.keys|, i);
    var j := KeyIndex(c.bridge.keys, b);
    StanzaIsNoted(c, v, AwaitingAttach(x, b), |c.bridge.keys|, j);
    var notes := Notes(c, v, |c.bridge.keys|);
    var l :| 0 <= l < |notes| && notes[l] == AwaitingAttach(x, b);
  }

  /** A member that does not await attachment is done after such a pass, and attached. */
  lemma NotWaitingIsAttached(c: Config, k: Kernel, v: KernelInterfaces, pf: PfState, k': Kernel, b: Name, x: Name)
    requires Situation(c, k, v, pf) && b in c.bridge.at && x in c.bridge.at[b].member.at
    requires BridgeDone(c, b, k') && KeepsClaimed(c, k, k')
    requires x !in Waiting(PlannedPhases(c, v, Some(pf)).notes)
    ensures x in k'.ifs && InBridge(k', b, x)
  {
    var m := c.bridge.at[b].member.at[x];
    assert x in c.bridge.at[b].member.keys;
    assert Claims(c, b, x);
    assert Claimed(c, x);
    assert MemberDone(c, b, x, m, k');
    if !m.typed {
      assert v.Has(x) by {
        if !v.Has(x) { AbsentIsNoted(c, v, b, x); }
      }
      assert x in k.ifs;
    }
  }

  lemma UpIsNotWaiting(ports: seq<Port>, notes: seq<Note>, i: nat)
    requires i < |ports| && ports[i].id in NowUp(Rendered(ports), notes)
    ensures MemberName(ports[i]) !in Waiting(notes)
  {
  }

  lemma PortIsThere(c: Config, ports: seq<Port>, info: SgInfo, mappings: map<Name, Name>, digest: SegmentKey -> string, i: nat)
    requires BuiltFrom(c, ports, info, mappings, digest) && LastInPlace(ports, digest, i)
    ensures i < |ports|
    ensures var b := BridgeName(KeyOf(ports[i]), digest); b in c.bridge.at && MemberName(ports[i]) in c.bridge.at[b].member.at
  {
    PortIsMember(ports, info, mappings, digest, i);
  }

  /** Up means attached: if no receipt of a pass from home failed, every device it reports up
      has its tap or epair in its segment's bridge, and a secured port's anchor decides every
      packet as its policy says. */
  lemma UpMeansAttached(c: Config, ports: seq<Port>, info: SgInfo, mappings: map<Name, Name>, digest: SegmentKey -> string, i: nat,
                        k: Kernel, v: KernelInterfaces, pf: PfState, outcomes: nat -> Outcome, p: Packet, inNet: Matcher)
    requires BuiltFrom(c, ports, info, mappings, digest) && LastInPlace(ports, digest, i)
    requires Situation(c, k, v, pf) && Ready(c, k) && Home(c, k)
    requires NoneFailed(PlannedPhases(c, v, Some(pf)).Ops(), outcomes, k)
    requires ports[i].id in NowUp(Rendered(ports), PlannedPhases(c, v, Some(pf)).notes)
    ensures var k' := Run(PlannedPhases(c, v, Some(pf)).Ops(), outcomes, k);
            var b, x := BridgeName(KeyOf(ports[i]), digest), MemberName(ports[i]);
            && x in k'.ifs && InBridge(k', b, x)
            && (PlainPorts(ports, info) && LastWithFilter(ports, i) && OwnTables(ports, info, i) ==>
                  Enforced(k', b, x, ports[i], info, p, inNet))
  {
    var ops := PlannedPhases(c, v, Some(pf)).Ops();
    var k' := Run(ops, outcomes, k);
    var b := BridgeName(KeyOf(ports[i]), digest);
    assert Valid(c) && Resolved(c);
    PortIsThere(c, ports, info, mappings, digest, i);
    hide Situation, Ready, Home, NoneFailed, PlannedPhases, RealizedBut, Resolved, Valid, BridgeDone, KeepsClaimed, BuiltFrom,
      PlainPorts, LastWithFilter, OwnTables, Enforced, LastInPlace, MemberName, KeyOf, NowUp, Waiting, Rendered;
    CleanReceiptsRealize(c, k, v, pf, outcomes);
    RealizedIsDone(c, k');
    UpIsNotWaiting(ports, PlannedPhases(c, v, Some(pf)).notes, i);
    NotWaitingIsAttached(c, k, v, pf, k', b, MemberName(ports[i]));
    PortIsDone(c, ports, info, mappings, digest, i, k');
    if PlainPorts(ports, info) && LastWithFilter(ports, i) && OwnTables(ports, info, i) {
      DoneIsEnforced(c, ports, info, mappings, digest, i, k', b, p, inNet);
    }
  }
}
