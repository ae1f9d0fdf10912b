/**
 Passes in which ops fail. The writer runs every op whatever became of the others, so a
 run is described by the outcome of each op. `Progress` is what holds between the kernel
 a plan was made for and the kernel at any point of any run of that plan.
 */
module Failures {
  import opened Collections
  import opened Model
  import opened Pf
  import opened Ops
  import opened KernelModel
  import opened View
  import opened Planner
  import opened Reading
  import opened PlanContents
  import opened Phases
  import opened AddsPhase
  import opened AddsContents
  import opened Realization
  import opened Convergence
  import opened Fixpoint

  // ------------------------------------------------------------ every planned op

  ghost predicate IsPlanned(c: Config, k: Kernel, op: Op)
    requires Resolved(c)
  {
    IsCreate(c, k, op) || IsRemove(c, k, op) || IsAdd(c, k, op) || IsDestruction(c, k, op)
  }

  lemma PlannedOpsAre(c: Config, k: Kernel, v: KernelInterfaces, pf: PfState)
    requires Situation(c, k, v, pf)
    ensures forall op :: op in PlannedPhases(c, v, Some(pf)).Ops() ==> IsPlanned(c, k, op)
  {
    var p := PlannedPhases(c, v, Some(pf));
    CreatesAre(c, k, v, pf, |c.bridge.keys|);
    RemovesAre(c, k, v, pf);
    AddsAre(c, k, v, pf, |c.bridge.keys|);
    DestroysAre(c, k, v, pf);
    forall op | op in p.Ops() ensures IsPlanned(c, k, op) {
      assert op in p.creates || op in p.removes || op in p.adds || op in p.destroys;
    }
  }

  // ----------------------------------------------------------------- progress

  /** Interfaces: the unowned ones are untouched, the others keep their kind, new ones are owned. */
  ghost predicate IfacesProgress(c: Config, k: Kernel, k': Kernel)
    requires Resolved(c)
  {
    && (forall x :: x in k.ifs && !k.ifs[x].owned ==> x in k'.ifs && k'.ifs[x] == k.ifs[x])
    && (forall x :: x in k.ifs && x in k'.ifs ==> k'.ifs[x].isBridge == k.ifs[x].isBridge && k'.ifs[x].owned == k.ifs[x].owned)
    && (forall x :: x in k'.ifs && x !in k.ifs ==>
          k'.ifs[x].owned && if k'.ifs[x].isBridge then x in c.bridge.at else Claimed(c, x))
  }

  /** Membership: only claims are added, and only members of owned bridges are removed,
      unless the interface itself was owned. */
  ghost predicate MastersProgress(c: Config, k: Kernel, k': Kernel)
    requires Resolved(c)
  {
    && (forall x :: x in k'.master ==> Claims(c, k'.master[x], x) || InBridge(k, k'.master[x], x))
    && (forall x :: x in k.master && !IsOwned(k, x) && !IsOwned(k, k.master[x]) ==> InBridge(k', k.master[x], x))
  }

  ghost predicate Progress(c: Config, k: Kernel, k': Kernel)
    requires Resolved(c)
  {
    WellFormed(k') && IfacesProgress(c, k, k') && MastersProgress(c, k, k')
  }

  lemma NewIfaceProgress(c: Config, k: Kernel, k1: Kernel, x: Name, i: Iface)
    requires Resolved(c) && Progress(c, k, k1) && x !in k.ifs && x !in k1.ifs
    requires i.owned && if i.isBridge then x in c.bridge.at else Claimed(c, x)
    ensures Progress(c, k, k1.(ifs := k1.ifs[x := i]))
  {
    hide WellFormed, MastersProgress, IfacesProgress, Claimed;
    NewIfaceMasters(c, k, k1, x, i);
    NewIfaceIfaces(c, k, k1, x, i);
    NewIfaceWellFormed(k1, x, i);
  }

  lemma NewIfaceIfaces(c: Config, k: Kernel, k1: Kernel, x: Name, i: Iface)
    requires Resolved(c) && IfacesProgress(c, k, k1) && x !in k.ifs && x !in k1.ifs
    requires i.owned && if i.isBridge then x in c.bridge.at else Claimed(c, x)
    ensures IfacesProgress(c, k, k1.(ifs := k1.ifs[x := i]))
  {
  }

  lemma NewIfaceWellFormed(k: Kernel, x: Name, i: Iface)
    requires WellFormed(k) && x !in k.ifs
    ensures WellFormed(k.(ifs := k.ifs[x := i]))
  {
  }

  lemma NewIfaceMasters(c: Config, k: Kernel, k1: Kernel, x: Name, i: Iface)
    requires Resolved(c) && MastersProgress(c, k, k1) && x !in k1.ifs
    ensures MastersProgress(c, k, k1.(ifs := k1.ifs[x := i]))
  {
  }

  lemma SizeProgress(c: Config, k: Kernel, k1: Kernel, b: Name, mx: Option<nat>)
    requires Resolved(c) && Progress(c, k, k1) && b in k1.ifs && IsOwned(k, b)
    ensures Progress(c, k, k1.(ifs := k1.ifs[b := k1.ifs[b].(maxaddr := mx)]))
  {
  }

  /** Ops on anchors and static entries touch nothing Progress speaks of. */
  lemma SameMembersProgress(c: Config, k: Kernel, k1: Kernel, k2: Kernel)
    requires Resolved(c) && Progress(c, k, k1) && WellFormed(k2)
    requires k2.ifs == k1.ifs && k2.master == k1.master
    ensures Progress(c, k, k2)
  {
  }

  lemma MastersJoin(c: Config, k: Kernel, k1: Kernel, b: Name, x: Name)
    requires Resolved(c) && MastersProgress(c, k, k1) && Claims(c, b, x) && x !in k1.master
    ensures MastersProgress(c, k, k1.(master := k1.master[x := b]))
  {
  }

  lemma JoinProgress(c: Config, k: Kernel, k1: Kernel, b: Name, x: Name)
    requires Resolved(c) && Progress(c, k, k1) && Claims(c, b, x) && Enabled(AddMember(b, x), k1)
    ensures Progress(c, k, Effect(AddMember(b, x), k1))
  {
    EffectWellFormed(AddMember(b, x), k1);
    MastersJoin(c, k, k1, b, x);
    hide Resolved, WellFormed, MastersProgress, Claims;
  }

  lemma LeaveProgress(c: Config, k: Kernel, k1: Kernel, b: Name, x: Name)
    requires Resolved(c) && Progress(c, k, k1) && Enabled(RemoveMember(b, x), k1) && Leaves(c, k, b, x)
    ensures Progress(c, k, Effect(RemoveMember(b, x), k1))
  {
  }

  lemma DestroyProgress(c: Config, k: Kernel, k1: Kernel, op: Op)
    requires Valid(c) && WellFormed(k) && Progress(c, k, k1) && IsDestroy(op) && IsOwned(k, op.name) && Enabled(op, k1)
    ensures Progress(c, k, Effect(op, k1))
  {
    EffectWellFormed(op, k1);
    DestroyMasters(c, k, k1, op);
    hide MastersProgress, Resolved;
  }

  lemma DestroyMasters(c: Config, k: Kernel, k1: Kernel, op: Op)
    requires Valid(c) && WellFormed(k) && Progress(c, k, k1) && IsDestroy(op) && IsOwned(k, op.name) && Enabled(op, k1)
    ensures MastersProgress(c, k, Effect(op, k1))
  {
    hide Resolved, IfacesProgress;
  }

  lemma AddProgress(c: Config, k: Kernel, k1: Kernel, b: Name, op: Op)
    requires Valid(c) && WellFormed(k) && Progress(c, k, k1) && AddFor(c, k, b, op) && Enabled(op, k1)
    ensures Progress(c, k, Effect(op, k1))
  {
    EffectWellFormed(op, k1);
    match op
    case CreateTap(x, _) =>
      assert Claims(c, b, x);
      NewIfaceProgress(c, k, k1, x, Iface(false, true, None));
    case AddMember(b', x) => JoinProgress(c, k, k1, b, x);
    case LoadAnchor(_, _, _, _) => SameMembersProgress(c, k, k1, Effect(op, k1));
    case ReplaceTable(_, _, _) => SameMembersProgress(c, k, k1, Effect(op, k1));
    case LockMemberMac(_, _, _) => SameMembersProgress(c, k, k1, Effect(op, k1));
  }

  lemma CreateProgress(c: Config, k: Kernel, k1: Kernel, op: Op)
    requires Valid(c) && WellFormed(k) && NoConflict(c, k) && Progress(c, k, k1) && IsCreate(c, k, op) && Enabled(op, k1)
    ensures Progress(c, k, Effect(op, k1))
  {
    match op
    case CreateBridge(b, mx) => NewIfaceProgress(c, k, k1, b, Iface(true, true, Some(mx)));
    case SetMaxaddr(b, mx) => SizeProgress(c, k, k1, b, Some(mx));
    case CreateVlan(x, _, _) =>
      var b :| b in c.bridge.at && IsVlanOf(c, b, x);
      assert Claims(c, b, x);
      NewIfaceProgress(c, k, k1, x, Iface(false, true, None));
  }

  lemma ClearingProgress(c: Config, k: Kernel, k1: Kernel, op: Op)
    requires Valid(c) && WellFormed(k) && Progress(c, k, k1) && Enabled(op, k1)
    requires IsRemove(c, k, op) || IsDestruction(c, k, op)
    ensures Progress(c, k, Effect(op, k1))
  {
    EffectWellFormed(op, k1);
    if op.FlushAnchor? {
      SameMembersProgress(c, k, k1, Effect(op, k1));
    } else if op.RemoveMember? {
      LeaveProgress(c, k, k1, op.bridge, op.member);
    } else {
      DestroyProgress(c, k, k1, op);
    }
  }

  lemma ProgressStep(c: Config, k: Kernel, k1: Kernel, op: Op)
    requires Valid(c) && WellFormed(k) && NoConflict(c, k)
    requires Progress(c, k, k1) && IsPlanned(c, k, op) && Enabled(op, k1)
    ensures Progress(c, k, Effect(op, k1))
  {
    if IsAdd(c, k, op) {
      var b :| b in c.bridge.at && AddFor(c, k, b, op);
      AddProgress(c, k, k1, b, op);
    } else if IsCreate(c, k, op) {
      CreateProgress(c, k, k1, op);
    } else {
      ClearingProgress(c, k, k1, op);
    }
  }

  lemma {:induction false} RunProgress(c: Config, k: Kernel, ops: seq<Op>, outcomes: nat -> Outcome)
    requires Valid(c) && WellFormed(k) && NoConflict(c, k)
    requires forall op :: op in ops ==> IsPlanned(c, k, op)
    ensures Progress(c, k, Run(ops, outcomes, k))
  {
    if ops != [] {
      var before, op := ops[..|ops| - 1], ops[|ops| - 1];
      RunProgress(c, k, before, outcomes);
      var k1 := Run(before, outcomes, k);
      assert op in ops;
      if Enabled(op, k1) {
        ProgressStep(c, k, k1, op);
      }
    }
  }

  // ----------------------------------------------------------- ownership safety

  /** Bridges an op names. */
  function BridgesNamed(op: Op): set<Name> {
    match op
    case CreateBridge(n, _) => {n}
    case SetMaxaddr(b, _) => {b}
    case AddMember(b, _) => {b}
    case RemoveMember(b, _) => {b}
    case LockMemberMac(b, _, _) => {b}
    case DestroyBridge(n) => {n}
    case _ => {}
  }

  /** At every prefix of every run, whatever fails: unowned interfaces are there unchanged,
      and an unowned member of an unowned bridge is still its member. */
  lemma ForeignThingsSurvive(c: Config, k: Kernel, v: KernelInterfaces, pf: PfState, outcomes: nat -> Outcome, i: nat)
    requires Situation(c, k, v, pf)
    requires i <= |PlannedPhases(c, v, Some(pf)).Ops()|
    ensures var k' := Run(PlannedPhases(c, v, Some(pf)).Ops()[..i], outcomes, k);
            && (forall x :: x in k.ifs && !k.ifs[x].owned ==> x in k'.ifs && k'.ifs[x] == k.ifs[x])
            && (forall x :: x in k.master && !IsOwned(k, x) && !IsOwned(k, k.master[x]) ==> InBridge(k', k.master[x], x))
            && (forall b, x :: IsBridge(k, b) && !IsOwned(k, b) && InBridge(k', b, x) ==> InBridge(k, b, x))
  {
    var ops := PlannedPhases(c, v, Some(pf)).Ops();
    PlannedOpsAre(c, k, v, pf);
    RunProgress(c, k, ops[..i], outcomes);
    var k' := Run(ops[..i], outcomes, k);
    forall b, x | IsBridge(k, b) && !IsOwned(k, b) && InBridge(k', b, x) ensures InBridge(k, b, x) {
      assert b !in c.bridge.at;
    }
  }

  /** No foreign bridge is named and no foreign interface destroyed; all that befalls an unclaimed
      foreign interface is its removal from an owned bridge, or a flush. */
  ghost predicate SparesForeign(c: Config, k: Kernel, op: Op)
    requires Resolved(c)
  {
    && (forall b :: b in BridgesNamed(op) ==> b !in k.ifs || IsOwned(k, b))
    && (IsDestroy(op) ==> IsOwned(k, op.name))
    && var x := Target(op);
       x in k.ifs && !IsOwned(k, x) && !Claimed(c, x) ==>
         op.FlushAnchor? || (op.RemoveMember? && IsOwned(k, op.bridge) && InBridge(k, op.bridge, x))
  }

  lemma PlannedOpSpares(c: Config, k: Kernel, op: Op)
    requires Valid(c) && NoConflict(c, k) && IsPlanned(c, k, op)
    ensures SparesForeign(c, k, op)
  {
    assert Resolved(c);
    hide Valid;
    if IsAdd(c, k, op) {
      hide NoConflict, AddFor, IsCreate, IsRemove, IsDestruction;
      var b :| b in c.bridge.at && AddFor(c, k, b, op);
      AddTargets(c, k, b, op);
      assert Claimed(c, Target(op));
      AddedBridgeIsOurs(c, k, b);
    } else if IsCreate(c, k, op) {
      hide NoConflict, IsCreate, IsRemove, IsDestruction;
      CreateTargets(c, k, op);
    } else {
      hide NoConflict, IsCreate, IsAdd;
    }
  }

  lemma AddedBridgeIsOurs(c: Config, k: Kernel, b: Name)
    requires Resolved(c) && NoConflict(c, k) && b in c.bridge.at
    ensures b !in k.ifs || IsOwned(k, b)
  {
  }

  /** Every op of every plan spares what is foreign. */
  lemma ForeignThingsAreNotNamed(c: Config, k: Kernel, v: KernelInterfaces, pf: PfState, op: Op)
    requires Situation(c, k, v, pf) && op in PlannedPhases(c, v, Some(pf)).Ops()
    ensures SparesForeign(c, k, op)
  {
    hide PlannedPhases, IsPlanned, SparesForeign, Reads, ReadsPf, Valid, NoConflict;
    PlannedOpsAre(c, k, v, pf);
    PlannedOpSpares(c, k, op);
  }

  lemma AddTargets(c: Config, k: Kernel, b: Name, op: Op)
    requires Valid(c) && AddFor(c, k, b, op) && b in c.bridge.at
    ensures Claims(c, b, Target(op)) && !IsDestroy(op)
    ensures forall b' :: b' in BridgesNamed(op) ==> b' == b
  {
    match op
    case LoadAnchor(x, _, _, _) => assert PoliciedMember(c, b, x) && x in c.bridge.at[b].member.keys;
    case ReplaceTable(x, _, _) => assert PoliciedMember(c, b, x) && x in c.bridge.at[b].member.keys;
    case CreateTap(x, _) => assert x in c.bridge.at[b].member.keys;
    case AddMember(_, _) =>
    case LockMemberMac(_, _, _) =>
  }

  lemma CreateTargets(c: Config, k: Kernel, op: Op)
    requires Valid(c) && NoConflict(c, k) && IsCreate(c, k, op)
    ensures !IsDestroy(op) && (Target(op) in k.ifs ==> IsOwned(k, Target(op)))
    ensures forall b :: b in BridgesNamed(op) ==> b !in k.ifs || IsOwned(k, b)
  {
  }

  // ---------------------------------------------------------- failure tolerance

  lemma ProgressReady(c: Config, k: Kernel, k': Kernel)
    requires Valid(c) && Ready(c, k) && Progress(c, k, k')
    ensures Ready(c, k') && (Home(c, k) ==> Home(c, k'))
  {
    forall b | b in c.bridge.at && Manufactured(c.bridge.at[b])
      ensures var trunk := c.physnet[c.bridge.at[b].segment.value.physnet]; trunk in k'.ifs && !k'.ifs[trunk].owned
    {
    }
    forall x | Claimed(c, x) ensures !IsBridge(k', x) && (x in k'.master ==> IsOwned(k', k'.master[x])) {
      var b :| Claims(c, b, x);
      assert x !in c.bridge.at;
      if x in k'.master {
        assert IsBridge(k', k'.master[x]);
      }
    }
    ProgressNoConflict(c, k, k');
    if Home(c, k) {
      ProgressHome(c, k, k');
    }
  }

  lemma ProgressNoConflict(c: Config, k: Kernel, k': Kernel)
    requires Valid(c) && Ready(c, k) && Progress(c, k, k')
    ensures NoConflict(c, k')
  {
    assert forall x :: Claimed(c, x) ==> x !in c.bridge.at;
    forall b | b in c.bridge.at && b in k'.ifs ensures k'.ifs[b].isBridge && k'.ifs[b].owned {
      assert !Claimed(c, b);
    }
  }

  lemma ProgressHome(c: Config, k: Kernel, k': Kernel)
    requires Valid(c) && Ready(c, k) && Home(c, k) && Progress(c, k, k')
    ensures Home(c, k')
  {
    forall b, x | Claims(c, b, x) && IsOwned(k', x) && x in k'.master ensures k'.master[x] == b {
      if !Claims(c, k'.master[x], x) {
        assert InBridge(k, k'.master[x], x);
        assert x in k.ifs && IsOwned(k, x);
      }
    }
  }

  /** Whatever fails, and wherever the run is cut off, the kernel stays one that plans without
      error and that a fault-free pass brings home; and nothing at home is displaced. */
  lemma FailuresAreTolerated(c: Config, k: Kernel, v: KernelInterfaces, pf: PfState, outcomes: nat -> Outcome, i: nat)
    requires Situation(c, k, v, pf) && Ready(c, k)
    requires i <= |PlannedPhases(c, v, Some(pf)).Ops()|
    ensures var k' := Run(PlannedPhases(c, v, Some(pf)).Ops()[..i], outcomes, k);
            Ready(c, k') && (Home(c, k) ==> Home(c, k'))
  {
    var ops := PlannedPhases(c, v, Some(pf)).Ops();
    PlannedOpsAre(c, k, v, pf);
    RunProgress(c, k, ops[..i], outcomes);
    ProgressReady(c, k, Run(ops[..i], outcomes, k));
  }

  /** One later fault-free pass realizes the document after any failed pass from home. */
  lemma FaultyPassThenConverges(c: Config, k: Kernel, v: KernelInterfaces, pf: PfState, outcomes: nat -> Outcome,
                                v': KernelInterfaces, pf': PfState)
    requires Situation(c, k, v, pf) && Ready(c, k) && Home(c, k)
    requires var k' := Run(PlannedPhases(c, v, Some(pf)).Ops(), outcomes, k);
             Reads(k', c, v') && ReadsPf(k', pf')
    ensures var k' := Run(PlannedPhases(c, v, Some(pf)).Ops(), outcomes, k);
            && Planned(c, v', Some(pf')).Ok?
            && var ops := Planned(c, v', Some(pf')).value.Ops();
               Executable(ops, k') && Realized(c, Apply(ops, k'))
  {
    var ops := PlannedPhases(c, v, Some(pf)).Ops();
    var k' := Run(ops, outcomes, k);
    assert ops[..|ops|] == ops;
    FailuresAreTolerated(c, k, v, pf, outcomes, |ops|);
    ErrorIffConflict(c, k', v', pf');
    OnePassConverges(c, k', v', pf');
  }

  /** From anywhere, two fault-free passes plan without error, and the third has nothing to do. */
  lemma ThirdPlanIsEmpty(c: Config, k: Kernel, v: KernelInterfaces, pf: PfState, v': KernelInterfaces, pf': PfState, v'': KernelInterfaces, pf'': PfState)
    requires Situation(c, k, v, pf) && Ready(c, k)
    requires Executable(PlannedPhases(c, v, Some(pf)).Ops(), k)
    requires Reads(Passed(c, k, v, pf), c, v') && ReadsPf(Passed(c, k, v, pf), pf')
    requires Executable(PlannedPhases(c, v', Some(pf')).Ops(), Passed(c, k, v, pf))
    requires Reads(Passed(c, Passed(c, k, v, pf), v', pf'), c, v'') && ReadsPf(Passed(c, Passed(c, k, v, pf), v', pf'), pf'')
    ensures Planned(c, v, Some(pf)) == Ok(PlannedPhases(c, v, Some(pf)))
    ensures Planned(c, v', Some(pf')) == Ok(PlannedPhases(c, v', Some(pf')))
    ensures Planned(c, v'', Some(pf'')).Ok? && Planned(c, v'', Some(pf'')).value.Ops() == []
  {
    var k' := Passed(c, k, v, pf);
    OnePassRehomes(c, k, v, pf);
    OnePassConverges(c, k', v', pf');
    ErrorIffConflict(c, k, v, pf);
    ErrorIffConflict(c, k', v', pf');
    EmptyIffRealized(c, Passed(c, k', v', pf'), v'', pf'');
  }

  /** The kernel after one fault-free pass. */
  ghost function Passed(c: Config, k: Kernel, v: KernelInterfaces, pf: PfState): Kernel
    requires Valid(c) && Executable(PlannedPhases(c, v, Some(pf)).Ops(), k)
  {
    Apply(PlannedPhases(c, v, Some(pf)).Ops(), k)
  }
}
