/**
 Policy before membership: at every point of every run, whatever else fails.
 The planner keeps the order; the writer does not stop when a ruleset fails to load,
 so the guarantee is exactly as strong as the loads that worked.
 */
module Policy {
  import opened Collections
  import opened Model
  import opened Pf
  import opened Ops
  import opened KernelModel
  import opened View
  import opened Planner
  import opened Reading
  import opened PlanContents
  import opened AddsPhase
  import opened AddsContents
  import opened Realization
  import opened Convergence
  import opened Failures
  import opened Parking

  // ------------------------------------------------- loads come before attaches

  predicate IsLoad(op: Op, x: Name) {
    op.LoadAnchor? && op.ifname == x
  }

  predicate IsAttach(op: Op, x: Name) {
    op.AddMember? && op.member == x
  }

  /** Each attach of x has a load of its anchor somewhere before it. */
  ghost predicate LoadsFirst(ops: seq<Op>, x: Name) {
    forall j :: 0 <= j < |ops| && IsAttach(ops[j], x) ==> exists i :: 0 <= i < j && IsLoad(ops[i], x)
  }

  lemma LoadsFirstConcat(a: seq<Op>, b: seq<Op>, x: Name)
    requires LoadsFirst(a, x) && LoadsFirst(b, x)
    ensures LoadsFirst(a + b, x)
  {
    var ops := a + b;
    forall j | 0 <= j < |ops| && IsAttach(ops[j], x) ensures exists i :: 0 <= i < j && IsLoad(ops[i], x) {
      if j < |a| {
        assert ops[j] == a[j];
        var i :| 0 <= i < j && IsLoad(a[i], x);
        assert IsLoad(ops[i], x);
      } else {
        assert ops[j] == b[j - |a|];
        var i :| 0 <= i < j - |a| && IsLoad(b[i], x);
        assert IsLoad(ops[|a| + i], x);
      }
    }
  }

  lemma NoAttach(ops: seq<Op>, x: Name)
    requires forall op :: op in ops ==> !IsAttach(op, x)
    ensures LoadsFirst(ops, x)
  {
    forall j | 0 <= j < |ops| ensures !IsAttach(ops[j], x) {
      assert ops[j] in ops;
    }
  }

  lemma AttachLoadsFirst(c: Config, v: KernelInterfaces, pf: PfState, b: Name, x: Name, m: Member)
    requires Resolved(c) && NeedsLoad(c, m, pf, x)
    ensures LoadsFirst(AttachOps(c, v, Some(pf), b, x, m), x)
  {
    var load := LoadOps(c, x, m, Some(pf));
    var ops := AttachOps(c, v, Some(pf), b, x, m);
    assert load == [LoadAnchor(x, m.filter, WantedRules(c, m), MemberTables(c, m))];
    if !v.Has(x) {
      if m.typed {
        assert IsLoad(ops[1], x);
      }
    } else if x !in v.MembersOf(b) {
      assert IsLoad(ops[0], x);
    }
  }

  /** The adds of a member that needs its ruleset load it first. */
  lemma MemberLoadsFirst(c: Config, v: KernelInterfaces, pf: PfState, b: Name, x: Name, m: Member)
    requires Valid(c) && NeedsLoad(c, m, pf, x)
    ensures LoadsFirst(MemberAdds(c, v, Some(pf), b, x, m), x)
  {
    var attach, tables, lock := AttachOps(c, v, Some(pf), b, x, m), TableOps(c, x, m, Some(pf)), LockOps(v, b, x, m);
    AttachLoadsFirst(c, v, pf, b, x, m);
    NoAttach(tables, x);
    NoAttach(lock, x);
    LoadsFirstConcat(attach, tables, x);
    LoadsFirstConcat(attach + tables, lock, x);
  }

  lemma MemberAddsTargets(c: Config, v: KernelInterfaces, pf: PfState, b: Name, x: Name, m: Member)
    requires Valid(c)
    ensures forall op :: op in MemberAdds(c, v, Some(pf), b, x, m) ==> Target(op) == x
  {
    var wanted := MemberTables(c, m);
    if HasPolicy(c, m) && AnchorCurrent(c, m, pf, x) {
      TableDriftOps(x, Sorted(wanted.Keys), wanted, pf[x]);
    }
    LoadTargets(c, v, pf, b, x, m);
  }

  lemma LoadTargets(c: Config, v: KernelInterfaces, pf: PfState, b: Name, x: Name, m: Member)
    requires Valid(c)
    ensures forall op :: op in AttachOps(c, v, Some(pf), b, x, m) ==> Target(op) == x
  {
    var load := LoadOps(c, x, m, Some(pf));
    assert forall op :: op in load ==> Target(op) == x;
  }

  lemma {:induction false} MembersLoadFirst(c: Config, v: KernelInterfaces, pf: PfState, b: Name, members: Dict<Member>, j: nat, x: Name)
    requires Valid(c) && members.Valid() && j <= |members.keys|
    requires x in members.at ==> NeedsLoad(c, members.at[x], pf, x)
    ensures LoadsFirst(MembersAdds(c, v, Some(pf), b, members, j), x)
  {
    hide MemberAdds, NeedsLoad, Resolved;
    if j > 0 {
      var y := members.keys[j - 1];
      assert y in members.keys;
      var ops := MemberAdds(c, v, Some(pf), b, y, members.at[y]);
      MembersLoadFirst(c, v, pf, b, members, j - 1, x);
      if y == x {
        MemberLoadsFirst(c, v, pf, b, x, members.at[x]);
      } else {
        MemberAddsTargets(c, v, pf, b, y, members.at[y]);
        NoAttach(ops, x);
      }
      LoadsFirstConcat(MembersAdds(c, v, Some(pf), b, members, j - 1), ops, x);
    }
  }

  lemma BridgeLoadsFirst(c: Config, v: KernelInterfaces, pf: PfState, b: Name, x: Name, b': Name)
    requires Valid(c) && Distinct(c) && b' in c.bridge.at
    requires PoliciedMember(c, b, x) && NeedsLoad(c, c.bridge.at[b].member.at[x], pf, x)
    ensures LoadsFirst(BridgeAdds(c, v, Some(pf), b'), x)
  {
    var bridge := c.bridge.at[b'];
    var members, uplink := MembersAdds(c, v, Some(pf), b', bridge.member, |bridge.member.keys|), UplinkAdds(c, v, b', bridge);
    OtherStanzas(c, b, x, b');
    MembersLoadFirst(c, v, pf, b', bridge.member, |bridge.member.keys|, x);
    NoAttach(uplink, x);
    LoadsFirstConcat(members, uplink, x);
  }

  lemma {:induction false} AddsLoadFirst(c: Config, v: KernelInterfaces, pf: PfState, i: nat, b: Name, x: Name, adds: seq<Op>)
    requires Valid(c) && Distinct(c) && i <= |c.bridge.keys|
    requires PoliciedMember(c, b, x) && NeedsLoad(c, c.bridge.at[b].member.at[x], pf, x)
    requires adds == Adds(c, v, Some(pf), i)
    ensures LoadsFirst(adds, x)
  {
    hide NeedsLoad, Distinct, BridgeAdds, PoliciedMember;
    if i > 0 {
      var b' := c.bridge.keys[i - 1];
      assert b' in c.bridge.keys;
      var before, ops := Adds(c, v, Some(pf), i - 1), BridgeAdds(c, v, Some(pf), b');
      AddsLoadFirst(c, v, pf, i - 1, b, x, before);
      BridgeLoadsFirst(c, v, pf, b, x, b');
      LoadsFirstTogether(adds, before, ops, x);
    }
  }

  lemma LoadsFirstTogether(whole: seq<Op>, a: seq<Op>, b: seq<Op>, x: Name)
    requires whole == a + b && LoadsFirst(a, x) && LoadsFirst(b, x)
    ensures LoadsFirst(whole, x)
  {
    LoadsFirstConcat(a, b, x);
  }

  lemma OtherStanzas(c: Config, b: Name, x: Name, b': Name)
    requires Valid(c) && Distinct(c) && PoliciedMember(c, b, x) && b' in c.bridge.at
    ensures x in c.bridge.at[b'].member.at ==> b' == b
    ensures x !in UplinkNames(c, c.bridge.at[b'])
  {
    assert x in c.bridge.at[b].member.keys;
    assert Claims(c, b, x);
    assert Claims(c, b', x) ==> b' == b;
    MemberIsNotUplink(c, b, x);
  }

  /** In a whole plan, a member whose ruleset is not loaded yet is attached only after its load. */
  lemma PlanLoadsFirst(c: Config, k: Kernel, v: KernelInterfaces, pf: PfState, b: Name, x: Name)
    requires Situation(c, k, v, pf) && Distinct(c)
    requires PoliciedMember(c, b, x) && !RulesOk(c, c.bridge.at[b].member.at[x], k, x)
    ensures LoadsFirst(PlannedPhases(c, v, Some(pf)).Ops(), x)
  {
    var p := PlannedPhases(c, v, Some(pf));
    OnlyAddsAttach(c, k, v, pf, x);
    AddsLoadFirst(c, v, pf, |c.bridge.keys|, b, x, p.adds);
    LoadsFirstConcat(p.creates, p.removes, x);
    LoadsFirstConcat(p.creates + p.removes, p.adds, x);
    LoadsFirstConcat(p.creates + p.removes + p.adds, p.destroys, x);
  }

  lemma OthersDoNotAttach(c: Config, k: Kernel, op: Op, x: Name)
    requires Resolved(c) && (IsCreate(c, k, op) || IsRemove(c, k, op) || IsDestruction(c, k, op))
    ensures !IsAttach(op, x)
  {
  }

  lemma OnlyAddsAttach(c: Config, k: Kernel, v: KernelInterfaces, pf: PfState, x: Name)
    requires Situation(c, k, v, pf)
    ensures var p := PlannedPhases(c, v, Some(pf));
            LoadsFirst(p.creates, x) && LoadsFirst(p.removes, x) && LoadsFirst(p.destroys, x)
  {
    var p := PlannedPhases(c, v, Some(pf));
    CreatesAre(c, k, v, pf, |c.bridge.keys|);
    RemovesAre(c, k, v, pf);
    DestroysAre(c, k, v, pf);
    forall op | IsCreate(c, k, op) || IsRemove(c, k, op) || IsDestruction(c, k, op) ensures !IsAttach(op, x) {
      OthersDoNotAttach(c, k, op, x);
    }
    hide Situation, PlannedPhases, IsCreate, IsRemove, IsDestruction, IsAttach, LoadsFirst;
    NoAttach(p.creates, x);
    NoAttach(p.removes, x);
    NoAttach(p.destroys, x);
  }

  // -------------------------------------------------- rulesets along a run

  /** Among the first i ops, a load of x's anchor worked. */
  ghost predicate LoadWorked(ops: seq<Op>, outcomes: nat -> Outcome, i: nat, x: Name)
    requires i <= |ops|
  {
    exists j :: 0 <= j < i && IsLoad(ops[j], x) && outcomes(j).Works?
  }

  /** Ops that load only the wanted rules under x and never flush it. */
  ghost predicate KeepsRules(c: Config, m: Member, ops: seq<Op>, x: Name) {
    forall i :: 0 <= i < |ops| ==>
                  && (IsLoad(ops[i], x) ==> ops[i].rules == WantedRules(c, m))
                  && ops[i] != FlushAnchor(x)
  }

  lemma StepRules(c: Config, m: Member, op: Op, outcome: Outcome, k: Kernel, x: Name)
    requires IsLoad(op, x) ==> op.rules == WantedRules(c, m)
    requires op != FlushAnchor(x)
    ensures RulesOk(c, m, Step(op, outcome, k), x) <==> RulesOk(c, m, k, x) || (IsLoad(op, x) && outcome.Works?)
  {
  }

  lemma {:induction false} RunRules(c: Config, m: Member, ops: seq<Op>, outcomes: nat -> Outcome, k: Kernel, x: Name, i: nat)
    requires i <= |ops| && KeepsRules(c, m, ops, x)
    ensures RulesOk(c, m, Run(ops[..i], outcomes, k), x) <==> RulesOk(c, m, k, x) || LoadWorked(ops, outcomes, i, x)
  {
    if i > 0 {
      assert ops[..i][..i - 1] == ops[..i - 1];
      RunRules(c, m, ops, outcomes, k, x, i - 1);
      StepRules(c, m, ops[i - 1], outcomes(i - 1), Run(ops[..i - 1], outcomes, k), x);
      assert Run(ops[..i], outcomes, k) == Step(ops[i - 1], outcomes(i - 1), Run(ops[..i - 1], outcomes, k));
      LoadWorkedStep(ops, outcomes, i, x);
    }
  }

  lemma LoadWorkedStep(ops: seq<Op>, outcomes: nat -> Outcome, i: nat, x: Name)
    requires 0 < i <= |ops|
    ensures LoadWorked(ops, outcomes, i, x) <==>
              LoadWorked(ops, outcomes, i - 1, x) || (IsLoad(ops[i - 1], x) && outcomes(i - 1).Works?)
  {
  }

  lemma PlanKeepsRules(c: Config, k: Kernel, v: KernelInterfaces, pf: PfState, b: Name, x: Name)
    requires Situation(c, k, v, pf) && Distinct(c) && Home(c, k) && PoliciedMember(c, b, x)
    ensures KeepsRules(c, c.bridge.at[b].member.at[x], PlannedPhases(c, v, Some(pf)).Ops(), x)
  {
    var ops := PlannedPhases(c, v, Some(pf)).Ops();
    PlannedOpsAre(c, k, v, pf);
    forall i | 0 <= i < |ops|
      ensures IsLoad(ops[i], x) ==> ops[i].rules == WantedRules(c, c.bridge.at[b].member.at[x])
      ensures ops[i] != FlushAnchor(x)
    {
      assert ops[i] in ops;
      PlannedOpKeepsRules(c, k, ops[i], b, x);
    }
  }

  lemma FlushIsNotPlanned(c: Config, k: Kernel, b: Name, x: Name)
    requires Valid(c) && WellFormed(k) && Home(c, k) && PoliciedMember(c, b, x)
    ensures !IsPlanned(c, k, FlushAnchor(x))
  {
    assert x in c.bridge.at[b].member.keys;
    assert Claims(c, b, x);
    HomeIsSafe(c, k, x);
    assert Policied(c, x);
  }

  lemma PlannedOpKeepsRules(c: Config, k: Kernel, op: Op, b: Name, x: Name)
    requires Valid(c) && WellFormed(k) && Distinct(c) && Home(c, k) && PoliciedMember(c, b, x) && IsPlanned(c, k, op)
    ensures IsLoad(op, x) ==> op.rules == WantedRules(c, c.bridge.at[b].member.at[x])
    ensures op != FlushAnchor(x)
  {
    FlushIsNotPlanned(c, k, b, x);
    hide IsRemove, IsDestruction, Home, WellFormed;
    if IsLoad(op, x) {
      var b' :| b' in c.bridge.at && AddFor(c, k, b', op);
      OtherStanzas(c, b, x, b');
    }
  }

  /** At every point of every run from home, a policied member carries its ruleset exactly
      when it did at the start or a load of it has worked since. */
  lemma RulesetExactly(c: Config, k: Kernel, v: KernelInterfaces, pf: PfState, outcomes: nat -> Outcome, b: Name, x: Name, i: nat)
    requires Situation(c, k, v, pf) && Distinct(c) && Home(c, k) && PoliciedMember(c, b, x)
    requires i <= |PlannedPhases(c, v, Some(pf)).Ops()|
    ensures var ops := PlannedPhases(c, v, Some(pf)).Ops();
            var m := c.bridge.at[b].member.at[x];
            RulesOk(c, m, Run(ops[..i], outcomes, k), x) <==> RulesOk(c, m, k, x) || LoadWorked(ops, outcomes, i, x)
  {
    PlanKeepsRules(c, k, v, pf, b, x);
    RunRules(c, c.bridge.at[b].member.at[x], PlannedPhases(c, v, Some(pf)).Ops(), outcomes, k, x, i);
  }

  lemma {:induction false} AttachedByRun(ops: seq<Op>, outcomes: nat -> Outcome, k: Kernel, b: Name, x: Name, i: nat)
    requires i <= |ops| && InBridge(Run(ops[..i], outcomes, k), b, x) && !InBridge(k, b, x)
    ensures exists j :: 0 <= j < i && IsAttach(ops[j], x)
  {
    assert ops[..i][..i - 1] == ops[..i - 1];
    var before := Run(ops[..i - 1], outcomes, k);
    assert Run(ops[..i], outcomes, k) == Step(ops[i - 1], outcomes(i - 1), before);
    if InBridge(before, b, x) {
      AttachedByRun(ops, outcomes, k, b, x, i - 1);
    } else {
      assert IsAttach(ops[i - 1], x);
    }
  }

  /** Policy before membership: if no load of its ruleset failed, a policied member this pass
      attached carries it, at every point of the run and whatever else fails; and a ruleset
      that was right at the start is never lost. */
  lemma PolicyBeforeMembership(c: Config, k: Kernel, v: KernelInterfaces, pf: PfState, outcomes: nat -> Outcome, b: Name, x: Name, i: nat)
    requires Situation(c, k, v, pf) && Distinct(c) && Home(c, k) && PoliciedMember(c, b, x)
    requires i <= |PlannedPhases(c, v, Some(pf)).Ops()|
    requires forall j :: 0 <= j < i && IsLoad(PlannedPhases(c, v, Some(pf)).Ops()[j], x) ==> outcomes(j).Works?
    ensures var m := c.bridge.at[b].member.at[x];
            var k' := Run(PlannedPhases(c, v, Some(pf)).Ops()[..i], outcomes, k);
            && (InBridge(k', b, x) && !InBridge(k, b, x) ==> RulesOk(c, m, k', x))
            && (RulesOk(c, m, k, x) ==> RulesOk(c, m, k', x))
  {
    hide RulesOk, Resolved;
    var ops := PlannedPhases(c, v, Some(pf)).Ops();
    var m := c.bridge.at[b].member.at[x];
    var k' := Run(ops[..i], outcomes, k);
    RulesetExactly(c, k, v, pf, outcomes, b, x, i);
    if InBridge(k', b, x) && !InBridge(k, b, x) && !RulesOk(c, m, k, x) {
      PlanLoadsFirst(c, k, v, pf, b, x);
      AttachedByRun(ops, outcomes, k, b, x, i);
      var j :| 0 <= j < i && IsAttach(ops[j], x);
      var l :| 0 <= l < j && IsLoad(ops[l], x);
      assert LoadWorked(ops, outcomes, i, x);
    }
  }

  // --------------------------------------------------- when a load does fail

  /** All but the anchors. */
  function Skeleton(k: Kernel): Kernel {
    k.(anchors := map[])
  }

  lemma StepSkeleton(op: Op, outcome: Outcome, outcome': Outcome, k: Kernel, k': Kernel)
    requires Skeleton(k) == Skeleton(k')
    requires outcome == outcome' || op.LoadAnchor?
    ensures Skeleton(Step(op, outcome, k)) == Skeleton(Step(op, outcome', k'))
  {
    assert k.ifs == k'.ifs && k.master == k'.master && k.lock == k'.lock;
  }

  lemma {:induction false} RunSkeleton(ops: seq<Op>, outcomes: nat -> Outcome, outcomes': nat -> Outcome, k: Kernel)
    requires forall i :: 0 <= i < |ops| ==> outcomes(i) == outcomes'(i) || ops[i].LoadAnchor?
    ensures Skeleton(Run(ops, outcomes, k)) == Skeleton(Run(ops, outcomes', k))
  {
    if ops != [] {
      RunSkeleton(ops[..|ops| - 1], outcomes, outcomes', k);
      StepSkeleton(ops[|ops| - 1], outcomes(|ops| - 1), outcomes'(|ops| - 1),
                   Run(ops[..|ops| - 1], outcomes, k), Run(ops[..|ops| - 1], outcomes', k));
    }
  }

  /** A failed load does not hold its member back: if only loads fail, every member that exists
      is attached when the pass ends, and a policied one carries its ruleset exactly when it did
      before or its own load worked. */
  lemma FailedLoadsStillAttach(c: Config, k: Kernel, v: KernelInterfaces, pf: PfState, outcomes: nat -> Outcome, b: Name, x: Name)
    requires Situation(c, k, v, pf) && Ready(c, k) && Home(c, k) && PoliciedMember(c, b, x)
    requires var ops := PlannedPhases(c, v, Some(pf)).Ops();
             forall i :: 0 <= i < |ops| ==> outcomes(i).Works? || ops[i].LoadAnchor?
    ensures var ops := PlannedPhases(c, v, Some(pf)).Ops();
            var k' := Run(ops, outcomes, k);
            var m := c.bridge.at[b].member.at[x];
            && (x in k'.ifs ==> InBridge(k', b, x))
            && (RulesOk(c, m, k', x) <==> RulesOk(c, m, k, x) || LoadWorked(ops, outcomes, |ops|, x))
  {
    var ops := PlannedPhases(c, v, Some(pf)).Ops();
    OnePassConverges(c, k, v, pf);
    AttachedThough(c, k, ops, outcomes, b, x);
    RulesetExactly(c, k, v, pf, outcomes, b, x, |ops|);
    assert ops[..|ops|] == ops;
  }

  lemma AttachedThough(c: Config, k: Kernel, ops: seq<Op>, outcomes: nat -> Outcome, b: Name, x: Name)
    requires Valid(c) && b in c.bridge.at && x in c.bridge.at[b].member.at
    requires Executable(ops, k) && Realized(c, Apply(ops, k))
    requires forall i :: 0 <= i < |ops| ==> outcomes(i).Works? || ops[i].LoadAnchor?
    ensures x in Run(ops, outcomes, k).ifs ==> InBridge(Run(ops, outcomes, k), b, x)
  {
    OnlyLoadsFail(ops, outcomes, k);
    RealizedMemberAttached(c, Apply(ops, k), b, x);
  }

  lemma RealizedMemberAttached(c: Config, k: Kernel, b: Name, x: Name)
    requires Valid(c) && Realized(c, k) && b in c.bridge.at && x in c.bridge.at[b].member.at
    ensures x in k.ifs ==> InBridge(k, b, x)
  {
    assert BridgeRealized(c, k, b);
    assert MemberDone(c, b, x, c.bridge.at[b].member.at[x], k);
  }

  /** Failed loads change nothing outside the anchors. */
  lemma OnlyLoadsFail(ops: seq<Op>, outcomes: nat -> Outcome, k: Kernel)
    requires Executable(ops, k)
    requires forall i :: 0 <= i < |ops| ==> outcomes(i).Works? || ops[i].LoadAnchor?
    ensures Run(ops, outcomes, k).ifs == Apply(ops, k).ifs
    ensures Run(ops, outcomes, k).master == Apply(ops, k).master
    ensures Run(ops, outcomes, k).lock == Apply(ops, k).lock
  {
    var all: nat -> Outcome := (i: nat) => Works;
    FaultFreeRun(ops, all, k);
    RunSkeleton(ops, outcomes, all, k);
    assert Skeleton(Run(ops, outcomes, k)) == Skeleton(Apply(ops, k));
  }
}
