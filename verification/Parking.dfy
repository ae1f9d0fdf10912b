/**
 Passes in which only destroys are held up (an interface kept open blocks its destroy).
 */
module Parking {
  import opened Collections
  import opened Model
  import opened Pf
  import opened Ops
  import opened KernelModel
  import opened View
  import opened Planner
  import opened Reading
  import opened PlanContents
  import opened Phases
  import opened AddsPhase
  import opened AddsContents
  import opened Realization
  import opened Convergence
  import opened Fixpoint

  predicate WorksAt(outcomes: nat -> Outcome, base: nat, i: nat) {
    outcomes(base + i).Works?
  }

  /** The ops of a run that did their work; the first op has index base. */
  function Survivors(ops: seq<Op>, outcomes: nat -> Outcome, base: nat): seq<Op> {
    if ops == [] then [] else
      Survivors(ops[..|ops| - 1], outcomes, base)
      + if WorksAt(outcomes, base, |ops| - 1) then [ops[|ops| - 1]] else []
  }

  lemma {:induction false} SplitApply(a: seq<Op>, b: seq<Op>, k: Kernel)
    requires Executable(a + b, k)
    ensures Executable(a, k) && Executable(b, Apply(a, k)) && Apply(a + b, k) == Apply(b, Apply(a, k))
    decreases |a|
  {
    if a == [] {
      assert a + b == b;
    } else {
      assert (a + b)[1..] == a[1..] + b;
      SplitApply(a[1..], b, Effect(a[0], k));
    }
  }

  /** A run is the fault-free run of the ops that survive, when those are all accepted. */
  lemma {:induction false} RunIsSurvivors(ops: seq<Op>, outcomes: nat -> Outcome, k: Kernel)
    requires Executable(Survivors(ops, outcomes, 0), k)
    ensures Run(ops, outcomes, k) == Apply(Survivors(ops, outcomes, 0), k)
  {
    if ops != [] {
      var before, op := ops[..|ops| - 1], ops[|ops| - 1];
      var rest := Survivors(before, outcomes, 0);
      if WorksAt(outcomes, 0, |ops| - 1) {
        SplitApply(rest, [op], k);
        RunIsSurvivors(before, outcomes, k);
        RunOne(op, Apply(rest, k));
      } else {
        assert rest + [] == rest;
        RunIsSurvivors(before, outcomes, k);
      }
    }
  }

  lemma {:induction false} SurvivorsConcat(a: seq<Op>, b: seq<Op>, outcomes: nat -> Outcome, base: nat)
    ensures Survivors(a + b, outcomes, base) == Survivors(a, outcomes, base) + Survivors(b, outcomes, base + |a|)
  {
    if b == [] {
      assert a + b == a;
    } else {
      assert (a + b)[..|a + b| - 1] == a + b[..|b| - 1];
      SurvivorsConcat(a, b[..|b| - 1], outcomes, base);
    }
  }

  lemma {:induction false} AllSurvive(ops: seq<Op>, outcomes: nat -> Outcome, base: nat)
    requires forall i :: 0 <= i < |ops| ==> WorksAt(outcomes, base, i)
    ensures Survivors(ops, outcomes, base) == ops
  {
    if ops != [] {
      AllSurvive(ops[..|ops| - 1], outcomes, base);
    }
  }

  /** A fault-free run is `Apply`. */
  lemma FaultFreeRun(ops: seq<Op>, outcomes: nat -> Outcome, k: Kernel)
    requires Executable(ops, k)
    requires forall i :: 0 <= i < |ops| ==> WorksAt(outcomes, 0, i)
    ensures Run(ops, outcomes, k) == Apply(ops, k)
  {
    AllSurvive(ops, outcomes, 0);
    RunIsSurvivors(ops, outcomes, k);
  }

  lemma {:induction false} SurvivorMembers(ops: seq<Op>, outcomes: nat -> Outcome, base: nat)
    requires NoDup(ops)
    ensures NoDup(Survivors(ops, outcomes, base))
    ensures forall i :: 0 <= i < |ops| ==> (ops[i] in Survivors(ops, outcomes, base) <==> WorksAt(outcomes, base, i))
    ensures forall op :: op in Survivors(ops, outcomes, base) ==> op in ops
  {
    if ops != [] {
      var before, op := ops[..|ops| - 1], ops[|ops| - 1];
      SurvivorMembers(before, outcomes, base);
      assert ops == before + [op];
      assert op !in before;
      forall i | 0 <= i < |ops| ensures ops[i] in Survivors(ops, outcomes, base) <==> WorksAt(outcomes, base, i) {
        if i < |ops| - 1 {
          assert before[i] == ops[i];
        }
      }
    }
  }

  /** Only destroys were held up. */
  ghost predicate OnlyDestroysHeld(ops: seq<Op>, outcomes: nat -> Outcome) {
    forall i :: 0 <= i < |ops| && !WorksAt(outcomes, 0, i) ==> IsDestroy(ops[i])
  }

  /** The names whose destroys were held up. */
  function HeldNames(ops: seq<Op>, outcomes: nat -> Outcome): set<Name> {
    set i | 0 <= i < |ops| && !WorksAt(outcomes, 0, i) && IsDestroy(ops[i]) :: ops[i].name
  }

  lemma HeldDestructions(c: Config, k: Kernel, destroys: seq<Op>, outcomes: nat -> Outcome, base: nat, held: set<Name>)
    requires Resolved(c) && NoDup(destroys) && forall op :: op in destroys <==> IsDestruction(c, k, op)
    requires forall i :: 0 <= i < |destroys| && !WorksAt(outcomes, base, i) ==> IsDestroy(destroys[i])
    requires forall x :: x in held <==> exists i :: 0 <= i < |destroys| && !WorksAt(outcomes, base, i)
                                                    && IsDestroy(destroys[i]) && destroys[i].name == x
    ensures Destructions(c, k, Survivors(destroys, outcomes, base), held)
  {
    var left := Survivors(destroys, outcomes, base);
    SurvivorMembers(destroys, outcomes, base);
    forall op ensures op in left <==> IsDestruction(c, k, op) && !(IsDestroy(op) && op.name in held) {
      if op in destroys {
        var i :| 0 <= i < |destroys| && destroys[i] == op;
        if IsDestroy(op) && op.name in held {
          var j :| 0 <= j < |destroys| && !WorksAt(outcomes, base, j) && IsDestroy(destroys[j]) && destroys[j].name == op.name;
          assert destroys[j] in destroys;
          assert destroys[j] == op;
        }
      }
    }
    forall x | x in held ensures Condemned(c, k, x) || DoomedBridge(c, k, x) {
      var i :| 0 <= i < |destroys| && !WorksAt(outcomes, base, i) && IsDestroy(destroys[i]) && destroys[i].name == x;
      assert destroys[i] in destroys;
    }
  }

  /** A pass from home whose only setbacks are held destroys realizes the document but for them. */
  lemma HeldPassRealizes(c: Config, k: Kernel, v: KernelInterfaces, pf: PfState, outcomes: nat -> Outcome)
    requires Situation(c, k, v, pf) && Ready(c, k) && Home(c, k)
    requires OnlyDestroysHeld(PlannedPhases(c, v, Some(pf)).Ops(), outcomes)
    ensures var ops := PlannedPhases(c, v, Some(pf)).Ops();
            var k' := Run(ops, outcomes, k);
            && RealizedBut(c, k', HeldNames(ops, outcomes)) && Ready(c, k') && Home(c, k')
            && KeepsClaimed(c, k, k')
  {
    var p := PlannedPhases(c, v, Some(pf));
    var early := p.creates + p.removes + p.adds;
    EarlyPhasesDestroyNothing(c, k, v, pf);
    RunUpToAdds(c, k, v, pf);
    DestroysAre(c, k, v, pf);
    assert p.Ops() == early + p.destroys;
    HeldRun(c, k, early, p.destroys, outcomes);
  }

  lemma HeldRun(c: Config, k: Kernel, early: seq<Op>, late: seq<Op>, outcomes: nat -> Outcome)
    requires Valid(c) && Ready(c, k) && Home(c, k)
    requires forall op :: op in early ==> !IsDestroy(op)
    requires NoDup(late) && forall op :: op in late <==> IsDestruction(c, k, op)
    requires OnlyDestroysHeld(early + late, outcomes)
    requires Executable(early, k) && Populated(c, k, Apply(early, k))
    ensures var k' := Run(early + late, outcomes, k);
            && RealizedBut(c, k', HeldNames(early + late, outcomes)) && Ready(c, k') && Home(c, k')
            && KeepsClaimed(c, k, k')
  {
    var held := HeldNames(early + late, outcomes);
    HeldSurvivors(c, k, early, late, outcomes);
    RunHeld(c, k, early, late, Survivors(late, outcomes, |early|), outcomes, held);
  }

  lemma HeldSurvivors(c: Config, k: Kernel, early: seq<Op>, late: seq<Op>, outcomes: nat -> Outcome)
    requires Resolved(c)
    requires forall op :: op in early ==> !IsDestroy(op)
    requires NoDup(late) && forall op :: op in late <==> IsDestruction(c, k, op)
    requires OnlyDestroysHeld(early + late, outcomes)
    ensures Survivors(early + late, outcomes, 0) == early + Survivors(late, outcomes, |early|)
    ensures Destructions(c, k, Survivors(late, outcomes, |early|), HeldNames(early + late, outcomes))
  {
    hide IsDestruction, Destructions, Resolved, WorksAt, Survivors, HeldNames, NoDup, OnlyDestroysHeld;
    HeldAreLate(early, late, outcomes);
    AllSurvive(early, outcomes, 0);
    SurvivorsConcat(early, late, outcomes, 0);
    HeldDestructions(c, k, late, outcomes, |early|, HeldNames(early + late, outcomes));
  }

  lemma RunHeld(c: Config, k: Kernel, early: seq<Op>, late: seq<Op>, left: seq<Op>, outcomes: nat -> Outcome, held: set<Name>)
    requires Valid(c) && Ready(c, k) && Home(c, k)
    requires Survivors(early + late, outcomes, 0) == early + left && Destructions(c, k, left, held)
    requires Executable(early, k) && Populated(c, k, Apply(early, k))
    ensures var k' := Run(early + late, outcomes, k);
            RealizedBut(c, k', held) && Ready(c, k') && Home(c, k') && KeepsClaimed(c, k, k')
  {
    var k3 := Apply(early, k);
    RunDestroysPhase(c, k, k3, left, held);
    ApplyConcat(early, left, k);
    RunIsSurvivors(early + late, outcomes, k);
    var k4 := Apply(left, k3);
    FinishedRealizes(c, k, k3, k4, held);
    FinishedReady(c, k, k3, k4, held);
    FinishedKeepsClaimed(c, k, k3, k4, held);
  }

  /** No claimed interface disappears. */
  ghost predicate KeepsClaimed(c: Config, k: Kernel, k': Kernel)
    requires Resolved(c)
  {
    forall x :: Claimed(c, x) && x in k.ifs ==> x in k'.ifs
  }

  lemma FinishedKeepsClaimed(c: Config, k: Kernel, k3: Kernel, k4: Kernel, held: set<Name>)
    requires Valid(c) && Ready(c, k) && Home(c, k) && Finished(c, k, k3, k4, held)
    ensures KeepsClaimed(c, k, k4)
  {
    forall x | Claimed(c, x) && x in k.ifs ensures x in k4.ifs {
      assert x !in c.bridge.at;
      HomeIsSafe(c, k, x);
      FinishedIface(c, k, k3, k4, held, x);
      assert x in k3.ifs;
    }
  }

  lemma EarlyPhasesDestroyNothing(c: Config, k: Kernel, v: KernelInterfaces, pf: PfState)
    requires Situation(c, k, v, pf)
    ensures var p := PlannedPhases(c, v, Some(pf));
            forall op :: op in p.creates + p.removes + p.adds ==> !IsDestroy(op)
  {
    var p := PlannedPhases(c, v, Some(pf));
    CreatesAre(c, k, v, pf, |c.bridge.keys|);
    RemovesAre(c, k, v, pf);
    AddsAre(c, k, v, pf, |c.bridge.keys|);
    forall op | op in p.creates + p.removes + p.adds ensures !IsDestroy(op) {
      assert op in p.creates || op in p.removes || op in p.adds;
      EarlyOpsDestroyNothing(c, k, op);
    }
  }

  lemma EarlyOpsDestroyNothing(c: Config, k: Kernel, op: Op)
    requires Resolved(c) && (IsCreate(c, k, op) || IsRemove(c, k, op) || IsAdd(c, k, op))
    ensures !IsDestroy(op)
  {
  }

  lemma HeldAreLate(early: seq<Op>, late: seq<Op>, outcomes: nat -> Outcome)
    requires OnlyDestroysHeld(early + late, outcomes)
    requires forall op :: op in early ==> !IsDestroy(op)
    ensures forall i :: 0 <= i < |early| ==> WorksAt(outcomes, 0, i)
    ensures forall x :: x in HeldNames(early + late, outcomes) <==>
                          exists i :: 0 <= i < |late| && !WorksAt(outcomes, |early|, i) && IsDestroy(late[i]) && late[i].name == x
    ensures forall i :: 0 <= i < |late| && !WorksAt(outcomes, |early|, i) ==> IsDestroy(late[i])
  {
    var ops := early + late;
    forall i | 0 <= i < |early| ensures !IsDestroy(ops[i]) {
      assert ops[i] == early[i];
      assert early[i] in early;
    }
    forall i | 0 <= i < |late| ensures ops[|early| + i] == late[i] && (WorksAt(outcomes, 0, |early| + i) <==> WorksAt(outcomes, |early|, i)) {}
    forall x | x in HeldNames(ops, outcomes)
      ensures exists i :: 0 <= i < |late| && !WorksAt(outcomes, |early|, i) && IsDestroy(late[i]) && late[i].name == x
    {
      var i :| 0 <= i < |ops| && !WorksAt(outcomes, 0, i) && IsDestroy(ops[i]) && ops[i].name == x;
      var j := i - |early|;
      assert ops[|early| + j] == late[j];
    }
  }

  /** The pass after one whose only setbacks were held destroys plans exactly those destroys. */
  lemma HeldDestroysAreRetried(c: Config, k: Kernel, v: KernelInterfaces, pf: PfState, outcomes: nat -> Outcome,
                               v': KernelInterfaces, pf': PfState)
    requires Situation(c, k, v, pf) && Ready(c, k) && Home(c, k)
    requires OnlyDestroysHeld(PlannedPhases(c, v, Some(pf)).Ops(), outcomes)
    requires var k' := Run(PlannedPhases(c, v, Some(pf)).Ops(), outcomes, k);
             Reads(k', c, v') && ReadsPf(k', pf')
    ensures var ops := PlannedPhases(c, v, Some(pf)).Ops();
            var k' := Run(ops, outcomes, k);
            && Planned(c, v', Some(pf')).Ok?
            && var next := Planned(c, v', Some(pf')).value.Ops();
               NoDup(next) && forall op :: op in next <==> Redestroys(k', HeldNames(ops, outcomes), op)
  {
    var ops := PlannedPhases(c, v, Some(pf)).Ops();
    HeldPassRealizes(c, k, v, pf, outcomes);
    NextPlanIsTheParked(c, Run(ops, outcomes, k), v', pf', HeldNames(ops, outcomes));
  }
}
