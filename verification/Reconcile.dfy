/**
 The writer (l2_agent/writer.py): one op at a time, with the outcome of the subprocess
 as a parameter, and a receipt for each.
 */
module Writing {
  import opened Collections
  import opened Model
  import opened Pf
  import opened Ops
  import opened KernelModel

  datatype Receipt = Receipt(op: Op, executed: bool, ok: bool, parked: bool) {
    /** It failed outright. */
    predicate Failed() {
      !ok && !parked
    }
  }

  /** What the writer reports for an op tried on kernel k. */
  function ReceiptFor(op: Op, outcome: Outcome, k: Kernel): Receipt {
    if IsDestroy(op) then
      // re-checked against the kernel before the one irreversible op
      if op.name !in k.ifs then Receipt(op, false, true, false)
      else if !k.ifs[op.name].owned then Receipt(op, false, false, false)
      else Receipt(op, true, outcome.Works?, outcome.Blocks?)
    else if op.FlushAnchor? then
      // what counts is whether rules are left, whatever the exit code was
      Receipt(op, true, op.ifname !in Step(op, outcome, k).anchors, false)
    else Receipt(op, true, outcome.Works? && Enabled(op, k), false)
  }

  lemma RunNone(ops: seq<Op>, outcomes: nat -> Outcome, k: Kernel)
    ensures Run(ops[..0], outcomes, k) == k
  {
  }

  lemma RunNext(ops: seq<Op>, outcomes: nat -> Outcome, k: Kernel, i: nat)
    requires i < |ops|
    ensures Run(ops[..i + 1], outcomes, k) == Step(ops[i], outcomes(i), Run(ops[..i], outcomes, k))
  {
    assert ops[..i + 1][..i] == ops[..i];
  }

  class Writer {
    const dryRun: bool
    var k: Kernel

    constructor (dryRun: bool, k: Kernel)
      ensures this.dryRun == dryRun && this.k == k
    {
      this.dryRun, this.k := dryRun, k;
    }

    /** The owned bit under a name, if there is an interface. */
    method OwnedByKernel(name: Name) returns (owned: Option<bool>)
      ensures owned == if name in k.ifs then Some(k.ifs[name].owned) else None
    {
      if name !in k.ifs {
        return None;
      }
      owned := Some(k.ifs[name].owned);
    }

    /** Runs the op's command: done, refused by the kernel, failed or blocked. */
    method Command(op: Op, outcome: Outcome) returns (rc: Outcome)
      modifies this`k
      ensures k == Step(op, outcome, old(k))
      ensures rc == if outcome.Works? && !Enabled(op, old(k)) then Fails else outcome
    {
      rc := outcome;
      if outcome.Works? {
        if Enabled(op, k) {
          k := Effect(op, k);
        } else {
          rc := Fails;
        }
      }
    }

    /** The kernel after one op and whether its receipt is ok, for each outcome of its command. */
    method Apply(op: Op, outcome: Outcome) returns (r: Receipt)
      modifies this`k
      ensures dryRun ==> k == old(k) && r == Receipt(op, false, true, false)
      ensures !dryRun ==> k == Step(op, outcome, old(k)) && r == ReceiptFor(op, outcome, old(k))
    {
      if dryRun {
        return Receipt(op, false, true, false);
      }
      if op.FlushAnchor? {
        var _ := Command(op, outcome);
        return Receipt(op, true, op.ifname !in k.anchors, false);
      }
      if IsDestroy(op) {
        var owned := OwnedByKernel(op.name);
        if owned.None? {
          return Receipt(op, false, true, false);
        }
        if !owned.value {
          return Receipt(op, false, false, false);
        }
        var rc := Command(op, outcome);
        return Receipt(op, true, rc.Works?, rc.Blocks?);
      }
      var rc := Command(op, outcome);
      r := Receipt(op, true, rc.Works?, false);
    }

    /** The kernel after `Run`, with a receipt for each op whatever became of the others. */
    method ApplyPlan(ops: seq<Op>, outcomes: nat -> Outcome) returns (receipts: seq<Receipt>)
      modifies this`k
      ensures |receipts| == |ops|
      ensures dryRun ==> k == old(k) && forall i :: 0 <= i < |ops| ==> receipts[i] == Receipt(ops[i], false, true, false)
      ensures !dryRun ==> k == Run(ops, outcomes, old(k))
      ensures !dryRun ==> forall i :: 0 <= i < |ops| ==> receipts[i] == ReceiptFor(ops[i], outcomes(i), Run(ops[..i], outcomes, old(k)))
    {
      hide Run, Step, ReceiptFor;
      RunNone(ops, outcomes, k);
      receipts := [];
      for i := 0 to |ops|
        invariant |receipts| == i
        invariant dryRun ==> k == old(k) && forall j :: 0 <= j < i ==> receipts[j] == Receipt(ops[j], false, true, false)
        invariant !dryRun ==> k == Run(ops[..i], outcomes, old(k))
        invariant !dryRun ==> forall j :: 0 <= j < i ==> receipts[j] == ReceiptFor(ops[j], outcomes(j), Run(ops[..j], outcomes, old(k)))
      {
        RunNext(ops, outcomes, old(k), i);
        var r := Apply(ops[i], outcomes(i));
        receipts := receipts + [r];
      }
      assert ops[..|ops|] == ops;
    }
  }
}

/** Reading the kernel, planning and applying (l2_agent/reconcile.py, `read_interfaces` in ifconfig.py). */
module Reconciling {
  import opened Collections
  import opened Model
  import opened Pf
  import opened Ops
  import opened KernelModel
  import opened View
  import opened Planner
  import opened Reading
  import opened PlanShape
  import opened Diffing
  import opened Writing
  import Fixpoint

  /** The members of a bridge, in some order. */
  method ListMembers(k: Kernel, b: Name) returns (members: seq<Name>)
    ensures NoDup(members)
    ensures forall m :: m in members <==> InBridge(k, b, m)
  {
    members := [];
    var rest := k.master.Keys;
    while rest != {}
      invariant rest <= k.master.Keys
      invariant NoDup(members)
      invariant forall m :: m in members <==> m in k.master && m !in rest && InBridge(k, b, m)
    {
      var m :| m in rest;
      rest := rest - {m};
      if k.master[m] == b {
        NoDupAppend(members, [m]);
        members := members + [m];
      }
    }
  }

  /** The ownership group's members, in some order. */
  method ListOwned(k: Kernel) returns (owned: seq<Name>)
    ensures NoDup(owned)
    ensures forall x :: x in owned <==> IsOwned(k, x)
  {
    owned := [];
    var rest := k.ifs.Keys;
    while rest != {}
      invariant rest <= k.ifs.Keys
      invariant NoDup(owned)
      invariant forall x :: x in owned <==> x !in rest && IsOwned(k, x)
    {
      var x :| x in rest;
      rest := rest - {x};
      if k.ifs[x].owned {
        NoDupAppend(owned, [x]);
        owned := owned + [x];
      }
    }
  }

  /** A bridge's static entries. */
  method ListStatic(k: Kernel, b: Name) returns (entries: seq<AddrEntry>)
    ensures forall m :: FirstStatic(entries, m) == if InBridge(k, b, m) then Get(k.lock, m) else None
  {
    var members := ListMembers(k, b);
    entries := [];
    var i := |members|;
    while i > 0
      invariant 0 <= i <= |members|
      invariant forall m :: FirstStatic(entries, m) == if m in members[i..] then Get(k.lock, m) else None
    {
      i := i - 1;
      var m := members[i];
      assert members[i..] == [m] + members[i + 1..];
      assert m !in members[i + 1..];
      if m in k.lock {
        ghost var before := entries;
        entries := [AddrEntry(k.lock[m], m, true)] + entries;
        assert entries[1..] == before;
      }
    }
    assert members[0..] == members;
  }

  // ---------------------------------------------------------------- reading

  ghost predicate TrueBlocks(k: Kernel, d: Dict<Interface>) {
    d.Valid() && forall x :: x in d.at ==> ReadsIface(k, x, d.at[x])
  }

  /** The view with one more name, if the kernel has it and the view has not. */
  method Query(k: Kernel, d: Dict<Interface>, name: Name) returns (d': Dict<Interface>)
    requires TrueBlocks(k, d)
    ensures TrueBlocks(k, d')
    ensures d'.at.Keys == d.at.Keys + if name in k.ifs then {name} else {}
    ensures forall x :: x in d.at ==> d'.at[x] == d.at[x]
  {
    d' := d;
    if name in d.at || name !in k.ifs {
      return;
    }
    var members := ListMembers(k, name);
    NoDupAppend(d.keys, [name]);
    d' := Dict(d.keys + [name], d.at[name := Interface(k.ifs[name].isBridge, k.ifs[name].owned, members, k.ifs[name].maxaddr)]);
  }

  method QueryAll(k: Kernel, d: Dict<Interface>, names: seq<Name>) returns (d': Dict<Interface>)
    requires TrueBlocks(k, d)
    ensures TrueBlocks(k, d')
    ensures d.at.Keys <= d'.at.Keys
    ensures forall x :: x in d.at ==> d'.at[x] == d.at[x]
    ensures forall x :: x in names && x in k.ifs ==> x in d'.at
  {
    d' := d;
    for i := 0 to |names|
      invariant TrueBlocks(k, d')
      invariant d.at.Keys <= d'.at.Keys
      invariant forall x :: x in d.at ==> d'.at[x] == d.at[x]
      invariant forall x :: x in names[..i] && x in k.ifs ==> x in d'.at
    {
      assert names[..i + 1] == names[..i] + [names[i]];
      d' := Query(k, d', names[i]);
    }
    assert names[..|names|] == names;
  }

  /** The view with the members of its bridges, whoever owns them. */
  method QueryMembers(k: Kernel, d: Dict<Interface>) returns (d': Dict<Interface>)
    requires WellFormed(k) && TrueBlocks(k, d)
    ensures TrueBlocks(k, d')
    ensures d.at.Keys <= d'.at.Keys
    ensures forall m :: m in k.master && k.master[m] in d.at ==> m in d'.at
    ensures forall x :: x in d'.at && x !in d.at ==> x in k.master
  {
    d' := d;
    for i := 0 to |d.keys|
      invariant TrueBlocks(k, d')
      invariant d.at.Keys <= d'.at.Keys
      invariant forall m :: m in k.master && k.master[m] in d.keys[..i] ==> m in d'.at
      invariant forall x :: x in d'.at && x !in d.at ==> x in k.master
    {
      var b := d.keys[i];
      assert b in d.keys;
      assert d.keys[..i + 1] == d.keys[..i] + [b];
      forall j | 0 <= j < |d.at[b].members| ensures d.at[b].members[j] in k.master {
        assert d.at[b].members[j] in d.at[b].members;
      }
      d' := QueryMembersOf(k, d', d.at[b].members);
    }
    assert d.keys[..|d.keys|] == d.keys;
  }

  method QueryMembersOf(k: Kernel, d: Dict<Interface>, members: seq<Name>) returns (d': Dict<Interface>)
    requires WellFormed(k) && TrueBlocks(k, d)
    requires forall i :: 0 <= i < |members| ==> members[i] in k.master
    ensures TrueBlocks(k, d')
    ensures d.at.Keys <= d'.at.Keys
    ensures forall m :: m in members ==> m in d'.at
    ensures forall x :: x in d'.at && x !in d.at ==> x in k.master
  {
    d' := d;
    for i := 0 to |members|
      invariant TrueBlocks(k, d')
      invariant d.at.Keys <= d'.at.Keys
      invariant forall m :: m in members[..i] ==> m in d'.at
      invariant forall x :: x in d'.at && x !in d.at ==> x in k.master
    {
      assert members[..i + 1] == members[..i] + [members[i]];
      d' := Query(k, d', members[i]);
    }
    assert members[..|members|] == members;
  }

  method ReadAddrs(k: Kernel, d: Dict<Interface>) returns (addrs: map<Name, seq<AddrEntry>>)
    requires TrueBlocks(k, d)
    ensures forall b :: b in addrs ==> b in d.at
    ensures forall b :: b in d.at && d.at[b].isBridge ==> b in addrs
    ensures forall b, m :: b in addrs ==> FirstStatic(addrs[b], m) == if InBridge(k, b, m) then Get(k.lock, m) else None
  {
    addrs := map[];
    for i := 0 to |d.keys|
      invariant forall b :: b in addrs ==> b in d.at
      invariant forall b :: b in d.keys[..i] && d.at[b].isBridge ==> b in addrs
      invariant forall b, m :: b in addrs ==> FirstStatic(addrs[b], m) == if InBridge(k, b, m) then Get(k.lock, m) else None
    {
      var name := d.keys[i];
      assert name in d.keys;
      assert d.keys[..i + 1] == d.keys[..i] + [name];
      if d.at[name].isBridge {
        var entries := ListStatic(k, name);
        addrs := addrs[name := entries];
      }
    }
    assert d.keys[..|d.keys|] == d.keys;
  }

  /** The names a pass asks about cover everything the document claims. */
  ghost predicate Covers(c: Config, names: seq<Name>)
    requires Resolved(c)
  {
    forall x :: x in c.bridge.at || Claimed(c, x) ==> x in names
  }

  ghost predicate TrueAddrs(k: Kernel, d: Dict<Interface>, addrs: map<Name, seq<AddrEntry>>) {
    && (forall b :: b in addrs ==> b in d.at)
    && (forall b :: b in d.at && d.at[b].isBridge ==> b in addrs)
    && (forall b, m :: b in addrs ==> FirstStatic(addrs[b], m) == if InBridge(k, b, m) then Get(k.lock, m) else None)
  }

  lemma EnoughWasRead(k: Kernel, c: Config, names: seq<Name>, v: KernelInterfaces)
    requires WellFormed(k) && Valid(c) && Covers(c, names)
    requires TrueBlocks(k, v.interfaces) && TrueAddrs(k, v.interfaces, v.addrs)
    requires NoDup(v.owned) && forall x :: x in v.owned <==> IsOwned(k, x)
    requires forall x :: (x in v.owned || x in names) && x in k.ifs ==> x in v.interfaces.at
    requires forall m :: m in k.master && k.master[m] in v.interfaces.at ==> m in v.interfaces.at
    ensures Reads(k, c, v)
  {
  }

  /** A reading that the planner cannot tell from the whole kernel. */
  method ReadInterfaces(k: Kernel, c: Config, names: seq<Name>) returns (v: KernelInterfaces)
    requires WellFormed(k) && Valid(c) && Covers(c, names)
    ensures Reads(k, c, v)
  {
    var owned := ListOwned(k);
    var d := ReadBlocks(k, owned, names);
    var addrs := ReadAddrs(k, d);
    v := KernelInterfaces(d, owned, addrs);
    EnoughWasRead(k, c, names, v);
  }

  method ReadBlocks(k: Kernel, owned: seq<Name>, names: seq<Name>) returns (d: Dict<Interface>)
    requires WellFormed(k)
    ensures TrueBlocks(k, d)
    ensures forall x :: (x in owned || x in names) && x in k.ifs ==> x in d.at
    ensures forall m :: m in k.master && k.master[m] in d.at ==> m in d.at
  {
    d := Dict([], map[]);
    d := QueryAll(k, d, owned);
    d := QueryAll(k, d, names);
    var first := d;
    d := QueryMembers(k, d);
    // a member is never itself a bridge, so the blocks read last list no members
    assert forall x :: x in d.at && x !in first.at ==> !IsBridge(k, x);
  }

  /** Every interface name the document claims, or the error its uplinks raise. */
  method NamesToCheck(c: Config) returns (r: Result<seq<Name>, PlanError>)
    requires Valid(c)
    ensures r.Ok? <==> forall b :: b in c.bridge.at ==> !UplinkTooLong(c, c.bridge.at[b])
    ensures r.Ok? ==> Covers(c, r.value)
    ensures r.Err? ==> r.error.VlanNameTooLong?
  {
    var names := c.bridge.keys;
    for i := 0 to |c.bridge.keys|
      invariant forall j :: 0 <= j < i ==> c.bridge.keys[j] in c.bridge.at && !UplinkTooLong(c, c.bridge.at[c.bridge.keys[j]])
      invariant forall x :: x in c.bridge.keys ==> x in names
      invariant forall j, x :: 0 <= j < i && Claims(c, c.bridge.keys[j], x) ==> x in names
    {
      var b := c.bridge.keys[i];
      assert b in c.bridge.keys;
      var bridge := c.bridge.at[b];
      names := names + bridge.member.keys;
      if UplinkTooLong(c, bridge) {
        return Err(VlanNameTooLong(UplinkNames(c, bridge)[0]));
      }
      names := names + UplinkNames(c, bridge);
      assert forall x :: Claims(c, b, x) ==> x in names;
    }
    forall b | b in c.bridge.at ensures !UplinkTooLong(c, c.bridge.at[b]) {
      var j := KeyIndex(c.bridge.keys, b);
    }
    forall x | Claimed(c, x) ensures x in names {
      var b :| Claims(c, b, x);
      var j := KeyIndex(c.bridge.keys, b);
      assert Claims(c, c.bridge.keys[j], x);
    }
    r := Ok(names);
  }

  /** The names at which a reading of anchors is that of all. */
  function PfScope(c: Config, v: KernelInterfaces): set<Name> {
    (set b, m | b in c.bridge.at && m in c.bridge.at[b].member.at
                && (c.bridge.at[b].member.at[m].filter != "" || c.bridge.at[b].member.at[m].bind.Some?) :: m)
    + (set x | x in v.owned && x in v.interfaces.at && !v.interfaces.at[x].isBridge)
  }

  /** The state of each named anchor. */
  function ReadAnchors(k: Kernel, names: set<Name>): PfState {
    map x | x in names ::
      if x in k.anchors then AnchorState(true, k.anchors[x].rules, k.anchors[x].tables) else AnchorState(false, None, map[])
  }

  lemma AnchorsAreRead(k: Kernel, names: set<Name>)
    requires k.anchors.Keys <= names
    ensures ReadsPf(k, ReadAnchors(k, names))
  {
  }

  /** One pass: read the kernel, diff, apply the plan. */
  method Reconcile(c: Config, w: Writer, outcomes: nat -> Outcome) returns (r: Result<(Phases, seq<Receipt>), PlanError>)
    requires Valid(c) && WellFormed(w.k) && !w.dryRun
    modifies w`k
    ensures r.Err? ==> w.k == old(w.k)
    ensures r.Ok? ==> exists v, pf :: Reads(old(w.k), c, v) && ReadsPf(old(w.k), pf) && Planned(c, v, Some(pf)) == Ok(r.value.0)
    ensures r.Ok? ==> w.k == Run(r.value.0.Ops(), outcomes, old(w.k)) && |r.value.1| == |r.value.0.Ops()|
    ensures r.Ok? ==> forall i :: 0 <= i < |r.value.1| ==>
                                    r.value.1[i] == ReceiptFor(r.value.0.Ops()[i], outcomes(i), Run(r.value.0.Ops()[..i], outcomes, old(w.k)))
    ensures r.Ok? <==> NoConflict(c, old(w.k))
  {
    var names := NamesToCheck(c);
    if names.Err? {
      return Err(names.error);
    }
    var v := ReadInterfaces(w.k, c, names.value);
    var pf := ReadAnchors(w.k, PfScope(c, v) + w.k.anchors.Keys);
    AnchorsAreRead(w.k, PfScope(c, v) + w.k.anchors.Keys);
    hide Reads, ReadsPf, ReadAnchors, PfScope, NoConflict, Planned, Run, ReceiptFor, Covers, Valid, WellFormed;
    var plan := Diff(c, v, Some(pf));
    Fixpoint.ErrorIffConflict(c, w.k, v, pf);
    if plan.Err? {
      return Err(plan.error);
    }
    var receipts := w.ApplyPlan(plan.value.Ops(), outcomes);
    r := Ok((plan.value, receipts));
  }
}
