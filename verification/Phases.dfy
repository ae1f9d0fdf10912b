/**
 What running each phase of a plan does to the kernel it was planned for.
 Every lemma also says that the kernel accepts each op of the phase in turn.
 */
module Phases {
  import opened Collections
  import opened Model
  import opened Pf
  import opened Ops
  import opened KernelModel
  import opened View
  import opened Planner
  import opened Reading

  // ------------------------------------------------------------ removes

  function Removed(ops: seq<Op>): set<Name> {
    set op | op in ops && op.RemoveMember? :: op.member
  }

  ghost predicate RemovePhase(ops: seq<Op>, k: Kernel) {
    && NoDup(ops)
    && forall op :: op in ops ==> op.FlushAnchor? || (op.RemoveMember? && InBridge(k, op.bridge, op.member))
  }

  lemma RemovedCons(op: Op, rest: seq<Op>)
    ensures Removed([op] + rest) == (if op.RemoveMember? then {op.member} else {}) + Removed(rest)
    ensures Flushed([op] + rest) == (if op.FlushAnchor? then {op.ifname} else {}) + Flushed(rest)
  {
    var ops := [op] + rest;
    forall o ensures o in ops <==> o == op || o in rest {}
  }

  lemma RemovePhaseCons(op: Op, rest: seq<Op>, k: Kernel)
    requires RemovePhase([op] + rest, k)
    ensures Enabled(op, k) && RemovePhase(rest, Effect(op, k))
  {
    var ops := [op] + rest;
    assert op in ops;
    forall i, j | 0 <= i < j < |rest| ensures rest[i] != rest[j] {
      assert rest[i] == ops[i + 1] && rest[j] == ops[j + 1];
    }
    forall o | o in rest ensures o.FlushAnchor? || (o.RemoveMember? && InBridge(Effect(op, k), o.bridge, o.member)) {
      assert o in ops;
      var j :| 0 <= j < |rest| && rest[j] == o;
      assert ops[0] != ops[j + 1];
    }
  }

  lemma RemoveOpRemoves(op: Op, k: Kernel)
    requires Enabled(op, k) && (op.RemoveMember? || op.FlushAnchor?)
    ensures Effect(op, k) == var gone := if op.RemoveMember? then {op.member} else {};
                             Kernel(k.ifs, k.master - gone, k.lock - gone, k.anchors - if op.FlushAnchor? then {op.ifname} else {})
  {
  }

  lemma {:induction false} RunRemoves(ops: seq<Op>, k: Kernel)
    requires RemovePhase(ops, k)
    ensures Executable(ops, k)
    ensures Apply(ops, k) == Kernel(k.ifs, k.master - Removed(ops), k.lock - Removed(ops), k.anchors - Flushed(ops))
    decreases |ops|
  {
    if ops != [] {
      hide Effect, Enabled;
      var op, rest := ops[0], ops[1..];
      assert ops == [op] + rest;
      assert op in ops;
      RemovePhaseCons(op, rest, k);
      RemovedCons(op, rest);
      RemoveOpRemoves(op, k);
      RunRemoves(rest, Effect(op, k));
    }
  }

  // ------------------------------------------------------------ destroys

  function Destroyed(ops: seq<Op>): set<Name> {
    set op | op in ops && IsDestroy(op) :: op.name
  }

  ghost predicate DestroyPhase(ops: seq<Op>, k: Kernel) {
    && (forall i, j :: 0 <= i < j < |ops| && IsDestroy(ops[i]) && IsDestroy(ops[j]) ==> ops[i].name != ops[j].name)
    && (forall op :: op in ops ==> op.FlushAnchor? || (IsDestroy(op) && IsOwned(k, op.name)))
    && (forall m :: m in k.master ==> k.master[m] !in Destroyed(ops))
  }

  lemma DestroyedCons(op: Op, rest: seq<Op>)
    ensures Destroyed([op] + rest) == (if IsDestroy(op) then {op.name} else {}) + Destroyed(rest)
  {
    var ops := [op] + rest;
    forall o ensures o in ops <==> o == op || o in rest {}
  }

  lemma DestroyPhaseCons(op: Op, rest: seq<Op>, k: Kernel)
    requires DestroyPhase([op] + rest, k)
    ensures Enabled(op, k) && DestroyPhase(rest, Effect(op, k))
  {
    var ops := [op] + rest;
    assert op in ops;
    var k1 := Effect(op, k);
    DestroyedCons(op, rest);
    forall i, j | 0 <= i < j < |rest| && IsDestroy(rest[i]) && IsDestroy(rest[j]) ensures rest[i].name != rest[j].name {
      assert rest[i] == ops[i + 1] && rest[j] == ops[j + 1];
    }
    forall o | o in rest ensures o.FlushAnchor? || (IsDestroy(o) && IsOwned(k1, o.name)) {
      assert o in ops;
      var j :| 0 <= j < |rest| && rest[j] == o;
      assert ops[0] == op && ops[j + 1] == o;
    }
  }

  /** The kernel without some interfaces and without some anchors. */
  function Purged(k: Kernel, gone: set<Name>, flushed: set<Name>): Kernel {
    Kernel(k.ifs - gone, k.master - gone, k.lock - gone, k.anchors - flushed)
  }

  lemma PurgedTwice(k: Kernel, gone: set<Name>, flushed: set<Name>, gone': set<Name>, flushed': set<Name>)
    ensures Purged(Purged(k, gone, flushed), gone', flushed') == Purged(k, gone + gone', flushed + flushed')
  {
  }

  lemma DestroyOpPurges(op: Op, k: Kernel)
    requires WellFormed(k) && Enabled(op, k)
    requires op.FlushAnchor? || (IsDestroy(op) && forall m :: m in k.master ==> k.master[m] != op.name)
    ensures Effect(op, k) == Purged(k, if IsDestroy(op) then {op.name} else {}, if op.FlushAnchor? then {op.ifname} else {})
  {
    if IsDestroy(op) {
      assert Destroy(k, op.name).master == k.master - {op.name};
      assert Destroy(k, op.name).lock == k.lock - {op.name};
    }
  }

  lemma {:induction false} RunDestroys(ops: seq<Op>, k: Kernel)
    requires WellFormed(k) && DestroyPhase(ops, k)
    ensures Executable(ops, k)
    ensures Apply(ops, k) == Purged(k, Destroyed(ops), Flushed(ops))
    decreases |ops|
  {
    if ops == [] {
      assert Purged(k, {}, {}) == k;
    } else {
      var op, rest := ops[0], ops[1..];
      assert ops == [op] + rest;
      assert op in ops;
      DestroyPhaseCons(op, rest, k);
      DestroyedCons(op, rest);
      RemovedCons(op, rest);
      EffectWellFormed(op, k);
      DestroyOpPurges(op, k);
      RunDestroys(rest, Effect(op, k));
      PurgedTwice(k, if IsDestroy(op) then {op.name} else {}, if op.FlushAnchor? then {op.ifname} else {}, Destroyed(rest), Flushed(rest));
    }
  }

  // ------------------------------------------------------------ creates

  predicate IsVlanOf(c: Config, b: Name, x: Name)
    requires Resolved(c) && b in c.bridge.at
  {
    Manufactured(c.bridge.at[b]) && x == UplinkNames(c, c.bridge.at[b])[0]
  }

  predicate VlanUpTo(c: Config, i: nat, x: Name)
    requires Valid(c) && i <= |c.bridge.keys|
  {
    exists j :: 0 <= j < i && IsVlanOf(c, c.bridge.keys[j], x)
  }

  /** What the kernel holds under x once the first i bridges are created. */
  ghost function CreatedIface(c: Config, k: Kernel, i: nat, x: Name): Option<Iface>
    requires Valid(c) && i <= |c.bridge.keys|
  {
    if x in c.bridge.keys[..i] then
      assert x in c.bridge.keys;
      Some(Iface(true, true,
                 if x in k.ifs && k.ifs[x].maxaddr.None? then None else Some(c.bridge.at[x].maxAddresses)))
    else if x in k.ifs then Some(k.ifs[x])
    else if VlanUpTo(c, i, x) then Some(Iface(false, true, None))
    else None
  }

  ghost predicate CreatedUpTo(c: Config, k: Kernel, k1: Kernel, i: nat)
    requires Valid(c) && i <= |c.bridge.keys|
  {
    && k1.master == k.master && k1.lock == k.lock && k1.anchors == k.anchors
    && (forall x :: Get(k1.ifs, x) == CreatedIface(c, k, i, x))
  }

  lemma RunOne(op: Op, k: Kernel)
    requires Enabled(op, k)
    ensures Executable([op], k) && Apply([op], k) == Effect(op, k)
  {
    var rest: seq<Op> := [op][1..];
    assert rest == [];
    assert Executable(rest, Effect(op, k)) && Apply(rest, Effect(op, k)) == Effect(op, k);
  }

  lemma RunBridgeCreate(c: Config, k: Kernel, v: KernelInterfaces, k1: Kernel, b: Name, ops: seq<Op>)
    requires Valid(c) && NoConflict(c, k) && Reads(k, c, v)
    requires b in c.bridge.at && Get(k1.ifs, b) == Get(k.ifs, b)
    requires ops == (if !v.Has(b) then [CreateBridge(b, c.bridge.at[b].maxAddresses)]
                     else if v.interfaces.at[b].maxaddr.Some? && v.interfaces.at[b].maxaddr.value != c.bridge.at[b].maxAddresses
                     then [SetMaxaddr(b, c.bridge.at[b].maxAddresses)]
                     else [])
    ensures Executable(ops, k1)
    ensures Apply(ops, k1) == k1.(ifs := k1.ifs[b := Iface(true, true,
              if b in k.ifs && k.ifs[b].maxaddr.None? then None else Some(c.bridge.at[b].maxAddresses))])
  {
    assert v.Has(b) <==> b in k.ifs;
    if ops != [] {
      RunOne(ops[0], k1);
    } else {
      assert k1.ifs == k1.ifs[b := k1.ifs[b]];
    }
  }

  lemma RunUplinkCreate(c: Config, k: Kernel, v: KernelInterfaces, k1: Kernel, b: Name)
    requires Valid(c) && TrunksExist(c, k) && Reads(k, c, v)
    requires b in c.bridge.at
    requires forall x :: x in k.ifs ==> x in k1.ifs
    requires forall x :: IsVlanOf(c, b, x) ==> Get(k1.ifs, x) == Get(k.ifs, x)
    ensures Executable(UplinkCreates(c, c.bridge.at[b], v), k1)
    ensures var k2 := Apply(UplinkCreates(c, c.bridge.at[b], v), k1);
            && k2 == k1.(ifs := k2.ifs)
            && forall x :: Get(k2.ifs, x) == if IsVlanOf(c, b, x) && x !in k.ifs then Some(Iface(false, true, None)) else Get(k1.ifs, x)
  {
    var bridge := c.bridge.at[b];
    if Manufactured(bridge) {
      var name := UplinkNames(c, bridge)[0];
      ParentOfVlanName(c.physnet[bridge.segment.value.physnet], bridge.segment.value.vid);
      assert Claims(c, b, name);
      assert v.Has(name) <==> name in k.ifs;
      assert IsVlanOf(c, b, name);
      if !v.Has(name) {
        assert Get(k1.ifs, name) == Get(k.ifs, name);
        RunOne(UplinkCreates(c, bridge, v)[0], k1);
      }
    }
  }

  lemma {:induction false} RunCreates(c: Config, k: Kernel, v: KernelInterfaces, i: nat)
    requires Valid(c) && Distinct(c) && NoConflict(c, k) && TrunksExist(c, k) && Reads(k, c, v) && i <= |c.bridge.keys|
    ensures Executable(Creates(c, v, i), k)
    ensures CreatedUpTo(c, k, Apply(Creates(c, v, i), k), i)
  {
    hide Distinct, NoConflict, TrunksExist, Reads, Resolved, BridgeCreates;
    if i > 0 {
      RunCreates(c, k, v, i - 1);
      var k1 := Apply(Creates(c, v, i - 1), k);
      RunBridgeCreates(c, k, v, k1, i);
      ApplyConcat(Creates(c, v, i - 1), BridgeCreates(c, v, c.bridge.keys[i - 1]), k);
    }
  }

  lemma RunBridgeCreates(c: Config, k: Kernel, v: KernelInterfaces, k1: Kernel, i: nat)
    requires Valid(c) && Distinct(c) && NoConflict(c, k) && TrunksExist(c, k) && Reads(k, c, v) && 0 < i <= |c.bridge.keys|
    requires CreatedUpTo(c, k, k1, i - 1)
    ensures c.bridge.keys[i - 1] in c.bridge.at
    ensures Executable(BridgeCreates(c, v, c.bridge.keys[i - 1]), k1)
    ensures CreatedUpTo(c, k, Apply(BridgeCreates(c, v, c.bridge.keys[i - 1]), k1), i)
  {
    var b := c.bridge.keys[i - 1];
    BridgeNotYetCreated(c, k, k1, i);
    hide Distinct, NoConflict, TrunksExist, Reads, Resolved, CreatedIface, Executable, Apply, UplinkCreates;
    var ops := BridgeCreates(c, v, b);
    var uplink := UplinkCreates(c, c.bridge.at[b], v);
    var first := ops[..|ops| - |uplink|];
    assert ops == first + uplink;
    RunBridgeCreate(c, k, v, k1, b, first);
    var k2 := Apply(first, k1);
    CreatedVlanFresh(c, k, k1, k2, i);
    RunUplinkCreate(c, k, v, k2, b);
    ApplyConcat(first, uplink, k1);
    var k3 := Apply(uplink, k2);
    forall x ensures Get(k3.ifs, x) == CreatedIface(c, k, i, x) {
      CreatedIfaceStep(c, k, i, x);
      assert Get(k1.ifs, x) == CreatedIface(c, k, i - 1, x);
    }
  }

  lemma VlansAreNotBridges(c: Config)
    requires Valid(c) && Distinct(c)
    ensures forall b, x :: b in c.bridge.at && IsVlanOf(c, b, x) ==> x !in c.bridge.at && x !in c.bridge.keys
  {
    forall b, x | b in c.bridge.at && IsVlanOf(c, b, x) ensures x !in c.bridge.at {
      assert Claims(c, b, x);
    }
  }

  lemma BridgeNotYetCreated(c: Config, k: Kernel, k1: Kernel, i: nat)
    requires Valid(c) && Distinct(c) && 0 < i <= |c.bridge.keys|
    requires CreatedUpTo(c, k, k1, i - 1)
    ensures c.bridge.keys[i - 1] in c.bridge.at
    ensures Get(k1.ifs, c.bridge.keys[i - 1]) == Get(k.ifs, c.bridge.keys[i - 1])
  {
    var b := c.bridge.keys[i - 1];
    assert b in c.bridge.keys;
    VlansAreNotBridges(c);
    assert b !in c.bridge.keys[..i - 1];
    assert Get(k1.ifs, b) == CreatedIface(c, k, i - 1, b);
  }

  /** How one more bridge changes what has been created under x. */
  lemma CreatedIfaceStep(c: Config, k: Kernel, i: nat, x: Name)
    requires Valid(c) && Distinct(c) && 0 < i <= |c.bridge.keys|
    ensures var b := c.bridge.keys[i - 1];
            && b in c.bridge.at
            && CreatedIface(c, k, i, x) ==
               if x == b then
                 Some(Iface(true, true, if x in k.ifs && k.ifs[x].maxaddr.None? then None else Some(c.bridge.at[x].maxAddresses)))
               else if IsVlanOf(c, b, x) && x !in k.ifs then Some(Iface(false, true, None))
               else CreatedIface(c, k, i - 1, x)
    ensures IsVlanOf(c, c.bridge.keys[i - 1], x) ==> x != c.bridge.keys[i - 1]
  {
    var b := c.bridge.keys[i - 1];
    assert b in c.bridge.keys;
    assert c.bridge.keys[..i] == c.bridge.keys[..i - 1] + [b];
    VlanUpToStep(c, i, x);
    VlansAreNotBridges(c);
    assert x in c.bridge.keys[..i] ==> x in c.bridge.keys;
  }

  lemma VlanUpToStep(c: Config, i: nat, x: Name)
    requires Valid(c) && 0 < i <= |c.bridge.keys|
    ensures VlanUpTo(c, i, x) <==> VlanUpTo(c, i - 1, x) || IsVlanOf(c, c.bridge.keys[i - 1], x)
  {
  }

  /** The vlan a stanza derives is not made by, nor named like, an earlier bridge. */
  lemma CreatedVlanFresh(c: Config, k: Kernel, k1: Kernel, k2: Kernel, i: nat)
    requires Valid(c) && Distinct(c) && 0 < i <= |c.bridge.keys|
    requires CreatedUpTo(c, k, k1, i - 1)
    requires forall x :: x != c.bridge.keys[i - 1] ==> Get(k2.ifs, x) == Get(k1.ifs, x)
    requires c.bridge.keys[i - 1] in k2.ifs
    ensures forall x :: IsVlanOf(c, c.bridge.keys[i - 1], x) ==> Get(k2.ifs, x) == Get(k.ifs, x)
    ensures forall x :: x in k.ifs ==> x in k2.ifs
  {
    var b := c.bridge.keys[i - 1];
    forall x | IsVlanOf(c, b, x) ensures Get(k2.ifs, x) == Get(k.ifs, x) {
      assert Claims(c, b, x);
      assert x !in c.bridge.at;
      assert Get(k1.ifs, x) == CreatedIface(c, k, i - 1, x);
      forall j | 0 <= j < i - 1 && IsVlanOf(c, c.bridge.keys[j], x) ensures false {
        assert Claims(c, c.bridge.keys[j], x);
      }
      assert x !in c.bridge.keys[..i - 1];
    }
    forall x | x in k.ifs ensures x in k2.ifs {
      assert Get(k1.ifs, x) == CreatedIface(c, k, i - 1, x);
    }
  }
}
