/**
 The typed ops of l2_agent/plan.py and the part of the FreeBSD kernel they drive.

 `master` maps an interface to the bridge it sits in: if_bridge(4) keeps one such
 pointer per interface, so no interface is in two bridges. `lock` holds the one
 static MAC entry a current member can carry. `anchors` are the per-port pf anchors
 with content; a ruleset without a cfg label reads back as `rules == None`.
 Interfaces carry the kernel's view of the ownership group.
 */
module Ops {
  import opened Collections
  import opened Model
  import opened Pf

  datatype Op =
    | CreateBridge(name: Name, maxaddr: nat)
    | CreateVlan(name: Name, parent: Name, vid: nat)
    | CreateTap(name: Name, description: string)
    | LoadAnchor(ifname: Name, filter: Name, rules: Ruleset, tables: map<Name, set<Addr>>)
    | ReplaceTable(ifname: Name, table: Name, members: set<Addr>)
    | FlushAnchor(ifname: Name)
    | LockMemberMac(bridge: Name, member: Name, mac: Mac)
    | AddMember(bridge: Name, member: Name)
    | RemoveMember(bridge: Name, member: Name)
    | DestroyIface(name: Name)
    | DestroyBridge(name: Name)
    | SetMaxaddr(bridge: Name, maxaddr: nat)
}

module KernelModel {
  import opened Collections
  import opened Model
  import opened Pf
  import opened Ops

  /** `maxaddr` is what ifconfig reports, None when it reports nothing. */
  datatype Iface = Iface(isBridge: bool, owned: bool, maxaddr: Option<nat>)

  datatype Anchor = Anchor(rules: Option<Ruleset>, tables: map<Name, set<Addr>>)

  datatype Kernel = Kernel(ifs: map<Name, Iface>, master: map<Name, Name>, lock: map<Name, Mac>, anchors: map<Name, Anchor>)

  predicate IsBridge(k: Kernel, x: Name) {
    x in k.ifs && k.ifs[x].isBridge
  }

  predicate IsOwned(k: Kernel, x: Name) {
    x in k.ifs && k.ifs[x].owned
  }

  predicate InBridge(k: Kernel, b: Name, m: Name) {
    m in k.master && k.master[m] == b
  }

  /** Members are interfaces that are not bridges, and only members carry a lock. */
  ghost predicate WellFormed(k: Kernel) {
    && (forall m :: m in k.master ==> m in k.ifs && !k.ifs[m].isBridge && IsBridge(k, k.master[m]))
    && (forall m :: m in k.lock ==> m in k.master)
  }

  /** Whether the kernel accepts an op. Destroying an absent interface is the writer's no-op. */
  predicate Enabled(op: Op, k: Kernel) {
    match op
    case CreateBridge(n, _) => n !in k.ifs
    case CreateVlan(n, p, _) => n !in k.ifs && p in k.ifs
    case CreateTap(n, _) => n !in k.ifs
    case LoadAnchor(_, _, _, _) => true
    case ReplaceTable(i, _, _) => i in k.anchors
    case FlushAnchor(_) => true
    case LockMemberMac(b, m, _) => InBridge(k, b, m)
    case AddMember(b, m) => IsBridge(k, b) && m in k.ifs && !k.ifs[m].isBridge && m !in k.master
    case RemoveMember(b, m) => InBridge(k, b, m)
    case DestroyIface(n) => IsOwned(k, n)
    case DestroyBridge(n) => IsOwned(k, n)
    case SetMaxaddr(b, _) => IsBridge(k, b)
  }

  function AnchorTables(k: Kernel, i: Name): map<Name, set<Addr>> {
    if i in k.anchors then k.anchors[i].tables else map[]
  }

  /** Destroying a bridge releases the members it still has. */
  function Destroy(k: Kernel, n: Name): Kernel {
    var master := map m | m in k.master && m != n && k.master[m] != n :: k.master[m];
    k.(ifs := k.ifs - {n}, master := master, lock := map m | m in k.lock && m in master :: k.lock[m])
  }

  /** What an accepted op does. A persisting table survives a ruleset that does not name it. */
  function Effect(op: Op, k: Kernel): Kernel
    requires Enabled(op, k)
  {
    match op
    case CreateBridge(n, mx) => k.(ifs := k.ifs[n := Iface(true, true, Some(mx))])
    case CreateVlan(n, _, _) => k.(ifs := k.ifs[n := Iface(false, true, None)])
    case CreateTap(n, _) => k.(ifs := k.ifs[n := Iface(false, true, None)])
    case LoadAnchor(i, _, rules, tables) =>
      k.(anchors := k.anchors[i := Anchor(Some(rules), AnchorTables(k, i) + tables)])
    case ReplaceTable(i, t, members) =>
      k.(anchors := k.anchors[i := k.anchors[i].(tables := k.anchors[i].tables[t := members])])
    case FlushAnchor(i) => k.(anchors := k.anchors - {i})
    case LockMemberMac(_, m, mac) => k.(lock := k.lock[m := mac])
    case AddMember(b, m) => k.(master := k.master[m := b])
    case RemoveMember(_, m) => k.(master := k.master - {m}, lock := k.lock - {m})
    case DestroyIface(n) => Destroy(k, n)
    case DestroyBridge(n) => Destroy(k, n)
    case SetMaxaddr(b, mx) => k.(ifs := k.ifs[b := k.ifs[b].(maxaddr := Some(mx))])
  }

  lemma EffectWellFormed(op: Op, k: Kernel)
    requires WellFormed(k) && Enabled(op, k)
    ensures WellFormed(Effect(op, k))
  {
  }

  // ---------------------------------------------------------- runs of ops

  /** Every op is accepted in the state the ops before it leave. */
  predicate Executable(ops: seq<Op>, k: Kernel)
    decreases |ops|
  {
    ops != [] ==> Enabled(ops[0], k) && Executable(ops[1..], Effect(ops[0], k))
  }

  function Apply(ops: seq<Op>, k: Kernel): Kernel
    requires Executable(ops, k)
    decreases |ops|
  {
    if ops == [] then k else Apply(ops[1..], Effect(ops[0], k))
  }

  lemma {:induction false} ApplyConcat(a: seq<Op>, b: seq<Op>, k: Kernel)
    requires Executable(a, k) && Executable(b, Apply(a, k))
    ensures Executable(a + b, k) && Apply(a + b, k) == Apply(b, Apply(a, k))
    decreases |a|
  {
    if a == [] {
      assert a + b == b;
    } else {
      assert (a + b)[1..] == a[1..] + b;
      ApplyConcat(a[1..], b, Effect(a[0], k));
    }
  }

  lemma {:induction false} ApplyWellFormed(ops: seq<Op>, k: Kernel)
    requires WellFormed(k) && Executable(ops, k)
    ensures WellFormed(Apply(ops, k))
    decreases |ops|
  {
    if ops != [] {
      EffectWellFormed(ops[0], k);
      ApplyWellFormed(ops[1..], Effect(ops[0], k));
    }
  }

  /** What becomes of one subprocess call: it does its work, fails, or blocks until the timeout. */
  datatype Outcome = Works | Fails | Blocks

  function Step(op: Op, outcome: Outcome, k: Kernel): Kernel {
    if outcome.Works? && Enabled(op, k) then Effect(op, k) else k
  }

  /** A whole plan, no op stopping the ones after it. */
  function Run(ops: seq<Op>, outcomes: nat -> Outcome, k: Kernel): Kernel {
    if ops == [] then k
    else Step(ops[|ops| - 1], outcomes(|ops| - 1), Run(ops[..|ops| - 1], outcomes, k))
  }

  // ------------------------------------------------------ one name at a time

  /** Everything the kernel holds under one name. */
  datatype Point = Point(iface: Option<Iface>, master: Option<Name>, lock: Option<Mac>, anchor: Option<Anchor>)

  function Get<V>(m: map<Name, V>, x: Name): Option<V> {
    if x in m then Some(m[x]) else None
  }

  function At(k: Kernel, x: Name): Point {
    Point(Get(k.ifs, x), Get(k.master, x), Get(k.lock, x), Get(k.anchors, x))
  }

  /** The name an op acts on. */
  function Target(op: Op): Name {
    match op
    case CreateBridge(n, _) => n
    case CreateVlan(n, _, _) => n
    case CreateTap(n, _) => n
    case LoadAnchor(i, _, _, _) => i
    case ReplaceTable(i, _, _) => i
    case FlushAnchor(i) => i
    case LockMemberMac(_, m, _) => m
    case AddMember(_, m) => m
    case RemoveMember(_, m) => m
    case DestroyIface(n) => n
    case DestroyBridge(n) => n
    case SetMaxaddr(b, _) => b
  }

  predicate IsDestroy(op: Op) {
    op.DestroyIface? || op.DestroyBridge?
  }

  /** An op leaves every other name alone, except that destroying a bridge releases its members. */
  lemma EffectFrame(op: Op, k: Kernel, x: Name)
    requires Enabled(op, k) && Target(op) != x
    requires IsDestroy(op) ==> !InBridge(k, op.name, x)
    requires WellFormed(k)
    ensures At(Effect(op, k), x) == At(k, x)
  {
  }

  lemma {:induction false} ApplyFrame(ops: seq<Op>, k: Kernel, x: Name)
    requires WellFormed(k) && Executable(ops, k)
    requires forall i :: 0 <= i < |ops| ==> Target(ops[i]) != x && !IsDestroy(ops[i])
    ensures At(Apply(ops, k), x) == At(k, x)
    decreases |ops|
  {
    if ops != [] {
      EffectFrame(ops[0], k, x);
      EffectWellFormed(ops[0], k);
      ApplyFrame(ops[1..], Effect(ops[0], k), x);
    }
  }
}
