/** Which ops the creates and adds phases contain, and what such ops can do at most. */
module AddsContents {
  import opened Collections
  import opened Model
  import opened Pf
  import opened Ops
  import opened KernelModel
  import opened View
  import opened Planner
  import opened Reading
  import opened PlanContents
  import opened Phases
  import opened AddsPhase

  ghost predicate TypedMember(c: Config, b: Name, x: Name) {
    b in c.bridge.at && x in c.bridge.at[b].member.at && c.bridge.at[b].member.at[x].typed
  }

  ghost predicate LoadsWanted(c: Config, b: Name, op: Op)
    requires Resolved(c)
  {
    && op.LoadAnchor?
    && PoliciedMember(c, b, op.ifname)
    && op.filter == c.bridge.at[b].member.at[op.ifname].filter
    && op.rules == WantedRules(c, c.bridge.at[b].member.at[op.ifname])
    && op.tables == MemberTables(c, c.bridge.at[b].member.at[op.ifname])
  }

  /** An op the adds phase may contain on behalf of bridge b. */
  ghost predicate AddFor(c: Config, k: Kernel, b: Name, op: Op)
    requires Resolved(c)
  {
    match op
    case CreateTap(n, d) => n !in k.ifs && TypedMember(c, b, n) && d == c.bridge.at[b].member.at[n].description
    case LoadAnchor(_, _, _, _) => LoadsWanted(c, b, op)
    case ReplaceTable(n, _, _) => PoliciedMember(c, b, n) && RulesOk(c, c.bridge.at[b].member.at[n], k, n)
    case LockMemberMac(b', m, mac) =>
      b' == b && Claims(c, b, m) && m in c.bridge.at[b].member.at
      && c.bridge.at[b].member.at[m].bind.Some? && c.bridge.at[b].member.at[m].bind.value.mac == mac
    case AddMember(b', m) => b' == b && Claims(c, b, m) && !InBridge(k, b, m)
    case _ => false
  }

  lemma {:induction false} TableDriftOps(x: Name, names: seq<Name>, wanted: map<Name, set<Addr>>, s: AnchorState)
    requires forall i :: 0 <= i < |names| ==> names[i] in wanted
    ensures forall op :: op in TableDrift(x, names, wanted, s) ==>
                           op.ReplaceTable? && op.ifname == x && op.table in wanted && op.members == wanted[op.table]
  {
    if names != [] {
      TableDriftOps(x, names[..|names| - 1], wanted, s);
    }
  }

  ghost predicate AllFor(c: Config, k: Kernel, b: Name, ops: seq<Op>)
    requires Resolved(c)
  {
    forall op :: op in ops ==> AddFor(c, k, b, op)
  }

  lemma AllForConcat(c: Config, k: Kernel, b: Name, ops: seq<Op>, more: seq<Op>)
    requires Resolved(c) && AllFor(c, k, b, ops) && AllFor(c, k, b, more)
    ensures AllFor(c, k, b, ops + more)
  {
    forall op | op in ops + more ensures AddFor(c, k, b, op) {
      assert op in ops || op in more;
    }
  }

  lemma OneFor(c: Config, k: Kernel, b: Name, op: Op)
    requires Resolved(c) && AddFor(c, k, b, op)
    ensures AllFor(c, k, b, [op])
  {
  }

  lemma LoadOpsAre(c: Config, k: Kernel, pf: PfState, b: Name, x: Name)
    requires Resolved(c) && b in c.bridge.at && x in c.bridge.at[b].member.at
    ensures AllFor(c, k, b, LoadOps(c, x, c.bridge.at[b].member.at[x], Some(pf)))
  {
    var m := c.bridge.at[b].member.at[x];
    if LoadOps(c, x, m, Some(pf)) != [] {
      OneFor(c, k, b, LoadOps(c, x, m, Some(pf))[0]);
    }
  }

  lemma AttachOpsAre(c: Config, k: Kernel, v: KernelInterfaces, pf: PfState, b: Name, x: Name)
    requires Resolved(c) && b in c.bridge.at && x in c.bridge.at[b].member.at
    requires WellFormed(k) && Seen(k, v, pf, b, x) && Claims(c, b, x)
    ensures AllFor(c, k, b, AttachOps(c, v, Some(pf), b, x, c.bridge.at[b].member.at[x]))
  {
    var m := c.bridge.at[b].member.at[x];
    var load, tap, add := LoadOps(c, x, m, Some(pf)), CreateTap(x, m.description), AddMember(b, x);
    LoadOpsAre(c, k, pf, b, x);
    if !v.Has(x) {
      if m.typed {
        OneFor(c, k, b, tap);
        AllForConcat(c, k, b, [tap], load);
        OneFor(c, k, b, add);
        AllForConcat(c, k, b, [tap] + load, [add]);
      }
    } else if x !in v.MembersOf(b) {
      OneFor(c, k, b, add);
      AllForConcat(c, k, b, load, [add]);
    }
  }

  lemma TableOpsAre(c: Config, k: Kernel, v: KernelInterfaces, pf: PfState, b: Name, x: Name)
    requires Resolved(c) && b in c.bridge.at && x in c.bridge.at[b].member.at
    requires Seen(k, v, pf, b, x)
    ensures AllFor(c, k, b, TableOps(c, x, c.bridge.at[b].member.at[x], Some(pf)))
  {
    var m := c.bridge.at[b].member.at[x];
    if HasPolicy(c, m) && AnchorCurrent(c, m, pf, x) {
      var wanted := MemberTables(c, m);
      TableDriftOps(x, Sorted(wanted.Keys), wanted, pf[x]);
      assert PoliciedMember(c, b, x) && RulesOk(c, m, k, x);
      ReplacesAre(c, k, b, x, TableOps(c, x, m, Some(pf)));
    }
  }

  lemma ReplacesAre(c: Config, k: Kernel, b: Name, x: Name, ops: seq<Op>)
    requires Resolved(c) && PoliciedMember(c, b, x) && RulesOk(c, c.bridge.at[b].member.at[x], k, x)
    requires forall op :: op in ops ==> op.ReplaceTable? && op.ifname == x
    ensures AllFor(c, k, b, ops)
  {
  }

  lemma LockOpsAre(c: Config, k: Kernel, v: KernelInterfaces, b: Name, x: Name)
    requires Resolved(c) && b in c.bridge.at && x in c.bridge.at[b].member.at && Claims(c, b, x)
    ensures AllFor(c, k, b, LockOps(v, b, x, c.bridge.at[b].member.at[x]))
  {
  }

  lemma MemberAddsAre(c: Config, k: Kernel, v: KernelInterfaces, pf: PfState, b: Name, x: Name)
    requires Situation(c, k, v, pf) && b in c.bridge.at && x in c.bridge.at[b].member.at
    ensures AllFor(c, k, b, MemberAdds(c, v, Some(pf), b, x, c.bridge.at[b].member.at[x]))
  {
    var m := c.bridge.at[b].member.at[x];
    assert Claims(c, b, x);
    ClaimedAreSeen(c, k, v, pf, b, x);
    AttachOpsAre(c, k, v, pf, b, x);
    TableOpsAre(c, k, v, pf, b, x);
    LockOpsAre(c, k, v, b, x);
    AllForConcat(c, k, b, AttachOps(c, v, Some(pf), b, x, m), TableOps(c, x, m, Some(pf)));
    AllForConcat(c, k, b, AttachOps(c, v, Some(pf), b, x, m) + TableOps(c, x, m, Some(pf)), LockOps(v, b, x, m));
  }

  lemma {:induction false} MembersAddsAre(c: Config, k: Kernel, v: KernelInterfaces, pf: PfState, b: Name, j: nat)
    requires Situation(c, k, v, pf) && b in c.bridge.at && j <= |c.bridge.at[b].member.keys|
    ensures AllFor(c, k, b, MembersAdds(c, v, Some(pf), b, c.bridge.at[b].member, j))
  {
    hide MemberAdds, AddFor, Resolved;
    if j > 0 {
      var members := c.bridge.at[b].member;
      var x := members.keys[j - 1];
      assert x in members.keys;
      MembersAddsAre(c, k, v, pf, b, j - 1);
      MemberAddsAre(c, k, v, pf, b, x);
      AllForConcat(c, k, b, MembersAdds(c, v, Some(pf), b, members, j - 1), MemberAdds(c, v, Some(pf), b, x, members.at[x]));
    }
  }

  lemma UplinkAddsAre(c: Config, k: Kernel, v: KernelInterfaces, pf: PfState, b: Name)
    requires Situation(c, k, v, pf) && b in c.bridge.at
    ensures AllFor(c, k, b, UplinkAdds(c, v, b, c.bridge.at[b]))
  {
    if UplinkAdds(c, v, b, c.bridge.at[b]) != [] {
      var op := UplinkAdds(c, v, b, c.bridge.at[b])[0];
      assert Claims(c, b, op.member);
      ClaimedAreSeen(c, k, v, pf, b, op.member);
      OneFor(c, k, b, op);
    }
  }

  lemma BridgeAddsAre(c: Config, k: Kernel, v: KernelInterfaces, pf: PfState, b: Name)
    requires Situation(c, k, v, pf) && b in c.bridge.at
    ensures AllFor(c, k, b, BridgeAdds(c, v, Some(pf), b))
  {
    var bridge := c.bridge.at[b];
    MembersAddsAre(c, k, v, pf, b, |bridge.member.keys|);
    UplinkAddsAre(c, k, v, pf, b);
    AllForConcat(c, k, b, MembersAdds(c, v, Some(pf), b, bridge.member, |bridge.member.keys|), UplinkAdds(c, v, b, bridge));
  }

  lemma {:induction false} AddsAre(c: Config, k: Kernel, v: KernelInterfaces, pf: PfState, i: nat)
    requires Situation(c, k, v, pf) && i <= |c.bridge.keys|
    ensures forall op :: op in Adds(c, v, Some(pf), i) ==> IsAdd(c, k, op)
  {
    hide BridgeAdds, AddFor, Resolved;
    if i > 0 {
      var b := c.bridge.keys[i - 1];
      assert b in c.bridge.keys;
      AddsAre(c, k, v, pf, i - 1);
      BridgeAddsAre(c, k, v, pf, b);
      forall op | op in Adds(c, v, Some(pf), i) ensures IsAdd(c, k, op) {
        assert op in Adds(c, v, Some(pf), i - 1) || op in BridgeAdds(c, v, Some(pf), b);
      }
    }
  }

  ghost predicate IsAdd(c: Config, k: Kernel, op: Op)
    requires Resolved(c)
  {
    exists b :: b in c.bridge.at && AddFor(c, k, b, op)
  }

  ghost predicate IsCreate(c: Config, k: Kernel, op: Op)
    requires Resolved(c)
  {
    match op
    case CreateBridge(n, mx) => n in c.bridge.at && n !in k.ifs && mx == c.bridge.at[n].maxAddresses
    case SetMaxaddr(n, mx) => n in c.bridge.at && n in k.ifs && mx == c.bridge.at[n].maxAddresses
    case CreateVlan(n, p, vid) => n !in k.ifs && exists b :: b in c.bridge.at && IsVlanOf(c, b, n)
                                                            && p == c.physnet[c.bridge.at[b].segment.value.physnet]
                                                            && vid == c.bridge.at[b].segment.value.vid
    case _ => false
  }

  lemma {:induction false} CreatesAre(c: Config, k: Kernel, v: KernelInterfaces, pf: PfState, i: nat)
    requires Situation(c, k, v, pf) && i <= |c.bridge.keys|
    ensures forall op :: op in Creates(c, v, i) ==> IsCreate(c, k, op)
  {
    hide BridgeCreates, IsCreate, Resolved;
    if i > 0 {
      var b := c.bridge.keys[i - 1];
      assert b in c.bridge.keys;
      CreatesAre(c, k, v, pf, i - 1);
      BridgeCreatesAre(c, k, v, pf, b);
    }
  }

  lemma BridgeCreatesAre(c: Config, k: Kernel, v: KernelInterfaces, pf: PfState, b: Name)
    requires Situation(c, k, v, pf) && b in c.bridge.at
    ensures forall op :: op in BridgeCreates(c, v, b) ==> IsCreate(c, k, op)
  {
    assert v.Has(b) <==> b in k.ifs;
    forall op | op in UplinkCreates(c, c.bridge.at[b], v) ensures IsCreate(c, k, op) {
      var bridge := c.bridge.at[b];
      var name := UplinkNames(c, bridge)[0];
      ParentOfVlanName(c.physnet[bridge.segment.value.physnet], bridge.segment.value.vid);
      assert IsVlanOf(c, b, name);
      assert Claims(c, b, name);
      ClaimedAreSeen(c, k, v, pf, b, name);
    }
  }

  // ------------------------------------------------------ what adds can do

  ghost predicate AllAdds(c: Config, k: Kernel, ops: seq<Op>)
    requires Resolved(c)
  {
    forall i :: 0 <= i < |ops| ==> IsAdd(c, k, ops[i])
  }

  /** What any adds leave in place, and what they may bring about. */
  ghost predicate AddsBound(c: Config, k2: Kernel, k3: Kernel)
    requires Resolved(c)
  {
    && (forall x :: x in k2.ifs ==> x in k3.ifs && k3.ifs[x] == k2.ifs[x])
    && (forall x :: x in k3.ifs && x !in k2.ifs ==>
          k3.ifs[x] == Iface(false, true, None) && exists b :: TypedMember(c, b, x))
    && (forall x :: x in k3.master && Get(k2.master, x) != Get(k3.master, x) ==> Claims(c, k3.master[x], x))
    && (forall x :: x in k3.anchors && x !in k2.anchors ==> exists b :: PoliciedMember(c, b, x))
  }

  lemma AddBound(c: Config, k: Kernel, op: Op, k2: Kernel)
    requires Resolved(c) && IsAdd(c, k, op) && Enabled(op, k2)
    ensures AddsBound(c, k2, Effect(op, k2))
  {
    var b :| b in c.bridge.at && AddFor(c, k, b, op);
    var k3 := Effect(op, k2);
    if op.AddMember? {
      assert Claims(c, k3.master[op.member], op.member);
    }
  }

  lemma AddsBoundTrans(c: Config, k2: Kernel, k3: Kernel, k4: Kernel)
    requires Resolved(c) && AddsBound(c, k2, k3) && AddsBound(c, k3, k4)
    ensures AddsBound(c, k2, k4)
  {
    forall x | x in k4.master && Get(k2.master, x) != Get(k4.master, x) ensures Claims(c, k4.master[x], x) {
      if Get(k3.master, x) == Get(k4.master, x) {
        assert x in k3.master && k3.master[x] == k4.master[x];
      }
    }
    forall x | x in k4.ifs && x !in k2.ifs
      ensures k4.ifs[x] == Iface(false, true, None) && exists b :: TypedMember(c, b, x)
    {
      if x in k3.ifs {
        assert k4.ifs[x] == k3.ifs[x];
      }
    }
  }

  lemma {:induction false} AddsBounded(c: Config, k: Kernel, ops: seq<Op>, k2: Kernel)
    requires Resolved(c) && AllAdds(c, k, ops) && Executable(ops, k2)
    ensures AddsBound(c, k2, Apply(ops, k2))
    decreases |ops|
  {
    if ops != [] {
      AddBound(c, k, ops[0], k2);
      AddsBounded(c, k, ops[1..], Effect(ops[0], k2));
      AddsBoundTrans(c, k2, Effect(ops[0], k2), Apply(ops, k2));
    }
  }
}
