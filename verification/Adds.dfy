/**
 The adds phase: every claimed interface ends up present, policied, attached and locked.
 */
module AddsPhase {
  import opened Collections
  import opened Model
  import opened Pf
  import opened Ops
  import opened KernelModel
  import opened View
  import opened Planner
  import opened Reading
  import opened PlanShape
  import opened PlanContents
  import opened Phases

  // -------------------------------------------------------- what is wanted

  ghost predicate TablesOk(c: Config, m: Member, tables: map<Name, set<Addr>>)
    requires Resolved(c)
  {
    forall t :: t in MemberTables(c, m) ==> Lookup(tables, t) == MemberTables(c, m)[t]
  }

  ghost predicate RulesOk(c: Config, m: Member, k: Kernel, x: Name) {
    x in k.anchors && k.anchors[x].rules == Some(WantedRules(c, m))
  }

  /** Member x of bridge b is as its stanza wants it. Attached hardware may be missing;
      then only the tables of an anchor that is already loaded are kept current. */
  ghost predicate MemberDone(c: Config, b: Name, x: Name, m: Member, k: Kernel)
    requires Resolved(c)
  {
    && (m.typed ==> x in k.ifs)
    && (x in k.ifs ==> InBridge(k, b, x))
    && (HasPolicy(c, m) && x in k.ifs ==> RulesOk(c, m, k, x))
    && (HasPolicy(c, m) && RulesOk(c, m, k, x) ==> TablesOk(c, m, k.anchors[x].tables))
    && (m.bind.Some? ==> InBridge(k, b, x) && Get(k.lock, x) == Some(m.bind.value.mac))
  }

  ghost predicate UplinkDone(c: Config, b: Name, k: Kernel)
    requires Resolved(c) && b in c.bridge.at
  {
    forall x :: x in UplinkNames(c, c.bridge.at[b]) ==>
                  (Manufactured(c.bridge.at[b]) || x in k.ifs ==> x in k.ifs && InBridge(k, b, x))
  }

  // -------------------------------------------------------- where adds start

  ghost predicate PoliciedMember(c: Config, b: Name, x: Name)
    requires Resolved(c)
  {
    b in c.bridge.at && x in c.bridge.at[b].member.at && HasPolicy(c, c.bridge.at[b].member.at[x])
  }

  /** A claimed name when the adds phase reaches it: k is the kernel that was read. */
  ghost predicate Staged(c: Config, k: Kernel, k2: Kernel, b: Name, x: Name)
    requires Resolved(c)
  {
    && Claims(c, b, x)
    && !IsBridge(k2, x)
    && (x in k2.ifs <==> x in k.ifs || IsVlanOf(c, b, x))
    && (InBridge(k, b, x) ==> InBridge(k2, b, x) && Get(k2.lock, x) == Get(k.lock, x))
    && (!InBridge(k, b, x) ==> x !in k2.master)
    && (PoliciedMember(c, b, x) ==> Get(k2.anchors, x) == Get(k.anchors, x))
  }

  lemma StagedFrame(c: Config, k: Kernel, k2: Kernel, k3: Kernel, b: Name, x: Name)
    requires Resolved(c) && Staged(c, k, k2, b, x) && At(k3, x) == At(k2, x)
    ensures Staged(c, k, k3, b, x)
  {
    SameIface(k2, k3, x);
  }

  lemma SameIface(k: Kernel, k': Kernel, x: Name)
    requires At(k, x) == At(k', x)
    ensures x in k.ifs <==> x in k'.ifs
    ensures x in k.ifs ==> k.ifs[x] == k'.ifs[x]
    ensures x in k.master <==> x in k'.master
    ensures x in k.master ==> k.master[x] == k'.master[x]
    ensures x in k.anchors <==> x in k'.anchors
    ensures x in k.anchors ==> k.anchors[x] == k'.anchors[x]
  {
    assert Get(k.ifs, x) == Get(k'.ifs, x) && Get(k.master, x) == Get(k'.master, x) && Get(k.anchors, x) == Get(k'.anchors, x);
  }

  /** Ops that act on x alone and destroy nothing. */
  predicate Only(ops: seq<Op>, x: Name) {
    forall i :: 0 <= i < |ops| ==> Target(ops[i]) == x && !IsDestroy(ops[i])
  }

  lemma OnlyFrame(ops: seq<Op>, x: Name, k: Kernel, y: Name)
    requires WellFormed(k) && Executable(ops, k) && Only(ops, x) && y != x
    ensures At(Apply(ops, k), y) == At(k, y)
  {
    ApplyFrame(ops, k, y);
  }

  // --------------------------------------------------------------- tables

  /** Anchor x holds the wanted contents of some tables, and otherwise what it held. */
  ghost predicate Drifted(k: Kernel, k': Kernel, x: Name, names: seq<Name>, wanted: map<Name, set<Addr>>)
    requires forall i :: 0 <= i < |names| ==> names[i] in wanted
  {
    && x in k.anchors && x in k'.anchors
    && k' == k.(anchors := k.anchors[x := k'.anchors[x]])
    && k'.anchors[x].rules == k.anchors[x].rules
    && (forall i :: 0 <= i < |names| ==> Lookup(k'.anchors[x].tables, names[i]) == wanted[names[i]])
    && (forall t :: t !in names ==> Lookup(k'.anchors[x].tables, t) == Lookup(k.anchors[x].tables, t))
  }

  lemma {:induction false} RunTableDrift(x: Name, names: seq<Name>, wanted: map<Name, set<Addr>>, s: AnchorState, k: Kernel)
    requires forall i :: 0 <= i < |names| ==> names[i] in wanted
    requires NoDup(names) && x in k.anchors && k.anchors[x].tables == s.tables
    ensures Executable(TableDrift(x, names, wanted, s), k) && Only(TableDrift(x, names, wanted, s), x)
    ensures Drifted(k, Apply(TableDrift(x, names, wanted, s), k), x, names, wanted)
  {
    if names == [] {
      assert k.anchors == k.anchors[x := k.anchors[x]];
    } else {
      var rest, t := names[..|names| - 1], names[|names| - 1];
      assert names == rest + [t];
      assert t !in rest;
      RunTableDrift(x, rest, wanted, s, k);
      var before := TableDrift(x, rest, wanted, s);
      var k1 := Apply(before, k);
      assert Lookup(k1.anchors[x].tables, t) == KnownTable(s, t);
      if wanted[t] == KnownTable(s, t) {
        assert TableDrift(x, names, wanted, s) == before;
      } else {
        var op := ReplaceTable(x, t, wanted[t]);
        assert TableDrift(x, names, wanted, s) == before + [op];
        RunOne(op, k1);
        ApplyConcat(before, [op], k);
        DriftOneMore(k, k1, x, rest, wanted, t);
      }
    }
  }

  lemma DriftOneMore(k: Kernel, k1: Kernel, x: Name, rest: seq<Name>, wanted: map<Name, set<Addr>>, t: Name)
    requires forall i :: 0 <= i < |rest| ==> rest[i] in wanted
    requires t in wanted && t !in rest && Drifted(k, k1, x, rest, wanted)
    ensures Drifted(k, Effect(ReplaceTable(x, t, wanted[t]), k1), x, rest + [t], wanted)
  {
    var k2 := Effect(ReplaceTable(x, t, wanted[t]), k1);
    assert k2.anchors == k.anchors[x := k2.anchors[x]];
    assert forall u :: Lookup(k2.anchors[x].tables, u) == if u == t then wanted[t] else Lookup(k1.anchors[x].tables, u);
  }

  /** The anchor under x is the one the pass read. */
  ghost predicate SameAnchor(k: Kernel, pf: PfState, x: Name) {
    && (x in k.anchors <==> x in pf && pf[x].exists_)
    && (x in k.anchors ==> k.anchors[x].rules == pf[x].hash && k.anchors[x].tables == pf[x].tables)
  }

  lemma RunTableOps(c: Config, k: Kernel, pf: PfState, x: Name, m: Member)
    requires Valid(c) && SameAnchor(k, pf, x)
    requires HasPolicy(c, m) && AnchorCurrent(c, m, pf, x)
    ensures Executable(TableOps(c, x, m, Some(pf)), k) && Only(TableOps(c, x, m, Some(pf)), x)
    ensures var k' := Apply(TableOps(c, x, m, Some(pf)), k);
            RulesOk(c, m, k', x) && k' == k.(anchors := k.anchors[x := k'.anchors[x]]) && TablesOk(c, m, k'.anchors[x].tables)
  {
    var wanted := MemberTables(c, m);
    var names := Sorted(wanted.Keys);
    assert NoDup(names);
    RunTableDrift(x, names, wanted, pf[x], k);
    var k' := Apply(TableOps(c, x, m, Some(pf)), k);
    forall t | t in wanted ensures Lookup(k'.anchors[x].tables, t) == wanted[t] {
      assert t in names;
    }
  }

  // --------------------------------------------------------------- attaching

  predicate Present(k: Kernel, x: Name, m: Member) {
    x in k.ifs || m.typed
  }

  ghost predicate NeedsLoad(c: Config, m: Member, pf: PfState, x: Name) {
    HasPolicy(c, m) && !AnchorCurrent(c, m, pf, x)
  }

  lemma RunLoad(c: Config, pf: PfState, x: Name, m: Member, k: Kernel)
    requires Valid(c)
    ensures var load := LoadOps(c, x, m, Some(pf));
            && Executable(load, k) && Only(load, x)
            && var k' := Apply(load, k);
               && (!NeedsLoad(c, m, pf, x) ==> k' == k)
               && (NeedsLoad(c, m, pf, x) ==>
                     RulesOk(c, m, k', x) && TablesOk(c, m, k'.anchors[x].tables) && k' == k.(anchors := k.anchors[x := k'.anchors[x]]))
  {
    if NeedsLoad(c, m, pf, x) {
      RunOne(LoadOps(c, x, m, Some(pf))[0], k);
    }
  }

  lemma RunTwo(a: seq<Op>, op: Op, k: Kernel, x: Name)
    requires Executable(a, k) && Enabled(op, Apply(a, k))
    requires Only(a, x) && Only([op], x)
    ensures Executable(a + [op], k) && Only(a + [op], x) && Apply(a + [op], k) == Effect(op, Apply(a, k))
  {
    RunOne(op, Apply(a, k));
    ApplyConcat(a, [op], k);
  }

  /** What attaching leaves behind, the anchor aside. */
  ghost predicate Attached(k: Kernel, k4: Kernel, b: Name, x: Name, m: Member) {
    && (x in k4.ifs <==> Present(k, x, m))
    && (x in k4.ifs ==> InBridge(k4, b, x))
    && Get(k4.lock, x) == (if InBridge(k, b, x) then Get(k.lock, x) else None)
  }

  ghost predicate AnchorAttached(c: Config, k3: Kernel, k4: Kernel, pf: PfState, x: Name, m: Member, present: bool)
    requires Resolved(c)
  {
    if NeedsLoad(c, m, pf, x) && present then RulesOk(c, m, k4, x) && TablesOk(c, m, k4.anchors[x].tables)
    else Get(k4.anchors, x) == Get(k3.anchors, x)
  }

  /** What the view says about one claimed name. */
  ghost predicate Seen(k: Kernel, v: KernelInterfaces, pf: PfState, b: Name, x: Name) {
    && (v.Has(x) <==> x in k.ifs)
    && (x in v.MembersOf(b) <==> InBridge(k, b, x))
    && v.StaticLock(b, x) == (if InBridge(k, b, x) then Get(k.lock, x) else None)
    && SameAnchor(k, pf, x)
  }

  lemma ClaimedAreSeen(c: Config, k: Kernel, v: KernelInterfaces, pf: PfState, b: Name, x: Name)
    requires Situation(c, k, v, pf) && Claims(c, b, x)
    ensures Seen(k, v, pf, b, x)
  {
    assert Claimed(c, x);
    assert v.Has(x) <==> x in k.ifs;
    assert v.Has(b) <==> b in k.ifs;
    if v.Has(b) {
      assert v.interfaces.at[b].isBridge;
    }
  }

  lemma AttachNew(c: Config, pf: PfState, k3: Kernel, b: Name, x: Name, m: Member)
    requires Valid(c) && IsBridge(k3, b) && x !in k3.ifs && x !in k3.master
    ensures var ops := [CreateTap(x, m.description)] + LoadOps(c, x, m, Some(pf)) + [AddMember(b, x)];
            && Executable(ops, k3) && Only(ops, x)
            && var k4 := Apply(ops, k3);
               && x in k4.ifs && InBridge(k4, b, x) && k4.lock == k3.lock
               && AnchorAttached(c, k3, k4, pf, x, m, true)
  {
    var load := LoadOps(c, x, m, Some(pf));
    var tap := CreateTap(x, m.description);
    RunOne(tap, k3);
    var k1 := Effect(tap, k3);
    RunLoad(c, pf, x, m, k1);
    ApplyConcat([tap], load, k3);
    RunTwo([tap] + load, AddMember(b, x), k3, x);
  }

  lemma AttachExisting(c: Config, pf: PfState, k3: Kernel, b: Name, x: Name, m: Member)
    requires Valid(c) && IsBridge(k3, b) && x in k3.ifs && !IsBridge(k3, x) && x !in k3.master
    ensures var ops := LoadOps(c, x, m, Some(pf)) + [AddMember(b, x)];
            && Executable(ops, k3) && Only(ops, x)
            && var k4 := Apply(ops, k3);
               && x in k4.ifs && InBridge(k4, b, x) && k4.lock == k3.lock
               && AnchorAttached(c, k3, k4, pf, x, m, true)
  {
    RunLoad(c, pf, x, m, k3);
    RunTwo(LoadOps(c, x, m, Some(pf)), AddMember(b, x), k3, x);
  }

  lemma RunAttach(c: Config, k: Kernel, v: KernelInterfaces, pf: PfState, k3: Kernel, b: Name, x: Name, m: Member)
    requires Valid(c) && WellFormed(k) && WellFormed(k3) && Seen(k, v, pf, b, x)
    requires Staged(c, k, k3, b, x) && IsBridge(k3, b) && !IsVlanOf(c, b, x)
    ensures var ops := AttachOps(c, v, Some(pf), b, x, m);
            && Executable(ops, k3) && Only(ops, x)
            && var k4 := Apply(ops, k3);
               Attached(k, k4, b, x, m) && AnchorAttached(c, k3, k4, pf, x, m, Present(k, x, m))
  {
    assert x !in k3.master ==> x !in k3.lock;
    if !v.Has(x) {
      if m.typed {
        AttachNew(c, pf, k3, b, x, m);
      }
    } else if x !in v.MembersOf(b) {
      AttachExisting(c, pf, k3, b, x, m);
    } else {
      RunLoad(c, pf, x, m, k3);
    }
  }

  /** The anchor after the table ops too. */
  lemma RunAttachAndTables(c: Config, k: Kernel, v: KernelInterfaces, pf: PfState, k3: Kernel, b: Name, x: Name, m: Member)
    requires Valid(c) && WellFormed(k) && WellFormed(k3) && Seen(k, v, pf, b, x)
    requires Staged(c, k, k3, b, x) && IsBridge(k3, b) && !IsVlanOf(c, b, x)
    requires HasPolicy(c, m) ==> Get(k3.anchors, x) == Get(k.anchors, x)
    ensures var ops := AttachOps(c, v, Some(pf), b, x, m) + TableOps(c, x, m, Some(pf));
            && Executable(ops, k3) && Only(ops, x)
            && var k5 := Apply(ops, k3);
               && Attached(k, k5, b, x, m)
               && (HasPolicy(c, m) && x in k5.ifs ==> RulesOk(c, m, k5, x))
               && (HasPolicy(c, m) && RulesOk(c, m, k5, x) ==> TablesOk(c, m, k5.anchors[x].tables))
  {
    var attach, tables := AttachOps(c, v, Some(pf), b, x, m), TableOps(c, x, m, Some(pf));
    RunAttach(c, k, v, pf, k3, b, x, m);
    var k4 := Apply(attach, k3);
    if HasPolicy(c, m) && AnchorCurrent(c, m, pf, x) {
      assert Get(k4.anchors, x) == Get(k.anchors, x);
      RunTableOps(c, k4, pf, x, m);
    } else if HasPolicy(c, m) && !Present(k, x, m) {
      assert Get(k4.anchors, x) == Get(k.anchors, x);
    }
    ApplyConcat(attach, tables, k3);
  }

  lemma RunLock(k: Kernel, v: KernelInterfaces, pf: PfState, k5: Kernel, b: Name, x: Name, m: Member)
    requires Seen(k, v, pf, b, x) && Attached(k, k5, b, x, m)
    requires m.bind.Some? ==> m.typed
    ensures var ops := LockOps(v, b, x, m);
            && Executable(ops, k5) && Only(ops, x)
            && var k6 := Apply(ops, k5);
               && k6 == k5.(lock := k6.lock)
               && (m.bind.Some? ==> Get(k6.lock, x) == Some(m.bind.value.mac))
  {
    var ops := LockOps(v, b, x, m);
    if ops != [] {
      RunOne(ops[0], k5);
    }
  }

  /** A member's adds make it as its stanza wants it. */
  lemma RunMemberAdds(c: Config, k: Kernel, v: KernelInterfaces, pf: PfState, k3: Kernel, b: Name, x: Name, m: Member)
    requires Valid(c) && WellFormed(k) && WellFormed(k3) && Seen(k, v, pf, b, x)
    requires Staged(c, k, k3, b, x) && IsBridge(k3, b) && !IsVlanOf(c, b, x)
    requires HasPolicy(c, m) ==> Get(k3.anchors, x) == Get(k.anchors, x)
    requires m.bind.Some? ==> m.typed
    ensures Executable(MemberAdds(c, v, Some(pf), b, x, m), k3) && Only(MemberAdds(c, v, Some(pf), b, x, m), x)
    ensures MemberDone(c, b, x, m, Apply(MemberAdds(c, v, Some(pf), b, x, m), k3))
  {
    var first := AttachOps(c, v, Some(pf), b, x, m) + TableOps(c, x, m, Some(pf));
    var lock := LockOps(v, b, x, m);
    RunAttachAndTables(c, k, v, pf, k3, b, x, m);
    var k5 := Apply(first, k3);
    RunLock(k, v, pf, k5, b, x, m);
    var k6 := Apply(lock, k5);
    Chain(first, lock, k3, x);
    assert MemberDone(c, b, x, m, k6) by {
      DoneAfterLock(c, k, k5, k6, b, x, m);
    }
    assert MemberAdds(c, v, Some(pf), b, x, m) == first + lock;
  }

  lemma Chain(a: seq<Op>, b: seq<Op>, k: Kernel, x: Name)
    requires Executable(a, k) && Executable(b, Apply(a, k)) && Only(a, x) && Only(b, x)
    ensures Executable(a + b, k) && Only(a + b, x) && Apply(a + b, k) == Apply(b, Apply(a, k))
  {
    ApplyConcat(a, b, k);
  }

  lemma DoneAfterLock(c: Config, k: Kernel, k5: Kernel, k6: Kernel, b: Name, x: Name, m: Member)
    requires Resolved(c) && Attached(k, k5, b, x, m) && k6 == k5.(lock := k6.lock)
    requires HasPolicy(c, m) && x in k5.ifs ==> RulesOk(c, m, k5, x)
    requires HasPolicy(c, m) && RulesOk(c, m, k5, x) ==> TablesOk(c, m, k5.anchors[x].tables)
    requires m.bind.Some? ==> m.typed && Get(k6.lock, x) == Some(m.bind.value.mac)
    ensures MemberDone(c, b, x, m, k6)
  {
  }

  // --------------------------------------------------------- a whole stanza

  lemma DoneFrame(c: Config, b: Name, x: Name, m: Member, k: Kernel, k': Kernel)
    requires Resolved(c) && MemberDone(c, b, x, m, k) && At(k', x) == At(k, x)
    ensures MemberDone(c, b, x, m, k')
  {
    SameIface(k, k', x);
    assert Get(k'.lock, x) == Get(k.lock, x);
  }

  lemma BridgeFrame(k: Kernel, k': Kernel, b: Name)
    requires IsBridge(k, b) && At(k', b) == At(k, b)
    ensures IsBridge(k', b)
  {
    SameIface(k, k', b);
  }

  /** The stanza of b can be processed: its bridge is there, its names are staged. */
  ghost predicate StanzaReady(c: Config, k: Kernel, k2: Kernel, b: Name)
    requires Resolved(c)
  {
    WellFormed(k2) && IsBridge(k2, b) && forall x :: Claims(c, b, x) ==> Staged(c, k, k2, b, x)
  }

  ghost predicate Unclaimed(c: Config, b: Name, k: Kernel, k': Kernel)
    requires Resolved(c)
  {
    forall y :: !Claims(c, b, y) ==> At(k', y) == At(k, y)
  }

  ghost predicate MembersDone(c: Config, b: Name, j: nat, k: Kernel)
    requires Resolved(c) && b in c.bridge.at && j <= |c.bridge.at[b].member.keys|
  {
    forall i :: 0 <= i < j ==>
                  var x := c.bridge.at[b].member.keys[i];
                  x in c.bridge.at[b].member.at && MemberDone(c, b, x, c.bridge.at[b].member.at[x], k)
  }

  ghost predicate ChangedOnly(k: Kernel, k': Kernel, names: seq<Name>) {
    forall y :: y !in names ==> At(k', y) == At(k, y)
  }

  lemma MembersDoneStep(c: Config, b: Name, j: nat, k3: Kernel, k': Kernel)
    requires Valid(c) && b in c.bridge.at && 0 < j <= |c.bridge.at[b].member.keys|
    requires MembersDone(c, b, j - 1, k3) && ChangedOnly(k3, k', [c.bridge.at[b].member.keys[j - 1]])
    requires c.bridge.at[b].member.keys[j - 1] in c.bridge.at[b].member.at
    requires MemberDone(c, b, c.bridge.at[b].member.keys[j - 1], c.bridge.at[b].member.at[c.bridge.at[b].member.keys[j - 1]], k')
    ensures MembersDone(c, b, j, k')
  {
    var members := c.bridge.at[b].member;
    forall i | 0 <= i < j
      ensures var x := members.keys[i]; x in members.at && MemberDone(c, b, x, members.at[x], k')
    {
      if i < j - 1 {
        DoneFrame(c, b, members.keys[i], members.at[members.keys[i]], k3, k');
      }
    }
  }

  lemma {:induction false} RunMembersAdds(c: Config, k: Kernel, v: KernelInterfaces, pf: PfState, k2: Kernel, b: Name, j: nat)
    requires Situation(c, k, v, pf) && Distinct(c)
    requires b in c.bridge.at && j <= |c.bridge.at[b].member.keys|
    requires StanzaReady(c, k, k2, b)
    ensures Executable(MembersAdds(c, v, Some(pf), b, c.bridge.at[b].member, j), k2)
    ensures var k' := Apply(MembersAdds(c, v, Some(pf), b, c.bridge.at[b].member, j), k2);
            WellFormed(k') && MembersDone(c, b, j, k') && ChangedOnly(k2, k', c.bridge.at[b].member.keys[..j])
  {
    hide Distinct, MemberAdds, MemberDone, Staged, Reads, ReadsPf, NoConflict;
    var members := c.bridge.at[b].member;
    if j > 0 {
      RunMembersAdds(c, k, v, pf, k2, b, j - 1);
      var before := MembersAdds(c, v, Some(pf), b, members, j - 1);
      var k3 := Apply(before, k2);
      var x := members.keys[j - 1];
      assert x in members.keys;
      RunNextMember(c, k, v, pf, k2, k3, b, j);
      var ops := MemberAdds(c, v, Some(pf), b, x, members.at[x]);
      ApplyConcat(before, ops, k2);
      MembersDoneStep(c, b, j, k3, Apply(ops, k3));
      ChangedOnlyStep(k2, k3, Apply(ops, k3), members.keys, j);
    }
  }

  lemma ChangedOnlyStep(k2: Kernel, k3: Kernel, k': Kernel, keys: seq<Name>, j: nat)
    requires 0 < j <= |keys|
    requires ChangedOnly(k2, k3, keys[..j - 1]) && ChangedOnly(k3, k', [keys[j - 1]])
    ensures ChangedOnly(k2, k', keys[..j])
  {
    assert keys[..j] == keys[..j - 1] + [keys[j - 1]];
  }

  lemma RunNextMember(c: Config, k: Kernel, v: KernelInterfaces, pf: PfState, k2: Kernel, k3: Kernel, b: Name, j: nat)
    requires Situation(c, k, v, pf) && Distinct(c)
    requires b in c.bridge.at && 0 < j <= |c.bridge.at[b].member.keys|
    requires StanzaReady(c, k, k2, b) && WellFormed(k3)
    requires ChangedOnly(k2, k3, c.bridge.at[b].member.keys[..j - 1])
    ensures var x := c.bridge.at[b].member.keys[j - 1];
            && x in c.bridge.at[b].member.at
            && var ops := MemberAdds(c, v, Some(pf), b, x, c.bridge.at[b].member.at[x]);
               && Executable(ops, k3)
               && var k' := Apply(ops, k3);
                  && WellFormed(k') && MemberDone(c, b, x, c.bridge.at[b].member.at[x], k')
                  && ChangedOnly(k3, k', [x])
  {
    var members := c.bridge.at[b].member;
    var x := members.keys[j - 1];
    var m := members.at[x];
    assert x in members.keys && x !in members.keys[..j - 1];
    assert Claims(c, b, x);
    MemberIsNotUplink(c, b, x);
    StagedFrame(c, k, k2, k3, b, x);
    assert b !in members.keys by {
      assert forall y :: y in members.keys ==> Claims(c, b, y);
    }
    BridgeFrame(k2, k3, b);
    ClaimedAreSeen(c, k, v, pf, b, x);
    assert HasPolicy(c, m) ==> PoliciedMember(c, b, x);
    RunMemberAdds(c, k, v, pf, k3, b, x, m);
    var ops := MemberAdds(c, v, Some(pf), b, x, m);
    ApplyWellFormed(ops, k3);
    forall y | y != x ensures At(Apply(ops, k3), y) == At(k3, y) {
      OnlyFrame(ops, x, k3, y);
    }
  }

  lemma MemberIsNotUplink(c: Config, b: Name, x: Name)
    requires Valid(c) && Distinct(c) && b in c.bridge.at && x in c.bridge.at[b].member.keys
    ensures x !in UplinkNames(c, c.bridge.at[b]) && !IsVlanOf(c, b, x)
  {
    var uplinks, keys := UplinkNames(c, c.bridge.at[b]), c.bridge.at[b].member.keys;
    var i :| 0 <= i < |keys| && keys[i] == x;
    var names := uplinks + keys;
    assert NoDup(WantedNames(c, c.bridge.at[b]));
    forall j | 0 <= j < |uplinks| ensures uplinks[j] != x {
      assert names[j] != names[|uplinks| + i];
    }
  }

  lemma RunUplinkAdds(c: Config, k: Kernel, v: KernelInterfaces, pf: PfState, k3: Kernel, b: Name)
    requires Situation(c, k, v, pf) && b in c.bridge.at && WellFormed(k3) && IsBridge(k3, b)
    requires forall x :: x in UplinkNames(c, c.bridge.at[b]) ==> Staged(c, k, k3, b, x)
    ensures var ops := UplinkAdds(c, v, b, c.bridge.at[b]);
            && Executable(ops, k3)
            && var k' := Apply(ops, k3);
               && WellFormed(k') && UplinkDone(c, b, k')
               && forall y :: y !in UplinkNames(c, c.bridge.at[b]) ==> At(k', y) == At(k3, y)
  {
    var names, ops := UplinkNames(c, c.bridge.at[b]), UplinkAdds(c, v, b, c.bridge.at[b]);
    if names != [] {
      var x := names[0];
      assert x in names;
      assert Claims(c, b, x);
      assert IsVlanOf(c, b, x) <==> Manufactured(c.bridge.at[b]);
      ClaimedAreSeen(c, k, v, pf, b, x);
      if ops != [] {
        RunOne(ops[0], k3);
        EffectWellFormed(ops[0], k3);
        forall y | y !in names ensures At(Effect(ops[0], k3), y) == At(k3, y) {
          EffectFrame(ops[0], k3, y);
        }
      }
    }
  }

  ghost predicate BridgeDone(c: Config, b: Name, k: Kernel)
    requires Resolved(c) && b in c.bridge.at
  {
    && (forall x :: x in c.bridge.at[b].member.at ==> MemberDone(c, b, x, c.bridge.at[b].member.at[x], k))
    && UplinkDone(c, b, k)
  }

  lemma RunBridgeAdds(c: Config, k: Kernel, v: KernelInterfaces, pf: PfState, k2: Kernel, b: Name)
    requires Situation(c, k, v, pf) && Distinct(c) && b in c.bridge.at && StanzaReady(c, k, k2, b)
    ensures Executable(BridgeAdds(c, v, Some(pf), b), k2)
    ensures var k' := Apply(BridgeAdds(c, v, Some(pf), b), k2);
            WellFormed(k') && BridgeDone(c, b, k') && Unclaimed(c, b, k2, k')
  {
    var bridge := c.bridge.at[b];
    var n := |bridge.member.keys|;
    var members, uplink := MembersAdds(c, v, Some(pf), b, bridge.member, n), UplinkAdds(c, v, b, bridge);
    RunMembersAdds(c, k, v, pf, k2, b, n);
    assert bridge.member.keys[..n] == bridge.member.keys;
    var k3 := Apply(members, k2);
    forall x | x in UplinkNames(c, bridge) ensures Staged(c, k, k3, b, x) {
      assert Claims(c, b, x);
      if x in bridge.member.keys { MemberIsNotUplink(c, b, x); }
      StagedFrame(c, k, k2, k3, b, x);
    }
    assert !Claims(c, b, b);
    BridgeFrame(k2, k3, b);
    RunUplinkAdds(c, k, v, pf, k3, b);
    ApplyConcat(members, uplink, k2);
    var k' := Apply(uplink, k3);
    forall x | x in bridge.member.at ensures MemberDone(c, b, x, bridge.member.at[x], k') {
      var i := KeyIndex(bridge.member.keys, x);
      MemberIsNotUplink(c, b, x);
      DoneFrame(c, b, x, bridge.member.at[x], k3, k');
    }
  }

  // ------------------------------------------------------------ every stanza

  lemma BridgeDoneFrame(c: Config, b: Name, k: Kernel, k': Kernel)
    requires Valid(c) && b in c.bridge.at && BridgeDone(c, b, k)
    requires forall x :: Claims(c, b, x) ==> At(k', x) == At(k, x)
    ensures BridgeDone(c, b, k')
  {
    forall x | x in c.bridge.at[b].member.at ensures MemberDone(c, b, x, c.bridge.at[b].member.at[x], k') {
      assert Claims(c, b, x);
      DoneFrame(c, b, x, c.bridge.at[b].member.at[x], k, k');
    }
    forall x | x in UplinkNames(c, c.bridge.at[b])
      ensures Manufactured(c.bridge.at[b]) || x in k'.ifs ==> x in k'.ifs && InBridge(k', b, x)
    {
      assert Claims(c, b, x);
      SameIface(k, k', x);
    }
  }

  ghost predicate BridgesDone(c: Config, i: nat, k: Kernel)
    requires Valid(c) && i <= |c.bridge.keys|
  {
    forall j :: 0 <= j < i ==> c.bridge.keys[j] in c.bridge.at && BridgeDone(c, c.bridge.keys[j], k)
  }

  ghost predicate ClaimedBefore(c: Config, i: nat, y: Name)
    requires Valid(c) && i <= |c.bridge.keys|
  {
    exists j :: 0 <= j < i && Claims(c, c.bridge.keys[j], y)
  }

  ghost predicate ChangedClaims(c: Config, i: nat, k: Kernel, k': Kernel)
    requires Valid(c) && i <= |c.bridge.keys|
  {
    forall y :: !ClaimedBefore(c, i, y) ==> At(k', y) == At(k, y)
  }

  lemma BridgesDoneStep(c: Config, i: nat, k2: Kernel, k3: Kernel, k': Kernel)
    requires Valid(c) && Distinct(c) && 0 < i <= |c.bridge.keys|
    requires c.bridge.keys[i - 1] in c.bridge.at
    requires BridgesDone(c, i - 1, k3) && Unclaimed(c, c.bridge.keys[i - 1], k3, k') && BridgeDone(c, c.bridge.keys[i - 1], k')
    requires ChangedClaims(c, i - 1, k2, k3)
    ensures BridgesDone(c, i, k') && ChangedClaims(c, i, k2, k')
  {
    forall j | 0 <= j < i ensures c.bridge.keys[j] in c.bridge.at && BridgeDone(c, c.bridge.keys[j], k') {
      if j < i - 1 {
        assert c.bridge.keys[j] != c.bridge.keys[i - 1];
        BridgeDoneFrame(c, c.bridge.keys[j], k3, k');
      }
    }
    forall y | !ClaimedBefore(c, i, y) ensures At(k', y) == At(k2, y) {
      assert !Claims(c, c.bridge.keys[i - 1], y);
      assert !ClaimedBefore(c, i - 1, y);
    }
  }

  /** The adds of the first i stanzas run, and leave those done and the rest as they were. */
  ghost predicate AddsRun(c: Config, v: KernelInterfaces, pf: PfState, k2: Kernel, i: nat)
    requires Valid(c) && i <= |c.bridge.keys|
  {
    && Executable(Adds(c, v, Some(pf), i), k2)
    && var k' := Apply(Adds(c, v, Some(pf), i), k2);
       WellFormed(k') && BridgesDone(c, i, k') && ChangedClaims(c, i, k2, k')
  }

  ghost predicate AllReady(c: Config, k: Kernel, k2: Kernel)
    requires Resolved(c)
  {
    forall b :: b in c.bridge.at ==> StanzaReady(c, k, k2, b)
  }

  lemma {:induction false} RunAdds(c: Config, k: Kernel, v: KernelInterfaces, pf: PfState, k2: Kernel, i: nat)
    requires Valid(c) && Situation(c, k, v, pf) && Distinct(c) && i <= |c.bridge.keys|
    requires AllReady(c, k, k2) && WellFormed(k2)
    ensures AddsRun(c, v, pf, k2, i)
  {
    hide Situation, Valid, Resolved, Distinct, AllReady, WellFormed, AddsRun;
    if i == 0 {
      RunNoAdds(c, v, pf, k2);
    } else {
      RunAdds(c, k, v, pf, k2, i - 1);
      RunNextAdds(c, k, v, pf, k2, i);
    }
  }

  lemma RunNoAdds(c: Config, v: KernelInterfaces, pf: PfState, k2: Kernel)
    requires Valid(c) && WellFormed(k2)
    ensures AddsRun(c, v, pf, k2, 0)
  {
  }

  lemma RunNextAdds(c: Config, k: Kernel, v: KernelInterfaces, pf: PfState, k2: Kernel, i: nat)
    requires Situation(c, k, v, pf) && Distinct(c) && 0 < i <= |c.bridge.keys|
    requires AllReady(c, k, k2) && AddsRun(c, v, pf, k2, i - 1)
    ensures AddsRun(c, v, pf, k2, i)
  {
    var b := c.bridge.keys[i - 1];
    assert b in c.bridge.keys;
    hide Situation, Distinct, AllReady, StanzaReady, BridgesDone, ChangedClaims, WellFormed, BridgeAdds;
    var before, ops := Adds(c, v, Some(pf), i - 1), BridgeAdds(c, v, Some(pf), b);
    var k3 := Apply(before, k2);
    NextStanzaReady(c, k, k2, k3, i);
    RunBridgeAdds(c, k, v, pf, k3, b);
    ApplyConcat(before, ops, k2);
    BridgesDoneStep(c, i, k2, k3, Apply(ops, k3));
  }

  lemma NextStanzaReady(c: Config, k: Kernel, k2: Kernel, k3: Kernel, i: nat)
    requires Valid(c) && Distinct(c) && 0 < i <= |c.bridge.keys|
    requires AllReady(c, k, k2) && WellFormed(k3)
    requires ChangedClaims(c, i - 1, k2, k3)
    ensures StanzaReady(c, k, k3, c.bridge.keys[i - 1])
  {
    var b := c.bridge.keys[i - 1];
    assert b in c.bridge.keys;
    assert !ClaimedBefore(c, i - 1, b);
    BridgeFrame(k2, k3, b);
    forall x | Claims(c, b, x) ensures Staged(c, k, k3, b, x) {
      assert !ClaimedBefore(c, i - 1, x);
      StagedFrame(c, k, k2, k3, b, x);
    }
  }
}
