/**
 What each list of a plan contains, in terms of the kernel that was read.
 `Reads` is a faithful view: the whole kernel, or the part `read_interfaces` asks for.
 */
module Reading {
  import opened Collections
  import opened Model
  import opened Pf
  import opened KernelModel
  import opened View
  import opened Planner

  /** Bridge b's stanza wants x as a member. */
  predicate Claims(c: Config, b: Name, x: Name)
    requires Resolved(c)
  {
    b in c.bridge.at && x in WantedNames(c, c.bridge.at[b])
  }

  ghost predicate Claimed(c: Config, x: Name)
    requires Resolved(c)
  {
    exists b :: Claims(c, b, x)
  }

  /** One interface block, as ifconfig prints it. */
  ghost predicate ReadsIface(k: Kernel, x: Name, i: Interface) {
    && x in k.ifs
    && i.isBridge == k.ifs[x].isBridge
    && i.isOwned == k.ifs[x].owned
    && i.maxaddr == k.ifs[x].maxaddr
    && NoDup(i.members)
    && (forall m :: m in i.members <==> InBridge(k, x, m))
  }

  /** A view a pass may plan on: everything in it is true, and everything owned, claimed
      or sitting in a bridge it shows is in it. */
  ghost predicate Reads(k: Kernel, c: Config, v: KernelInterfaces)
    requires Resolved(c)
  {
    && v.interfaces.Valid()
    && (forall x :: x in v.interfaces.at ==> ReadsIface(k, x, v.interfaces.at[x]))
    && NoDup(v.owned)
    && (forall x :: x in v.owned <==> IsOwned(k, x))
    && (forall x :: IsOwned(k, x) ==> x in v.interfaces.at)
    && (forall x :: x in k.ifs && (x in c.bridge.at || Claimed(c, x)) ==> x in v.interfaces.at)
    && (forall m :: m in k.master && k.master[m] in v.interfaces.at ==> m in v.interfaces.at)
    && (forall b :: b in v.addrs ==> b in v.interfaces.at)
    && (forall b, m :: b in v.interfaces.at && v.interfaces.at[b].isBridge ==>
          v.StaticLock(b, m) == if InBridge(k, b, m) then Get(k.lock, m) else None)
  }

  /** The anchors as pfctl reports them; an anchor with content is never missed. */
  ghost predicate ReadsPf(k: Kernel, pf: PfState) {
    && (forall x :: x in k.anchors ==> x in pf)
    && (forall x :: x in pf ==> pf[x].exists_ == (x in k.anchors))
    && (forall x :: x in k.anchors && x in pf ==> pf[x].hash == k.anchors[x].rules && pf[x].tables == k.anchors[x].tables)
  }

  // --------------------------------------------------------------- hypotheses

  /** Names are claimed once, and never for a bridge; a bound member is typed. */
  ghost predicate Distinct(c: Config)
    requires Valid(c)
  {
    && (forall b, x :: Claims(c, b, x) ==> x !in c.bridge.at)
    && (forall b, b', x :: Claims(c, b, x) && Claims(c, b', x) ==> b == b')
    && (forall b :: b in c.bridge.at ==> NoDup(WantedNames(c, c.bridge.at[b])))
    && (forall b, m :: b in c.bridge.at && m in c.bridge.at[b].member.at ==>
          c.bridge.at[b].member.at[m].bind.Some? ==> c.bridge.at[b].member.at[m].typed)
  }

  /** Vlan trunks are present, foreign hardware. */
  ghost predicate TrunksExist(c: Config, k: Kernel)
    requires Resolved(c)
  {
    forall b :: b in c.bridge.at && Manufactured(c.bridge.at[b]) ==>
                  var trunk := c.physnet[c.bridge.at[b].segment.value.physnet];
                  trunk in k.ifs && !k.ifs[trunk].owned
  }

  /** No claimed name is a bridge, and none sits in a bridge the agent does not own. */
  ghost predicate Uncaptured(c: Config, k: Kernel)
    requires Resolved(c)
  {
    && (forall x :: Claimed(c, x) ==> !IsBridge(k, x))
    && (forall x :: Claimed(c, x) && x in k.master ==> IsOwned(k, k.master[x]))
  }

  /** A claimed owned interface sits in the bridge that claims it, or in none. */
  ghost predicate Home(c: Config, k: Kernel)
    requires Resolved(c)
  {
    forall b, x :: Claims(c, b, x) && IsOwned(k, x) && x in k.master ==> k.master[x] == b
  }

  /** The planner's errors cannot arise. */
  ghost predicate NoConflict(c: Config, k: Kernel)
    requires Resolved(c)
  {
    && (forall b :: b in c.bridge.at ==> !UplinkTooLong(c, c.bridge.at[b]))
    && (forall b :: b in c.bridge.at && b in k.ifs ==> k.ifs[b].isBridge && k.ifs[b].owned)
    && (forall b, m :: b in c.bridge.at && m in c.bridge.at[b].member.at ==>
          c.bridge.at[b].member.at[m].typed && m in k.ifs ==> k.ifs[m].owned)
  }

  /** What a pass may rely on. */
  ghost predicate Ready(c: Config, k: Kernel)
    requires Valid(c)
  {
    Distinct(c) && WellFormed(k) && TrunksExist(c, k) && Uncaptured(c, k) && NoConflict(c, k)
  }
}

module PlanShape {
  import opened Collections
  import opened Model
  import opened Pf
  import opened Ops
  import opened KernelModel
  import opened View
  import opened Planner
  import opened Reading

  // ---------------------------------------------------------------- lookups

  lemma KeyIndex(d: seq<Name>, x: Name) returns (i: nat)
    requires x in d
    ensures i < |d| && d[i] == x
  {
    i :| 0 <= i < |d| && d[i] == x;
  }

  lemma {:induction false} DesiredAreClaimed(c: Config, i: nat, x: Name)
    requires Valid(c) && i <= |c.bridge.keys|
    ensures x in Desired(c, i) <==> exists j :: 0 <= j < i && Claims(c, c.bridge.keys[j], x)
  {
    hide WantedNames;
    if i > 0 {
      DesiredAreClaimed(c, i - 1, x);
      assert c.bridge.keys[i - 1] in c.bridge.keys;
      assert x in Elements(WantedNames(c, c.bridge.at[c.bridge.keys[i - 1]])) <==> Claims(c, c.bridge.keys[i - 1], x);
    }
  }

  lemma DesiredIsClaimed(c: Config, x: Name)
    requires Valid(c)
    ensures x in Desired(c, |c.bridge.keys|) <==> Claimed(c, x)
  {
    DesiredAreClaimed(c, |c.bridge.keys|, x);
    if Claimed(c, x) {
      var b :| Claims(c, b, x);
      var j := KeyIndex(c.bridge.keys, b);
      assert Claims(c, c.bridge.keys[j], x);
    }
  }

  // ------------------------------------------------------------ list helpers

  lemma {:induction false} UnwantedMembers(members: seq<Name>, wanted: seq<Name>)
    ensures forall x :: x in Unwanted(members, wanted) <==> x in members && x !in wanted
    ensures NoDup(members) ==> NoDup(Unwanted(members, wanted))
  {
    if members != [] {
      var rest, last := members[..|members| - 1], members[|members| - 1];
      UnwantedMembers(rest, wanted);
      assert members == rest + [last];
    }
  }

  lemma {:induction false} OwnedMembers(v: KernelInterfaces, members: seq<Name>)
    ensures forall x :: x in OwnedOf(v, members) <==> x in members && v.HasOwned(x)
  {
    if members != [] {
      OwnedMembers(v, members[..|members| - 1]);
      assert members == members[..|members| - 1] + [members[|members| - 1]];
    }
  }

  lemma {:induction false} RemovesMembers(b: Name, members: seq<Name>)
    ensures forall op :: op in Removes(b, members) <==> op.RemoveMember? && op.bridge == b && op.member in members
    ensures NoDup(members) ==> NoDup(Removes(b, members))
  {
    if members != [] {
      RemovesMembers(b, members[..|members| - 1]);
      assert members == members[..|members| - 1] + [members[|members| - 1]];
    }
  }

  lemma {:induction false} OrphanMembers(v: KernelInterfaces, desired: set<Name>, owned: seq<Name>)
    ensures forall x :: x in Orphans(v, desired, owned) <==>
                          x in owned && x in v.interfaces.at && !v.interfaces.at[x].isBridge && x !in desired
    ensures NoDup(owned) ==> NoDup(Orphans(v, desired, owned))
  {
    if owned != [] {
      OrphanMembers(v, desired, owned[..|owned| - 1]);
      assert owned == owned[..|owned| - 1] + [owned[|owned| - 1]];
    }
  }

  lemma IfacesMembers(names: seq<Name>)
    ensures forall item: GcItem :: item in Ifaces(names) <==> item.GcIface? && item.name in names
  {
    forall item: GcItem | item.GcIface? && item.name in names ensures item in Ifaces(names) {
      var i :| 0 <= i < |names| && names[i] == item.name;
      assert Ifaces(names)[i] == item;
    }
  }

  lemma {:induction false} StaleMembers(c: Config, pf: PfState, flushed: set<Name>, names: seq<Name>)
    requires forall i :: 0 <= i < |names| ==> names[i] in pf
    ensures forall op :: op in StaleFlushes(c, pf, flushed, names) <==>
                           op.FlushAnchor? && op.ifname in names && op.ifname in pf && pf[op.ifname].exists_
                           && !Policied(c, op.ifname) && op.ifname !in flushed
    ensures NoDup(names) ==> NoDup(StaleFlushes(c, pf, flushed, names))
  {
    if names != [] {
      StaleMembers(c, pf, flushed, names[..|names| - 1]);
      assert names == names[..|names| - 1] + [names[|names| - 1]];
    }
  }

  // ----------------------------------------------------------------- removes

  ghost predicate Evicts(c: Config, v: KernelInterfaces, op: Op)
    requires Resolved(c)
  {
    op.RemoveMember? && op.bridge in c.bridge.at && op.member in v.MembersOf(op.bridge) && !Claims(c, op.bridge, op.member)
  }

  lemma EvictedMembers(c: Config, v: KernelInterfaces, b: Name, x: Name)
    requires Resolved(c) && b in c.bridge.at
    ensures x in Evicted(c, v, b) <==> x in v.MembersOf(b) && !Claims(c, b, x)
  {
    UnwantedMembers(v.MembersOf(b), WantedNames(c, c.bridge.at[b]));
  }

  lemma {:induction false} EvictionsMembers(c: Config, v: KernelInterfaces, i: nat)
    requires Valid(c) && i <= |c.bridge.keys|
    ensures forall op :: op in Evictions(c, v, i) <==> Evicts(c, v, op) && op.bridge in c.bridge.keys[..i]
  {
    hide Claims, Evicted, Resolved;
    if i > 0 {
      var b := c.bridge.keys[i - 1];
      assert b in c.bridge.keys;
      EvictionsMembers(c, v, i - 1);
      RemovesMembers(b, Evicted(c, v, b));
      assert c.bridge.keys[..i] == c.bridge.keys[..i - 1] + [b];
      forall op ensures op in Evictions(c, v, i) <==> Evicts(c, v, op) && op.bridge in c.bridge.keys[..i] {
        if op.RemoveMember? { EvictedMembers(c, v, b, op.member); }
      }
    }
  }

  ghost predicate EvictsFrom(c: Config, v: KernelInterfaces, b: Name, x: Name)
    requires Resolved(c)
  {
    b in c.bridge.at && x in v.MembersOf(b) && !Claims(c, b, x)
  }

  lemma {:induction false} EarlyMembers(c: Config, v: KernelInterfaces, i: nat, x: Name)
    requires Valid(c) && i <= |c.bridge.keys|
    ensures x in EarlyDestroys(c, v, i) <==>
              v.HasOwned(x) && exists j :: 0 <= j < i && EvictsFrom(c, v, c.bridge.keys[j], x)
  {
    hide EvictsFrom, Evicted, Resolved;
    if i > 0 {
      assert c.bridge.keys[i - 1] in c.bridge.keys;
      EarlyMembers(c, v, i - 1, x);
      EarlyFrom(c, v, c.bridge.keys[i - 1], x);
    }
  }

  lemma EarlyFrom(c: Config, v: KernelInterfaces, b: Name, x: Name)
    requires Resolved(c) && b in c.bridge.at
    ensures x in OwnedOf(v, Evicted(c, v, b)) <==> v.HasOwned(x) && EvictsFrom(c, v, b, x)
  {
    OwnedMembers(v, Evicted(c, v, b));
    EvictedMembers(c, v, b, x);
  }

  ghost predicate TearsDown(c: Config, v: KernelInterfaces, op: Op) {
    op.RemoveMember? && Doomed(c, v, op.bridge) && op.member in v.MembersOf(op.bridge)
  }

  lemma {:induction false} TeardownMembers(c: Config, v: KernelInterfaces, names: seq<Name>)
    ensures forall op :: op in Teardown(c, v, names) <==> TearsDown(c, v, op) && op.bridge in names
  {
    if names != [] {
      var name := names[|names| - 1];
      TeardownMembers(c, v, names[..|names| - 1]);
      RemovesMembers(name, v.MembersOf(name));
      assert names == names[..|names| - 1] + [name];
    }
  }

  lemma {:induction false} TeardownItemMembers(c: Config, v: KernelInterfaces, names: seq<Name>)
    ensures forall x :: GcBridge(x) in TeardownItems(c, v, names) <==> x in names && Doomed(c, v, x)
    ensures forall x :: GcIface(x) in TeardownItems(c, v, names) <==>
                          v.HasOwned(x) && exists b :: b in names && Doomed(c, v, b) && x in v.MembersOf(b)
  {
    if names != [] {
      var name := names[|names| - 1];
      TeardownItemMembers(c, v, names[..|names| - 1]);
      OwnedMembers(v, v.MembersOf(name));
      IfacesMembers(OwnedOf(v, v.MembersOf(name)));
      assert names == names[..|names| - 1] + [name];
    }
  }

  // ------------------------------------------------------ garbage collection

  /** Bridges are queued once, and never as plain interfaces. */
  ghost predicate CleanItems(items: seq<GcItem>) {
    && (forall i, j :: 0 <= i < j < |items| && items[i].GcBridge? ==> items[i] != items[j])
    && (forall i, j :: 0 <= i < |items| && 0 <= j < |items| && items[i].GcBridge? && items[j].GcIface? ==>
          items[i].name != items[j].name)
  }

  predicate Loaded(pf: Option<PfState>, x: Name) {
    pf.Some? && x in pf.value && pf.value[x].exists_
  }

  lemma {:induction false} GcQueued(pf: Option<PfState>, items: seq<GcItem>, x: Name)
    ensures x in Gc(pf, items).queued <==> GcIface(x) in items || GcBridge(x) in items
  {
    if items != [] {
      GcQueued(pf, items[..|items| - 1], x);
      assert items == items[..|items| - 1] + [items[|items| - 1]];
    }
  }

  ghost predicate GcOp(pf: Option<PfState>, items: seq<GcItem>, op: Op) {
    || (op.DestroyBridge? && GcBridge(op.name) in items)
    || (op.DestroyIface? && GcIface(op.name) in items)
    || (op.FlushAnchor? && GcIface(op.ifname) in items && Loaded(pf, op.ifname))
  }

  /** Each queued name is destroyed exactly once, its anchor flushed when loaded. */
  lemma {:induction false} GcMembers(pf: Option<PfState>, items: seq<GcItem>)
    requires CleanItems(items)
    ensures forall op :: op in Gc(pf, items).destroys <==> GcOp(pf, items, op)
    ensures NoDup(Gc(pf, items).destroys)
  {
    if items != [] {
      var rest, last := items[..|items| - 1], items[|items| - 1];
      assert items == rest + [last];
      GcMembers(pf, rest);
      GcQueued(pf, rest, last.name);
      var before := Gc(pf, rest).destroys;
      assert last.GcBridge? ==> last !in rest;
      assert GcBridge(last.name) in rest ==> last.GcBridge?;
      if last.GcBridge? {
        NoDupAppend(before, [DestroyBridge(last.name)]);
      } else if last !in rest {
        var flush := if Loaded(pf, last.name) then [FlushAnchor(last.name)] else [];
        assert Gc(pf, items).destroys == before + (flush + [DestroyIface(last.name)]);
        NoDupAppend(before, flush + [DestroyIface(last.name)]);
      }
    }
  }

  /** The flush of a doomed interface's anchor comes before its destroy. */
  lemma {:induction false} FlushBeforeDestroy(pf: Option<PfState>, items: seq<GcItem>, i: nat)
    requires i < |Gc(pf, items).destroys|
    requires Gc(pf, items).destroys[i].DestroyIface? && Loaded(pf, Gc(pf, items).destroys[i].name)
    ensures i > 0 && Gc(pf, items).destroys[i - 1] == FlushAnchor(Gc(pf, items).destroys[i].name)
  {
    var rest, last := items[..|items| - 1], items[|items| - 1];
    if i < |Gc(pf, rest).destroys| {
      FlushBeforeDestroy(pf, rest, i);
    }
  }
}

/** What the phases of a plan contain, read against the kernel. */
module PlanContents {
  import opened Collections
  import opened Model
  import opened Pf
  import opened Ops
  import opened KernelModel
  import opened View
  import opened Planner
  import opened Reading
  import opened PlanShape

  /** x sits in a bridge of the agent that does not want it. */
  ghost predicate Leaves(c: Config, k: Kernel, b: Name, x: Name)
    requires Resolved(c)
  {
    InBridge(k, b, x) && IsOwned(k, b) && !Claims(c, b, x)
  }

  ghost predicate Evictee(c: Config, k: Kernel, x: Name)
    requires Resolved(c)
  {
    x in k.master && Leaves(c, k, k.master[x], x)
  }

  /** What the plan destroys besides bridges: owned, and unclaimed or in the wrong bridge. */
  ghost predicate Condemned(c: Config, k: Kernel, x: Name)
    requires Resolved(c)
  {
    IsOwned(k, x) && !IsBridge(k, x) && (!Claimed(c, x) || Evictee(c, k, x))
  }

  ghost predicate DoomedBridge(c: Config, k: Kernel, b: Name) {
    IsBridge(k, b) && IsOwned(k, b) && b !in c.bridge.at
  }

  /** The situation a plan is made in. */
  ghost predicate Situation(c: Config, k: Kernel, v: KernelInterfaces, pf: PfState) {
    Valid(c) && WellFormed(k) && NoConflict(c, k) && Reads(k, c, v) && ReadsPf(k, pf)
  }

  lemma MemberRemovesAre(c: Config, k: Kernel, v: KernelInterfaces, pf: PfState, op: Op)
    requires Situation(c, k, v, pf)
    ensures op in MemberRemoves(c, v) <==> op.RemoveMember? && Leaves(c, k, op.bridge, op.member)
  {
    EvictionsMembers(c, v, |c.bridge.keys|);
    TeardownMembers(c, v, v.interfaces.keys);
    assert c.bridge.keys[..|c.bridge.keys|] == c.bridge.keys;
    if op.RemoveMember? {
      var b := op.bridge;
      if b in c.bridge.at {
        assert Evicts(c, v, op) <==> Leaves(c, k, b, op.member);
      } else {
        assert TearsDown(c, v, op) <==> Leaves(c, k, b, op.member);
      }
    }
  }

  lemma EarlyItemsAre(c: Config, k: Kernel, v: KernelInterfaces, pf: PfState, x: Name)
    requires Situation(c, k, v, pf)
    ensures GcIface(x) in EarlyItems(c, v) <==> IsOwned(k, x) && Evictee(c, k, x)
    ensures GcBridge(x) in EarlyItems(c, v) <==> DoomedBridge(c, k, x)
  {
    var early := EarlyDestroys(c, v, |c.bridge.keys|);
    TeardownItemMembers(c, v, v.interfaces.keys);
    EarlyMembers(c, v, |c.bridge.keys|, x);
    IfacesMembers(early);
    assert v.HasOwned(x) <==> IsOwned(k, x);
    if IsOwned(k, x) && Evictee(c, k, x) {
      var b := k.master[x];
      if b in c.bridge.at {
        var j := KeyIndex(c.bridge.keys, b);
        assert EvictsFrom(c, v, c.bridge.keys[j], x);
      } else {
        assert Doomed(c, v, b) && x in v.MembersOf(b);
      }
    }
    if x in early {
      var j :| 0 <= j < |c.bridge.keys| && EvictsFrom(c, v, c.bridge.keys[j], x);
      assert Leaves(c, k, c.bridge.keys[j], x);
    }
  }

  lemma GcItemsAre(c: Config, k: Kernel, v: KernelInterfaces, pf: PfState, x: Name)
    requires Situation(c, k, v, pf)
    ensures GcIface(x) in GcItems(c, v) <==> Condemned(c, k, x)
    ensures GcBridge(x) in GcItems(c, v) <==> DoomedBridge(c, k, x)
  {
    var desired := Desired(c, |c.bridge.keys|);
    EarlyItemsAre(c, k, v, pf, x);
    DesiredIsClaimed(c, x);
    OrphanMembers(v, desired, v.owned);
    IfacesMembers(Orphans(v, desired, v.owned));
  }

  ghost predicate BridgesOnce(items: seq<GcItem>) {
    forall i, j :: 0 <= i < j < |items| && items[i].GcBridge? ==> items[i] != items[j]
  }

  lemma {:induction false} TeardownOnce(c: Config, v: KernelInterfaces, names: seq<Name>)
    requires NoDup(names)
    ensures BridgesOnce(TeardownItems(c, v, names))
  {
    if names != [] {
      var rest, name := names[..|names| - 1], names[|names| - 1];
      TeardownOnce(c, v, rest);
      TeardownItemMembers(c, v, rest);
      var before, members := TeardownItems(c, v, rest), Ifaces(OwnedOf(v, v.MembersOf(name)));
      assert name !in rest;
      assert GcBridge(name) !in before;
      if Doomed(c, v, name) {
        var items := TeardownItems(c, v, names);
        assert items == before + (members + [GcBridge(name)]);
        forall i, j | 0 <= i < j < |items| && items[i].GcBridge? ensures items[i] != items[j] {
          assert i < |before|;
          assert items[i] in before;
        }
      }
    }
  }

  lemma OnceWithIfaces(items: seq<GcItem>, names: seq<Name>)
    requires BridgesOnce(items)
    ensures BridgesOnce(items + Ifaces(names))
  {
    var all := items + Ifaces(names);
    forall i, j | 0 <= i < j < |all| && all[i].GcBridge? ensures all[i] != all[j] {
      assert all[i] == items[i];
    }
  }

  lemma PrefixClean(items: seq<GcItem>, n: nat)
    requires CleanItems(items) && n <= |items|
    ensures CleanItems(items[..n])
  {
  }

  lemma ItemsClean(c: Config, k: Kernel, v: KernelInterfaces, pf: PfState)
    requires Situation(c, k, v, pf)
    ensures CleanItems(GcItems(c, v)) && CleanItems(EarlyItems(c, v))
  {
    var items, early := GcItems(c, v), EarlyItems(c, v);
    TeardownOnce(c, v, v.interfaces.keys);
    OnceWithIfaces(TeardownItems(c, v, v.interfaces.keys), EarlyDestroys(c, v, |c.bridge.keys|));
    OnceWithIfaces(early, Orphans(v, Desired(c, |c.bridge.keys|), v.owned));
    forall i, j | 0 <= i < |items| && 0 <= j < |items| && items[i].GcBridge? && items[j].GcIface?
      ensures items[i].name != items[j].name
    {
      GcItemsAre(c, k, v, pf, items[i].name);
      GcItemsAre(c, k, v, pf, items[j].name);
      assert items[i] in items && items[j] in items;
    }
    PrefixClean(items, |early|);
    assert early == items[..|early|];
  }

  /** An anchor the removes phase flushes: loaded, for a name without policy, and not
      already queued with an evicted interface. */
  ghost predicate FlushedEarly(c: Config, k: Kernel, x: Name)
    requires Resolved(c)
  {
    x in k.anchors && !Policied(c, x) && !(IsOwned(k, x) && Evictee(c, k, x))
  }

  ghost predicate IsRemove(c: Config, k: Kernel, op: Op)
    requires Resolved(c)
  {
    || (op.RemoveMember? && Leaves(c, k, op.bridge, op.member))
    || (op.FlushAnchor? && FlushedEarly(c, k, op.ifname))
  }

  ghost predicate IsDestruction(c: Config, k: Kernel, op: Op)
    requires Resolved(c)
  {
    || (op.DestroyBridge? && DoomedBridge(c, k, op.name))
    || (op.DestroyIface? && Condemned(c, k, op.name))
    || (op.FlushAnchor? && Condemned(c, k, op.ifname) && op.ifname in k.anchors)
  }

  lemma RemovesAre(c: Config, k: Kernel, v: KernelInterfaces, pf: PfState)
    requires Situation(c, k, v, pf)
    ensures forall op :: op in PlannedPhases(c, v, Some(pf)).removes <==> IsRemove(c, k, op)
  {
    var early := Gc(Some(pf), EarlyItems(c, v)).destroys;
    ItemsClean(c, k, v, pf);
    GcMembers(Some(pf), EarlyItems(c, v));
    StaleMembers(c, pf, Flushed(early), Sorted(pf.Keys));
    forall op ensures op in PlannedPhases(c, v, Some(pf)).removes <==> IsRemove(c, k, op) {
      MemberRemovesAre(c, k, v, pf, op);
      if op.FlushAnchor? {
        EarlyItemsAre(c, k, v, pf, op.ifname);
        assert op.ifname in Flushed(early) <==> FlushAnchor(op.ifname) in early;
      }
    }
  }

  lemma DestroysAre(c: Config, k: Kernel, v: KernelInterfaces, pf: PfState)
    requires Situation(c, k, v, pf)
    ensures forall op :: op in PlannedPhases(c, v, Some(pf)).destroys <==> IsDestruction(c, k, op)
    ensures NoDup(PlannedPhases(c, v, Some(pf)).destroys)
  {
    ItemsClean(c, k, v, pf);
    GcMembers(Some(pf), GcItems(c, v));
    forall op ensures op in PlannedPhases(c, v, Some(pf)).destroys <==> IsDestruction(c, k, op) {
      if op.DestroyBridge? || op.DestroyIface? {
        GcItemsAre(c, k, v, pf, op.name);
      } else if op.FlushAnchor? {
        GcItemsAre(c, k, v, pf, op.ifname);
      }
    }
  }

  // ------------------------------------------------- no op is planned twice

  lemma {:induction false} EvictionsOnce(c: Config, v: KernelInterfaces, i: nat)
    requires Valid(c) && i <= |c.bridge.keys|
    requires forall b :: b in v.interfaces.at ==> NoDup(v.interfaces.at[b].members)
    ensures NoDup(Evictions(c, v, i))
  {
    if i > 0 {
      var b := c.bridge.keys[i - 1];
      EvictionsOnce(c, v, i - 1);
      EvictionsMembers(c, v, i - 1);
      UnwantedMembers(v.MembersOf(b), WantedNames(c, c.bridge.at[b]));
      RemovesMembers(b, Evicted(c, v, b));
      assert b !in c.bridge.keys[..i - 1];
      NoDupAppend(Evictions(c, v, i - 1), Removes(b, Evicted(c, v, b)));
    }
  }

  lemma {:induction false} TeardownsOnce(c: Config, v: KernelInterfaces, names: seq<Name>)
    requires NoDup(names)
    requires forall b :: b in v.interfaces.at ==> NoDup(v.interfaces.at[b].members)
    ensures NoDup(Teardown(c, v, names))
  {
    if names != [] {
      var rest, name := names[..|names| - 1], names[|names| - 1];
      TeardownsOnce(c, v, rest);
      TeardownMembers(c, v, rest);
      RemovesMembers(name, v.MembersOf(name));
      assert name !in rest;
      if Doomed(c, v, name) {
        NoDupAppend(Teardown(c, v, rest), Removes(name, v.MembersOf(name)));
      }
    }
  }

  lemma RemovesOnce(c: Config, k: Kernel, v: KernelInterfaces, pf: PfState)
    requires Situation(c, k, v, pf)
    ensures NoDup(PlannedPhases(c, v, Some(pf)).removes)
  {
    var n := |c.bridge.keys|;
    EvictionsOnce(c, v, n);
    TeardownsOnce(c, v, v.interfaces.keys);
    EvictionsMembers(c, v, n);
    TeardownMembers(c, v, v.interfaces.keys);
    NoDupAppend(Evictions(c, v, n), Teardown(c, v, v.interfaces.keys));
    StaleMembers(c, pf, Flushed(Gc(Some(pf), EarlyItems(c, v)).destroys), Sorted(pf.Keys));
    NoDupAppend(MemberRemoves(c, v), StaleAnchors(c, v, Some(pf)));
  }
}
