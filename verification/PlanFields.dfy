/**
 What a plan says, in the document's own fields: which names a bridge wants, what is created and
 how it is described, and which conflict an error names.
 */
module PlanFields {
  import opened Collections
  import opened Model
  import opened Ops
  import opened KernelModel
  import opened View
  import opened Planner
  import opened Reading
  import opened PlanContents
  import opened AddsPhase
  import opened AddsContents
  import opened Fixpoint
  import opened Failures

  // ------------------------------------------------------------------- wants

  /** x is the uplink of bridge b: the vlan of its segment on the trunk, or the trunk of a flat one. */
  ghost predicate IsUplink(c: Config, b: Name, x: Name) {
    b in c.bridge.at &&
    ((exists p, vid :: c.bridge.at[b].segment == Some(Vlan(p, vid)) && p in c.physnet && x == c.physnet[p] + "." + Decimal(vid))
     || (exists p :: c.bridge.at[b].segment == Some(Flat(p)) && p in c.physnet && x == c.physnet[p]))
  }

  lemma UplinkNamesAre(c: Config, b: Name, x: Name)
    requires Resolved(c) && b in c.bridge.at
    ensures x in UplinkNames(c, c.bridge.at[b]) <==> IsUplink(c, b, x)
    ensures Manufactured(c.bridge.at[b]) <==> exists p, vid :: c.bridge.at[b].segment == Some(Vlan(p, vid))
  {
    assert BridgeResolved(c, c.bridge.at[b]);
  }

  /** A bridge claims its members and its uplink, and nothing else. */
  lemma ClaimsExactly(c: Config, b: Name, x: Name)
    requires Valid(c)
    ensures Claims(c, b, x) <==> b in c.bridge.at && (x in c.bridge.at[b].member.at || IsUplink(c, b, x))
  {
    if b in c.bridge.at {
      UplinkNamesAre(c, b, x);
      assert c.bridge.at[b].member.Valid();
    }
    hide UplinkNames, IsUplink, Resolved;
  }

  /** A member of a document has a policy when it has a filter or a bound address. */
  lemma PolicyExactly(c: Config, b: Name, x: Name)
    requires Resolved(c) && b in c.bridge.at && x in c.bridge.at[b].member.at
    ensures HasPolicy(c, c.bridge.at[b].member.at[x]) <==> c.bridge.at[b].member.at[x].filter != "" || c.bridge.at[b].member.at[x].bind.Some?
  {
    assert BridgeResolved(c, c.bridge.at[b]);
  }

  /** A lock that is read is the first static entry of the member; learned addresses do not count. */
  lemma {:induction false} StaticLockExactly(entries: seq<AddrEntry>, member: Name)
    ensures match FirstStatic(entries, member)
            case None => forall i :: 0 <= i < |entries| ==> entries[i].member != member || !entries[i].isStatic
            case Some(mac) =>
              exists i :: 0 <= i < |entries| && entries[i] == AddrEntry(mac, member, true)
                          && forall j :: 0 <= j < i ==> entries[j].member != member || !entries[j].isStatic
  {
    if entries != [] && !(entries[0].member == member && entries[0].isStatic) {
      StaticLockExactly(entries[1..], member);
      if FirstStatic(entries, member).Some? {
        var i :| 0 <= i < |entries[1..]| && entries[1..][i] == AddrEntry(FirstStatic(entries, member).value, member, true)
                 && forall j :: 0 <= j < i ==> entries[1..][j].member != member || !entries[1..][j].isStatic;
        assert entries[i + 1] == entries[1..][i];
        forall j | 0 <= j < i + 1 ensures entries[j].member != member || !entries[j].isStatic {
          assert j > 0 ==> entries[j] == entries[1..][j - 1];
        }
      } else {
        forall i | 0 <= i < |entries| ensures entries[i].member != member || !entries[i].isStatic {
          assert i > 0 ==> entries[i] == entries[1..][i - 1];
        }
      }
    }
  }

  // ------------------------------------------------------------------ creates

  /** Every tap a plan creates is a missing typed member, under its own description. */
  lemma CreatedTapsAreDescribed(c: Config, k: Kernel, v: KernelInterfaces, pf: PfState, x: Name, d: string)
    requires Situation(c, k, v, pf) && CreateTap(x, d) in PlannedPhases(c, v, Some(pf)).Ops()
    ensures x !in k.ifs
    ensures exists b :: b in c.bridge.at && x in c.bridge.at[b].member.at && c.bridge.at[b].member.at[x].typed
                         && d == c.bridge.at[b].member.at[x].description
  {
    PlannedOpsAre(c, k, v, pf);
    assert IsPlanned(c, k, CreateTap(x, d));
    hide Situation, PlannedPhases, IsPlanned;
    TapIsFor(c, k, x, d);
  }

  lemma TapIsFor(c: Config, k: Kernel, x: Name, d: string)
    requires Resolved(c) && IsPlanned(c, k, CreateTap(x, d))
    ensures x !in k.ifs
    ensures exists b :: b in c.bridge.at && x in c.bridge.at[b].member.at && c.bridge.at[b].member.at[x].typed
                         && d == c.bridge.at[b].member.at[x].description
  {
    hide Resolved, AddFor;
    assert IsAdd(c, k, CreateTap(x, d));
    var b :| b in c.bridge.at && AddFor(c, k, b, CreateTap(x, d));
    TapOf(c, k, b, x, d);
  }

  lemma TapOf(c: Config, k: Kernel, b: Name, x: Name, d: string)
    requires Resolved(c) && AddFor(c, k, b, CreateTap(x, d))
    ensures x !in k.ifs && TypedMember(c, b, x) && d == c.bridge.at[b].member.at[x].description
  {
  }

  // ------------------------------------------------------------------- errors

  /** Bridge b is why the planner gives up with e. */
  ghost predicate Explains(c: Config, k: Kernel, b: Name, e: PlanError) {
    b in c.bridge.at &&
    match e
    case VlanNameTooLong(n) => IsUplink(c, b, n) && (exists p, vid :: c.bridge.at[b].segment == Some(Vlan(p, vid))) && |n| > 15
    case NotABridge(n) => n == b && n in k.ifs && !k.ifs[n].isBridge
    case ForeignBridge(n) => n == b && n in k.ifs && k.ifs[n].isBridge && !k.ifs[n].owned
    case ForeignMember(n) => n in c.bridge.at[b].member.at && c.bridge.at[b].member.at[n].typed && n in k.ifs && !k.ifs[n].owned
  }

  lemma {:induction false} MembersErrorNames(v: KernelInterfaces, members: Dict<Member>, j: nat)
    requires members.Valid() && j <= |members.keys| && MembersError(v, members, j).Some?
    ensures var e := MembersError(v, members, j).value;
            e.ForeignMember? && e.name in members.at && members.at[e.name].typed && v.Has(e.name) && !v.HasOwned(e.name)
  {
    if MembersError(v, members, j - 1).Some? {
      MembersErrorNames(v, members, j - 1);
    } else {
      assert members.keys[j - 1] in members.keys;
    }
  }

  lemma BridgeErrorExplains(c: Config, k: Kernel, v: KernelInterfaces, pf: PfState, b: Name)
    requires Observed(c, k, v, pf) && b in c.bridge.at && BridgeError(c, v, b).Some?
    ensures Explains(c, k, b, BridgeError(c, v, b).value)
  {
    var members := c.bridge.at[b].member;
    assert members.Valid();
    assert v.Has(b) <==> b in k.ifs;
    forall m | m in members.at ensures v.Has(m) <==> m in k.ifs {
      assert m in members.keys;
      assert Claims(c, b, m);
    }
    if UplinkTooLong(c, c.bridge.at[b]) {
      UplinkNamesAre(c, b, UplinkNames(c, c.bridge.at[b])[0]);
    } else if MembersError(v, members, |members.keys|).Some? {
      MembersErrorNames(v, members, |members.keys|);
    }
    hide IsUplink, UplinkNames, MembersError;
  }

  lemma {:induction false} FirstErrorAt(c: Config, v: KernelInterfaces, n: nat) returns (i: nat)
    requires Valid(c) && n <= |c.bridge.keys| && FirstError(c, v, n).Some?
    ensures i < n && c.bridge.keys[i] in c.bridge.at && BridgeError(c, v, c.bridge.keys[i]) == FirstError(c, v, n)
    ensures forall j :: 0 <= j < i ==> c.bridge.keys[j] in c.bridge.at && BridgeError(c, v, c.bridge.keys[j]).None?
  {
    hide BridgeError, Resolved;
    FirstErrorIs(c, v, n - 1);
    if FirstError(c, v, n - 1).Some? {
      i := FirstErrorAt(c, v, n - 1);
    } else {
      i := n - 1;
    }
    assert c.bridge.keys[i] in c.bridge.keys;
    forall j | 0 <= j < i ensures c.bridge.keys[j] in c.bridge.at {
      assert c.bridge.keys[j] in c.bridge.keys;
    }
  }

  /** The error names a conflict of the first stanza that has one. */
  lemma ErrorNamesAConflict(c: Config, k: Kernel, v: KernelInterfaces, pf: PfState)
    requires Observed(c, k, v, pf) && Planned(c, v, Some(pf)).Err?
    ensures exists i :: 0 <= i < |c.bridge.keys| && Explains(c, k, c.bridge.keys[i], Planned(c, v, Some(pf)).error)
                        && forall j, e :: 0 <= j < i ==> !Explains(c, k, c.bridge.keys[j], e)
  {
    var i := FirstErrorAt(c, v, |c.bridge.keys|);
    BridgeErrorExplains(c, k, v, pf, c.bridge.keys[i]);
    hide Observed, BridgeError, Explains;
    forall j, e | 0 <= j < i ensures !Explains(c, k, c.bridge.keys[j], e) {
      NothingExplained(c, k, v, pf, c.bridge.keys[j], e);
    }
  }

  lemma NothingExplained(c: Config, k: Kernel, v: KernelInterfaces, pf: PfState, b: Name, e: PlanError)
    requires Observed(c, k, v, pf) && b in c.bridge.at && BridgeError(c, v, b).None?
    ensures !Explains(c, k, b, e)
  {
    BridgeErrorIs(c, k, v, pf, b);
    assert BridgeResolved(c, c.bridge.at[b]);
    hide BridgeError;
  }
}
