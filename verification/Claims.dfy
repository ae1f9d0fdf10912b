/**
 When the names of a built document are claimed once. Truncated ids, clashing digests and two
 physical networks on one trunk can make two ports claim a name.
 */
module PortClaims {
  import opened Collections
  import opened Model
  import opened Names
  import opened Planner
  import opened Reading
  import opened PortConfig
  import opened Assembly

  type Mappings = map<Name, Name>

  type Digest = SegmentKey -> string

  function BridgeOf(port: Port, digest: Digest): Name {
    BridgeName(KeyOf(port), digest)
  }

  /** Port i is the last of its bridge whose network maps to an uplink: its segment is the bridge's. */
  ghost predicate Uplinks(ports: seq<Port>, mappings: Mappings, digest: Digest, i: nat) {
    && i < |ports| && Trunk(ports[i], mappings).Some?
    && forall j :: i < j < |ports| && BridgeOf(ports[j], digest) == BridgeOf(ports[i], digest) ==> Trunk(ports[j], mappings).None?
  }

  function UplinkOf(port: Port, mappings: Mappings): Name {
    match Trunk(port, mappings)
    case None => ""
    case Some(trunk) => if SegmentOf(port).Vlan? then VlanName(trunk, SegmentOf(port).vid) else trunk
  }

  /** Port i makes its bridge claim x: as its own interface, or as the uplink. */
  ghost predicate Brings(ports: seq<Port>, mappings: Mappings, digest: Digest, i: nat, x: Name) {
    i < |ports| && (x == MemberName(ports[i]) || (Uplinks(ports, mappings, digest, i) && x == UplinkOf(ports[i], mappings)))
  }

  // ----------------------------------------------------------- what is built

  /** A bridge of the draft is that of its ports: their names its members, the last uplink its segment. */
  ghost predicate BuiltBridge(d: Draft, ports: seq<Port>, mappings: Mappings, digest: Digest, b: Name) {
    && (b in d.bridges.at <==> exists i: nat :: i < |ports| && BridgeOf(ports[i], digest) == b)
    && (b in d.bridges.at ==>
          && (forall m :: m in d.bridges.at[b].member.at <==>
              exists i: nat :: i < |ports| && BridgeOf(ports[i], digest) == b && MemberName(ports[i]) == m)
          && (match d.bridges.at[b].segment
              case None => forall i :: 0 <= i < |ports| && BridgeOf(ports[i], digest) == b ==> Trunk(ports[i], mappings).None?
              case Some(s) =>
                exists i: nat ::
                  i < |ports| && Uplinks(ports, mappings, digest, i) && BridgeOf(ports[i], digest) == b && s == SegmentOf(ports[i])))
  }

  ghost predicate Mapped(d: Draft, mappings: Mappings) {
    forall p :: p in d.physnets ==> p in mappings && d.physnets[p] == mappings[p]
  }

  lemma MembersStep(ports: seq<Port>, digest: Digest, b: Name, m: Name)
    requires ports != []
    ensures var rest, last := ports[..|ports| - 1], ports[|ports| - 1];
            && ((exists i: nat :: i < |ports| && BridgeOf(ports[i], digest) == b) <==>
                BridgeOf(last, digest) == b || exists i: nat :: i < |rest| && BridgeOf(rest[i], digest) == b)
            && ((exists i: nat :: i < |ports| && BridgeOf(ports[i], digest) == b && MemberName(ports[i]) == m) <==>
                || (BridgeOf(last, digest) == b && MemberName(last) == m)
                || exists i: nat :: i < |rest| && BridgeOf(rest[i], digest) == b && MemberName(rest[i]) == m)
  {
    hide BridgeOf, MemberName;
    var rest := ports[..|ports| - 1];
    if i: nat :| i < |rest| && BridgeOf(rest[i], digest) == b {
      assert ports[i] == rest[i];
    }
    if i: nat :| i < |rest| && BridgeOf(rest[i], digest) == b && MemberName(rest[i]) == m {
      assert ports[i] == rest[i];
    }
    if i: nat :| i < |ports| && BridgeOf(ports[i], digest) == b {
      assert i < |rest| ==> rest[i] == ports[i];
    }
    if i: nat :| i < |ports| && BridgeOf(ports[i], digest) == b && MemberName(ports[i]) == m {
      assert i < |rest| ==> rest[i] == ports[i];
    }
  }

  lemma UplinksStep(ports: seq<Port>, mappings: Mappings, digest: Digest, i: nat)
    requires ports != [] && Uplinks(ports[..|ports| - 1], mappings, digest, i)
    requires Trunk(ports[|ports| - 1], mappings).None? || BridgeOf(ports[|ports| - 1], digest) != BridgeOf(ports[i], digest)
    ensures Uplinks(ports, mappings, digest, i)
  {
    hide BridgeOf, Trunk;
    var rest := ports[..|ports| - 1];
    forall j | i < j < |ports| && BridgeOf(ports[j], digest) == BridgeOf(ports[i], digest) ensures Trunk(ports[j], mappings).None? {
      if j < |rest| {
        assert rest[j] == ports[j];
      }
    }
  }

  lemma BridgeStep(d: Draft, ports: seq<Port>, info: SgInfo, mappings: Mappings, digest: Digest, b: Name)
    requires ports != [] && BuiltBridge(d, ports[..|ports| - 1], mappings, digest, b)
    ensures BuiltBridge(AddPort(d, ports[|ports| - 1], info, mappings, digest), ports, mappings, digest, b)
  {
    hide MemberName, MemberOf, PortFilter, GroupsUsed, PortRules, IsSecured, KeyOf, BridgeName, SegmentOf, Trunk;
    var rest, last := ports[..|ports| - 1], ports[|ports| - 1];
    var d' := AddPort(d, last, info, mappings, digest);
    MembersStep(ports, digest, b, "");
    if b in d'.bridges.at {
      forall m ensures m in d'.bridges.at[b].member.at <==>
          exists i: nat :: i < |ports| && BridgeOf(ports[i], digest) == b && MemberName(ports[i]) == m {
        MembersStep(ports, digest, b, m);
      }
      SegmentStep(d, ports, info, mappings, digest, b);
    }
  }

  lemma SegmentStep(d: Draft, ports: seq<Port>, info: SgInfo, mappings: Mappings, digest: Digest, b: Name)
    requires ports != [] && BuiltBridge(d, ports[..|ports| - 1], mappings, digest, b)
    requires b in AddPort(d, ports[|ports| - 1], info, mappings, digest).bridges.at
    ensures match AddPort(d, ports[|ports| - 1], info, mappings, digest).bridges.at[b].segment
            case None => forall i :: 0 <= i < |ports| && BridgeOf(ports[i], digest) == b ==> Trunk(ports[i], mappings).None?
            case Some(s) =>
              exists i: nat ::
                i < |ports| && Uplinks(ports, mappings, digest, i) && BridgeOf(ports[i], digest) == b && s == SegmentOf(ports[i])
  {
    hide MemberName, MemberOf, PortFilter, GroupsUsed, PortRules, IsSecured, KeyOf, BridgeName, SegmentOf, Trunk;
    var rest, last := ports[..|ports| - 1], ports[|ports| - 1];
    var segment := AddPort(d, last, info, mappings, digest).bridges.at[b].segment;
    if BridgeOf(last, digest) == b && Trunk(last, mappings).Some? {
      assert Uplinks(ports, mappings, digest, |rest|);
    } else if b in d.bridges.at {
      assert segment == d.bridges.at[b].segment;
      if segment.Some? {
        var i: nat :| i < |rest| && Uplinks(rest, mappings, digest, i) && BridgeOf(rest[i], digest) == b && segment.value == SegmentOf(rest[i]);
        UplinksStep(ports, mappings, digest, i);
        assert ports[i] == rest[i];
      } else {
        forall i | 0 <= i < |ports| && BridgeOf(ports[i], digest) == b ensures Trunk(ports[i], mappings).None? {
          assert i < |rest| ==> rest[i] == ports[i];
        }
      }
    } else {
      forall i | 0 <= i < |rest| ensures BridgeOf(ports[i], digest) != b {
        assert rest[i] == ports[i];
      }
    }
  }

  lemma {:induction false} DraftedBridge(ports: seq<Port>, info: SgInfo, mappings: Mappings, digest: Digest, b: Name)
    ensures BuiltBridge(Drafted(ports, info, mappings, digest), ports, mappings, digest, b)
    ensures Mapped(Drafted(ports, info, mappings, digest), mappings)
  {
    hide BuiltBridge;
    if ports != [] {
      var rest := ports[..|ports| - 1];
      DraftedBridge(rest, info, mappings, digest, b);
      BridgeStep(Drafted(rest, info, mappings, digest), ports, info, mappings, digest, b);
    } else {
      NoBridges(info, mappings, digest, b);
    }
  }

  lemma NoBridges(info: SgInfo, mappings: Mappings, digest: Digest, b: Name)
    ensures BuiltBridge(Drafted([], info, mappings, digest), [], mappings, digest, b)
  {
  }

  // --------------------------------------------------------------- the claims

  lemma SameUplink(ports: seq<Port>, mappings: Mappings, digest: Digest, i: nat, j: nat)
    requires Uplinks(ports, mappings, digest, i) && Uplinks(ports, mappings, digest, j)
    requires BridgeOf(ports[i], digest) == BridgeOf(ports[j], digest)
    ensures i == j
  {
  }

  /** The uplink of a bridge is that of its last port that has one. */
  lemma UplinkIs(ports: seq<Port>, info: SgInfo, mappings: Mappings, digest: Digest, b: Name, x: Name)
    requires Resolved(TreeOf(Drafted(ports, info, mappings, digest), info))
    ensures var c := TreeOf(Drafted(ports, info, mappings, digest), info);
            b in c.bridge.at ==>
              (x in UplinkNames(c, c.bridge.at[b]) <==>
               exists i: nat :: i < |ports| && Uplinks(ports, mappings, digest, i) && BridgeOf(ports[i], digest) == b
                   && x == UplinkOf(ports[i], mappings))
  {
    var d, c := Drafted(ports, info, mappings, digest), TreeOf(Drafted(ports, info, mappings, digest), info);
    DraftedBridge(ports, info, mappings, digest, b);
    hide Drafted, BridgeOf;
    if b in c.bridge.at {
      if c.bridge.at[b].segment.Some? {
        var i: nat :| i < |ports| && Uplinks(ports, mappings, digest, i) && BridgeOf(ports[i], digest) == b
            && c.bridge.at[b].segment.value == SegmentOf(ports[i]);
        assert UplinkNames(c, c.bridge.at[b]) == [UplinkOf(ports[i], mappings)];
        forall j: nat | j < |ports| && Uplinks(ports, mappings, digest, j) && BridgeOf(ports[j], digest) == b ensures j == i {
          SameUplink(ports, mappings, digest, i, j);
        }
      } else {
        forall j: nat | j < |ports| && Uplinks(ports, mappings, digest, j) ensures BridgeOf(ports[j], digest) != b {}
      }
    }
  }

  /** A bridge of a built document claims exactly what its ports bring. */
  lemma ClaimsAre(ports: seq<Port>, info: SgInfo, mappings: Mappings, digest: Digest, b: Name, x: Name)
    requires Valid(TreeOf(Drafted(ports, info, mappings, digest), info))
    ensures Claims(TreeOf(Drafted(ports, info, mappings, digest), info), b, x) <==>
              exists i: nat :: i < |ports| && Brings(ports, mappings, digest, i, x) && BridgeOf(ports[i], digest) == b
  {
    var c := TreeOf(Drafted(ports, info, mappings, digest), info);
    DraftedBridge(ports, info, mappings, digest, b);
    UplinkIs(ports, info, mappings, digest, b, x);
    hide Drafted, BridgeOf, MemberName, Uplinks, UplinkOf, UplinkNames, Resolved;
    if Claims(c, b, x) {
      if x in UplinkNames(c, c.bridge.at[b]) {
        var i: nat :| i < |ports| && Uplinks(ports, mappings, digest, i) && BridgeOf(ports[i], digest) == b && x == UplinkOf(ports[i], mappings);
        assert Brings(ports, mappings, digest, i, x);
      } else {
        assert x in c.bridge.at[b].member.at;
        var i: nat :| i < |ports| && BridgeOf(ports[i], digest) == b && MemberName(ports[i]) == x;
        assert Brings(ports, mappings, digest, i, x);
      }
    }
    if i: nat :| i < |ports| && Brings(ports, mappings, digest, i, x) && BridgeOf(ports[i], digest) == b {
      assert b in c.bridge.at;
      assert x == MemberName(ports[i]) ==> x in c.bridge.at[b].member.at;
    }
  }

  // ------------------------------------------------------------ claimed once

  /** No port brings a bridge's name, ports that bring one name are of one bridge, and the uplink of
      a bridge is no port's interface in it. */
  ghost predicate Uncrossed(ports: seq<Port>, mappings: Mappings, digest: Digest) {
    && (forall i: nat, j: nat, x :: i < |ports| && j < |ports| && Brings(ports, mappings, digest, i, x) ==> BridgeOf(ports[j], digest) != x)
    && (forall i: nat, j: nat, x :: i < |ports| && j < |ports| && Brings(ports, mappings, digest, i, x) && Brings(ports, mappings, digest, j, x) ==>
          BridgeOf(ports[i], digest) == BridgeOf(ports[j], digest))
    && (forall i: nat, j: nat ::
          i < |ports| && j < |ports| && Uplinks(ports, mappings, digest, i) && BridgeOf(ports[i], digest) == BridgeOf(ports[j], digest) ==>
            UplinkOf(ports[i], mappings) != MemberName(ports[j]))
  }

  lemma UncrossedIsDistinct(ports: seq<Port>, info: SgInfo, mappings: Mappings, digest: Digest, c: Config)
    requires c == TreeOf(Drafted(ports, info, mappings, digest), info) && Valid(c) && Uncrossed(ports, mappings, digest)
    ensures forall b, x :: Claims(c, b, x) ==> x !in c.bridge.at
    ensures forall b, b', x :: Claims(c, b, x) && Claims(c, b', x) ==> b == b'
    ensures forall b :: b in c.bridge.at ==> NoDup(WantedNames(c, c.bridge.at[b]))
  {
    hide Drafted, BridgeOf, MemberName, Uplinks, UplinkOf, Brings, UplinkNames, TreeOf;
    forall b, x | Claims(c, b, x) ensures x !in c.bridge.at {
      ClaimsAre(ports, info, mappings, digest, b, x);
      DraftedBridge(ports, info, mappings, digest, x);
      BridgesOfTree(ports, info, mappings, digest, x);
    }
    forall b, b', x | Claims(c, b, x) && Claims(c, b', x) ensures b == b' {
      ClaimsAre(ports, info, mappings, digest, b, x);
      ClaimsAre(ports, info, mappings, digest, b', x);
    }
    forall b | b in c.bridge.at ensures NoDup(WantedNames(c, c.bridge.at[b])) {
      NamesOnce(ports, info, mappings, digest, c, b);
    }
  }

  lemma BridgesOfTree(ports: seq<Port>, info: SgInfo, mappings: Mappings, digest: Digest, b: Name)
    ensures b in TreeOf(Drafted(ports, info, mappings, digest), info).bridge.at <==> exists i: nat :: i < |ports| && BridgeOf(ports[i], digest) == b
  {
    DraftedBridge(ports, info, mappings, digest, b);
  }

  lemma MembersOfTree(ports: seq<Port>, info: SgInfo, mappings: Mappings, digest: Digest, b: Name, m: Name)
    ensures var c := TreeOf(Drafted(ports, info, mappings, digest), info);
            b in c.bridge.at ==> (m in c.bridge.at[b].member.at <==>
                exists i: nat :: i < |ports| && BridgeOf(ports[i], digest) == b && MemberName(ports[i]) == m)
  {
    DraftedBridge(ports, info, mappings, digest, b);
  }

  lemma NamesOnce(ports: seq<Port>, info: SgInfo, mappings: Mappings, digest: Digest, c: Config, b: Name)
    requires c == TreeOf(Drafted(ports, info, mappings, digest), info) && Valid(c) && b in c.bridge.at
    ensures NoDup(WantedNames(c, c.bridge.at[b])) <==>
              forall i: nat, j: nat ::
                i < |ports| && j < |ports| && Uplinks(ports, mappings, digest, i) && BridgeOf(ports[i], digest) == b && BridgeOf(ports[j], digest) == b ==>
                  UplinkOf(ports[i], mappings) != MemberName(ports[j])
  {
    var names, members := UplinkNames(c, c.bridge.at[b]), c.bridge.at[b].member.keys;
    assert |names| <= 1 && WantedNames(c, c.bridge.at[b]) == names + members && c.bridge.at[b].member.Valid();
    hide Drafted, BridgeOf, MemberName, Uplinks, UplinkOf, Resolved, TreeOf, UplinkNames, WantedNames, Valid;
    OnceEach(names, members);
    forall j: nat | j < |ports| && BridgeOf(ports[j], digest) == b ensures MemberName(ports[j]) in members {
      MembersOfTree(ports, info, mappings, digest, b, MemberName(ports[j]));
    }
    forall i: nat | i < |ports| && Uplinks(ports, mappings, digest, i)
        && BridgeOf(ports[i], digest) == b ensures UplinkOf(ports[i], mappings) in names {
      UplinkIs(ports, info, mappings, digest, b, UplinkOf(ports[i], mappings));
    }
    if x :| x in names && x in members {
      UplinkIs(ports, info, mappings, digest, b, x);
      MembersOfTree(ports, info, mappings, digest, b, x);
    }
  }

  lemma OnceEach(a: seq<Name>, b: seq<Name>)
    requires NoDup(a) && NoDup(b)
    ensures NoDup(a + b) <==> forall x :: x in a ==> x !in b
  {
    if forall x :: x in a ==> x !in b {
      NoDupAppend(a, b);
    } else {
      var x :| x in a && x in b;
      NotTwice(a, b, x);
    }
  }

  lemma NotTwice(a: seq<Name>, b: seq<Name>, x: Name)
    requires x in a && x in b
    ensures !NoDup(a + b)
  {
    var i :| 0 <= i < |a| && a[i] == x;
    var j :| 0 <= j < |b| && b[j] == x;
    assert (a + b)[i] == (a + b)[|a| + j];
  }

  lemma BuiltIsValid(ports: seq<Port>, info: SgInfo, mappings: Mappings, digest: Digest)
    requires Built(ports, info, mappings, digest).Ok?
    ensures Valid(Built(ports, info, mappings, digest).value)
  {
    var c := Built(ports, info, mappings, digest).value;
    DraftedStanzas(ports, info, mappings, digest);
    forall b | b in c.bridge.at ensures c.bridge.at[b].member.Valid() {
      assert StanzaOk(Drafted(ports, info, mappings, digest), c.bridge.at[b]);
    }
  }

  /** A built document claims every name once if and only if its ports do not cross. */
  lemma DistinctExactlyWhenUncrossed(ports: seq<Port>, info: SgInfo, mappings: Mappings, digest: Digest)
    requires Built(ports, info, mappings, digest).Ok?
    ensures Valid(Built(ports, info, mappings, digest).value)
    ensures Distinct(Built(ports, info, mappings, digest).value) <==> Uncrossed(ports, mappings, digest)
  {
    var c := Built(ports, info, mappings, digest).value;
    assert c == TreeOf(Drafted(ports, info, mappings, digest), info);
    BuiltIsValid(ports, info, mappings, digest);
    forall b, m | b in c.bridge.at && m in c.bridge.at[b].member.at && c.bridge.at[b].member.at[m].bind.Some?
      ensures c.bridge.at[b].member.at[m].typed
    {
      BoundMembersAreTyped(ports, info, mappings, digest, b, m);
    }
    hide Drafted, BridgeOf, MemberName, Uplinks, UplinkOf, Brings, Resolved, UplinkNames, TreeOf, Built, WantedNames;
    if Uncrossed(ports, mappings, digest) {
      UncrossedIsDistinct(ports, info, mappings, digest, c);
    }
    if Distinct(c) {
      DistinctIsUncrossed(ports, info, mappings, digest, c);
    }
  }

  lemma DistinctIsUncrossed(ports: seq<Port>, info: SgInfo, mappings: Mappings, digest: Digest, c: Config)
    requires c == TreeOf(Drafted(ports, info, mappings, digest), info) && Valid(c) && Distinct(c)
    ensures Uncrossed(ports, mappings, digest)
  {
    hide Drafted, BridgeOf, MemberName, Uplinks, UplinkOf, Brings, UplinkNames, TreeOf, WantedNames;
    forall i: nat, x | i < |ports| && Brings(ports, mappings, digest, i, x) ensures Claims(c, BridgeOf(ports[i], digest), x) {
      ClaimsAre(ports, info, mappings, digest, BridgeOf(ports[i], digest), x);
    }
    forall i: nat, j: nat, x | i < |ports| && j < |ports| && Brings(ports, mappings, digest, i, x) ensures BridgeOf(ports[j], digest) != x {
      BridgesOfTree(ports, info, mappings, digest, BridgeOf(ports[j], digest));
    }
    forall i: nat, j: nat | i < |ports| && j < |ports| && Uplinks(ports, mappings, digest, i)
        && BridgeOf(ports[i], digest) == BridgeOf(ports[j], digest)
      ensures UplinkOf(ports[i], mappings) != MemberName(ports[j])
    {
      BridgesOfTree(ports, info, mappings, digest, BridgeOf(ports[j], digest));
      NamesOnce(ports, info, mappings, digest, c, BridgeOf(ports[j], digest));
    }
  }

}
