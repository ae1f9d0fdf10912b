/**
 Which ports share a bridge, and what its uplink is, said of the ports' own fields: the names a
 document is built with are texts and digests of them.
 */
module Segments {
  import opened Collections
  import opened Model
  import opened Names
  import opened Planner
  import opened Reading
  import opened SgOrder
  import opened PortConfig
  import opened Assembly
  import opened PortClaims

  // -------------------------------------------------------------- one segment

  predicate HasId(port: Port) {
    port.segmentation.Some? && port.segmentation.value != 0
  }

  /** The ports are on one segment: one vlan of a physical network, one flat network, or, of any other
      kind, one segmentation id or, without one, one Neutron network. */
  predicate SameSegment(a: Port, b: Port) {
    && a.networkType == b.networkType
    && if a.networkType == "vlan" then a.physnet == b.physnet && a.segmentation == b.segmentation
       else if a.networkType == "flat" then a.physnet == b.physnet
       else if HasId(a) || HasId(b) then a.segmentation == b.segmentation
       else a.network == b.network
  }

  /** Network types have no slash; network ids are UUIDs, with dashes. */
  predicate Proper(port: Port) {
    '/' !in port.networkType && '-' in port.network
  }

  lemma {:induction false} SplitFirst(a: string, x: string, b: string, y: string)
    requires '/' !in a && '/' !in b && a + "/" + x == b + "/" + y
    ensures a == b && x == y
  {
    var s, t := a + "/" + x, b + "/" + y;
    if a == [] || b == [] {
      assert s[0] == t[0];
      assert a == b;
      assert x == s[1..] && y == t[1..];
    } else {
      assert a[0] == s[0] == t[0] == b[0];
      assert s[1..] == a[1..] + "/" + x && t[1..] == b[1..] + "/" + y;
      SplitFirst(a[1..], x, b[1..], y);
    }
  }

  lemma {:induction false} SplitLast(a: string, x: string, b: string, y: string)
    requires '/' !in x && '/' !in y && a + "/" + x == b + "/" + y
    ensures a == b && x == y
    decreases |x|
  {
    var s, t := a + "/" + x, b + "/" + y;
    assert s[|s| - 1] == t[|t| - 1];
    if x == [] || y == [] {
      assert x == y;
      assert a == s[..|s| - 1] && b == t[..|t| - 1];
    } else {
      assert x[|x| - 1] == y[|y| - 1];
      assert s[..|s| - 1] == a + "/" + x[..|x| - 1] && t[..|t| - 1] == b + "/" + y[..|y| - 1];
      SplitLast(a, x[..|x| - 1], b, y[..|y| - 1]);
    }
  }

  lemma {:induction false} DecimalDigits(n: nat)
    ensures |Decimal(n)| > 0 && forall i :: 0 <= i < |Decimal(n)| ==> '0' <= Decimal(n)[i] <= '9'
  {
    if n >= 10 {
      DecimalDigits(n / 10);
    }
  }

  function VlanText(segmentation: Option<nat>): string {
    if segmentation.Some? then Decimal(segmentation.value) else "None"
  }

  lemma VlanTextTells(a: Option<nat>, b: Option<nat>)
    ensures '/' !in VlanText(a)
    ensures VlanText(a) == VlanText(b) ==> a == b
  {
    if a.Some? {
      DecimalDigits(a.value);
    }
    if b.Some? {
      DecimalDigits(b.value);
    }
    if a.Some? && b.Some? && VlanText(a) == VlanText(b) {
      DecimalInjective(a.value, b.value);
    }
    assert "None"[0] == 'N';
  }

  /** What stands after the type in a key. */
  function Rest(port: Port): string {
    if port.networkType == "vlan" then port.physnet + "/" + VlanText(port.segmentation)
    else if port.networkType == "flat" then port.physnet
    else if HasId(port) then Decimal(port.segmentation.value)
    else port.network
  }

  lemma KeyIs(port: Port)
    ensures KeyOf(port) == port.networkType + "/" + Rest(port)
  {
    if port.networkType == "vlan" {
      assert "vlan/" == "vlan" + "/";
    } else if port.networkType == "flat" {
      assert "flat/" == "flat" + "/";
    }
  }

  /** Two ports have one segment key exactly when they are on one segment. */
  lemma SameKeyExactly(a: Port, b: Port)
    requires Proper(a) && Proper(b)
    ensures KeyOf(a) == KeyOf(b) <==> SameSegment(a, b)
  {
    KeyIs(a);
    KeyIs(b);
    hide KeyOf;
    if KeyOf(a) == KeyOf(b) {
      SplitFirst(a.networkType, Rest(a), b.networkType, Rest(b));
      RestTells(a, b);
    }
  }

  /** Without dashes in network ids, a network and a segmentation id can come to one key. */
  lemma AnIdLikeANumberCollides()
    ensures var a := Port("p", "", "local", "", Some(5), "n-1", "", [], true);
            var b := Port("q", "", "local", "", None, "5", "", [], true);
            KeyOf(a) == KeyOf(b) && !SameSegment(a, b)
  {
    DecimalStandsFor(5);
    assert Decimal(5) == [Digit(5)];
  }

  lemma RestTells(a: Port, b: Port)
    requires Proper(a) && Proper(b) && a.networkType == b.networkType && Rest(a) == Rest(b)
    ensures SameSegment(a, b)
  {
    if a.networkType == "vlan" {
      VlanTextTells(a.segmentation, b.segmentation);
      VlanTextTells(b.segmentation, a.segmentation);
      SplitLast(a.physnet, VlanText(a.segmentation), b.physnet, VlanText(b.segmentation));
    } else if a.networkType != "flat" {
      if HasId(a) {
        DecimalDigits(a.segmentation.value);
      }
      if HasId(b) {
        DecimalDigits(b.segmentation.value);
      }
      if HasId(a) && HasId(b) {
        DecimalInjective(a.segmentation.value, b.segmentation.value);
      }
    }
  }

  /** The first twelve digits of the digests tell the two keys apart. */
  predicate ToldApart(a: Port, b: Port, digest: Digest) {
    Take(digest(KeyOf(a)), 12) == Take(digest(KeyOf(b)), 12) ==> KeyOf(a) == KeyOf(b)
  }

  /** They tell the keys of all ports apart. */
  ghost predicate TellsApart(ports: seq<Port>, digest: Digest) {
    forall i, j :: 0 <= i < |ports| && 0 <= j < |ports| ==> ToldApart(ports[i], ports[j], digest)
  }

  /** Ports have one bridge name exactly when they are on one segment. */
  lemma SameBridgeExactly(a: Port, b: Port, digest: Digest)
    requires Proper(a) && Proper(b) && ToldApart(a, b, digest)
    ensures BridgeName(KeyOf(a), digest) == BridgeName(KeyOf(b), digest) <==> SameSegment(a, b)
  {
    SameKeyExactly(a, b);
    var x, y := Take(digest(KeyOf(a)), 12), Take(digest(KeyOf(b)), 12);
    assert ("pb" + x)[2..] == x && ("pb" + y)[2..] == y;
    hide KeyOf, SameSegment;
  }

  // ---------------------------------------------------------- a built document

  ghost predicate AllProper(ports: seq<Port>) {
    forall i :: 0 <= i < |ports| ==> Proper(ports[i])
  }

  /** m is the interface of a port of that bridge. */
  ghost predicate IsMemberOf(ports: seq<Port>, digest: Digest, b: Name, m: Name, i: nat) {
    i < |ports| && BridgeOf(ports[i], digest) == b && MemberName(ports[i]) == m
  }

  /** Every member of a built bridge is a port's, the ports of one bridge are on one segment, and ports
      on one segment are in one bridge. */
  lemma BridgesAreSegments(ports: seq<Port>, info: SgInfo, mappings: Mappings, digest: Digest, b: Name, m: Name, b': Name, m': Name)
    requires Built(ports, info, mappings, digest).Ok? && AllProper(ports) && TellsApart(ports, digest)
    requires var at := Built(ports, info, mappings, digest).value.bridge.at;
             b in at && m in at[b].member.at && b' in at && m' in at[b'].member.at
    ensures exists i: nat, j: nat :: IsMemberOf(ports, digest, b, m, i) && IsMemberOf(ports, digest, b', m', j)
    ensures forall i: nat, j: nat :: IsMemberOf(ports, digest, b, m, i) && IsMemberOf(ports, digest, b', m', j) ==>
              (b == b' <==> SameSegment(ports[i], ports[j]))
  {
    MembersOfTree(ports, info, mappings, digest, b, m);
    MembersOfTree(ports, info, mappings, digest, b', m');
    hide Drafted, FieldsOk, Resolved, ToldApart, Proper, KeyOf, SameSegment, MemberName;
    var i: nat :| i < |ports| && BridgeOf(ports[i], digest) == b && MemberName(ports[i]) == m;
    var j: nat :| j < |ports| && BridgeOf(ports[j], digest) == b' && MemberName(ports[j]) == m';
    assert IsMemberOf(ports, digest, b, m, i) && IsMemberOf(ports, digest, b', m', j);
    forall i: nat, j: nat | IsMemberOf(ports, digest, b, m, i) && IsMemberOf(ports, digest, b', m', j)
      ensures b == b' <==> SameSegment(ports[i], ports[j])
    {
      SameBridgeExactly(ports[i], ports[j], digest);
    }
  }

  /** The interface the segment of a port is reached by: its vlan on the trunk its physical network maps
      to, or that trunk itself when the network is flat or has no tag. */
  predicate ReachedBy(port: Port, mappings: Mappings, uplink: Name) {
    && port.physnet in mappings
    && ((port.networkType == "vlan" && port.segmentation.Some? && uplink == mappings[port.physnet] + "." + Decimal(port.segmentation.value))
        || (port.networkType == "vlan" && port.segmentation.None? && uplink == mappings[port.physnet])
        || (port.networkType == "flat" && uplink == mappings[port.physnet]))
  }

  lemma UplinkReaches(port: Port, mappings: Mappings)
    ensures Trunk(port, mappings).Some? <==> exists u :: ReachedBy(port, mappings, u)
    ensures forall u :: ReachedBy(port, mappings, u) <==> Trunk(port, mappings).Some? && u == UplinkOf(port, mappings)
  {
    if Trunk(port, mappings).Some? {
      assert ReachedBy(port, mappings, UplinkOf(port, mappings));
    }
  }

  lemma SegmentReaches(a: Port, b: Port, mappings: Mappings, u: Name)
    requires SameSegment(a, b)
    ensures ReachedBy(a, mappings, u) <==> ReachedBy(b, mappings, u)
  {
  }

  lemma {:induction false} LastUplink(ports: seq<Port>, mappings: Mappings, digest: Digest, i: nat) returns (j: nat)
    requires i < |ports| && Trunk(ports[i], mappings).Some?
    ensures j < |ports| && Uplinks(ports, mappings, digest, j) && BridgeOf(ports[j], digest) == BridgeOf(ports[i], digest)
    decreases |ports| - i
  {
    hide Trunk, BridgeOf;
    if l :| i < l < |ports| && BridgeOf(ports[l], digest) == BridgeOf(ports[i], digest) && Trunk(ports[l], mappings).Some? {
      j := LastUplink(ports, mappings, digest, l);
    } else {
      j := i;
    }
  }

  /** The uplink of a port's bridge is what its segment is reached by, and there is none without that. */
  lemma UplinkIsTheSegments(ports: seq<Port>, info: SgInfo, mappings: Mappings, digest: Digest, i: nat, u: Name)
    requires Built(ports, info, mappings, digest).Ok? && AllProper(ports) && TellsApart(ports, digest) && i < |ports|
    ensures Resolved(Built(ports, info, mappings, digest).value)
    ensures var c, b := Built(ports, info, mappings, digest).value, BridgeName(KeyOf(ports[i]), digest);
            b in c.bridge.at && (u in UplinkNames(c, c.bridge.at[b]) <==> ReachedBy(ports[i], mappings, u))
  {
    var c, b := Built(ports, info, mappings, digest).value, BridgeOf(ports[i], digest);
    BridgesOfTree(ports, info, mappings, digest, b);
    UplinkIs(ports, info, mappings, digest, b, u);
    hide Drafted, FieldsOk, Resolved, ToldApart, Proper, KeyOf, SameSegment, UplinkNames, ReachedBy, Trunk, UplinkOf;
    UplinkReaches(ports[i], mappings);
    if u in UplinkNames(c, c.bridge.at[b]) {
      var j: nat :| j < |ports| && Uplinks(ports, mappings, digest, j) && BridgeOf(ports[j], digest) == b && u == UplinkOf(ports[j], mappings);
      UplinkReaches(ports[j], mappings);
      SameBridgeExactly(ports[i], ports[j], digest);
      SegmentReaches(ports[j], ports[i], mappings, u);
    }
    if ReachedBy(ports[i], mappings, u) {
      var j := LastUplink(ports, mappings, digest, i);
      SameBridgeExactly(ports[i], ports[j], digest);
      SegmentReaches(ports[i], ports[j], mappings, u);
      UplinkReaches(ports[j], mappings);
    }
  }

  // ---------------------------------------------------------- a vlan's name

  /** The number a text of digits stands for. */
  function ValueOf(s: string): int {
    if s == "" then 0 else 10 * ValueOf(s[..|s| - 1]) + (s[|s| - 1] as int - '0' as int)
  }

  lemma {:induction false} DecimalStandsFor(n: nat)
    ensures ValueOf(Decimal(n)) == n
  {
    var s := Decimal(n);
    if n < 10 {
      assert s[..0] == "" && s[|s| - 1] == Digit(n);
    } else {
      DecimalStandsFor(n / 10);
      assert s[..|s| - 1] == Decimal(n / 10) && s[|s| - 1] == Digit(n % 10);
    }
    DigitIs(n % 10);
  }

  lemma DigitIs(d: nat)
    requires d < 10
    ensures Digit(d) as int == '0' as int + d
  {
    assert "0123456789"[d] as int == '0' as int + d;
  }

  /** A vlan uplink is spelled as its trunk, a dot and the vlan id in digits. */
  lemma VlanIsSpelled(trunk: Name, vid: nat)
    ensures trunk + "." <= VlanName(trunk, vid) && ValueOf(VlanName(trunk, vid)[|trunk| + 1..]) == vid
  {
    DecimalStandsFor(vid);
    assert VlanName(trunk, vid)[|trunk| + 1..] == Decimal(vid);
  }
}
