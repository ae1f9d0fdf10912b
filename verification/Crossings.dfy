/**
 Passes one after another over one plane, as far as interfaces go: what each leaves there, and
 when two names of a later one end up on ends of different epairs.
 */
module Crossings {
  import opened Collections
  import opened JailPlane
  import opened Plumbing
  import opened Acting
  import opened PortPlane

  /** The ports a pass wants, and the jails. */
  datatype Tour = Tour(specs: seq<Spec>, kept: set<Name>)

  /** What a fault-free pass makes of the interfaces. */
  ghost predicate Leaves(before: Nics, after: Nics, t: Tour) {
    && Matched(after) && PortsAs(before, after, t.specs, |t.specs|) && Remains(before, after, t.specs, t.kept)
    && Grouped(after) == HostsOf(t.specs, |t.specs|)
  }

  predicate IsEnd(x: Place, t: Tour) {
    EndOf(x, t.specs, |t.specs|)
  }

  predicate Wants(t: Tour, p: Pair) {
    exists a :: 0 <= a < |t.specs| && t.specs[a].pair.H() == p.H() && t.specs[a].pair.I() == p.I()
  }

  // ----------------------------------------------------------------- two passes

  /** x is there once a pass that began with nics0 is over. */
  predicate ThereAfter(nics0: Nics, t: Tour, x: Place) {
    IsEnd(x, t) || Remainder(nics0, x, t.specs, t.kept).Some?
  }

  /** Both names of p are there after the pass, and are no epair it wants. */
  predicate Crosses(nics0: Nics, t: Tour, p: Pair) {
    ThereAfter(nics0, t, p.H()) && ThereAfter(nics0, t, p.I()) && !Wants(t, p)
  }

  lemma EndIsThere(nics0: Nics, nics: Nics, t: Tour, x: Place)
    requires Leaves(nics0, nics, t) && x.name.Given?
    ensures x in nics <==> ThereAfter(nics0, t, x)
  {
    if IsEnd(x, t) {
      var a :| 0 <= a < |t.specs| && (x == t.specs[a].pair.H() || x == t.specs[a].pair.I());
      assert PortAs(nics0, nics, t.specs[a]);
    } else {
      assert NicAt(nics, x) == Remainder(nics0, x, t.specs, t.kept);
    }
  }

  /** After a fault-free pass two names are kin, for whichever pass comes next, if and only if they do
      not cross: read off the plane the pass began with and what it wanted. */
  lemma KinExactlyUnlessCrossing(nics0: Nics, nics: Nics, t: Tour, p: Pair)
    requires Leaves(nics0, nics, t)
    ensures Kin(nics, p) <==> !Crosses(nics0, t, p)
  {
    EndIsThere(nics0, nics, t, p.H());
    EndIsThere(nics0, nics, t, p.I());
    hide Remains, Remainder, Renumbered, Matched;
    if p.H() in nics && p.I() in nics {
      if Wants(t, p) {
        var a :| 0 <= a < |t.specs| && t.specs[a].pair.H() == p.H() && t.specs[a].pair.I() == p.I();
        assert PortAs(nics0, nics, t.specs[a]);
      }
      if nics[p.H()].grouped {
        assert p.host in Grouped(nics);
        var a :| 0 <= a < |t.specs| && t.specs[a].pair.host == p.host;
        assert PortAs(nics0, nics, t.specs[a]);
      }
    }
  }

  // -------------------------------------------------------------- any number of passes

  /** The peer of an old interface while its jail is kept. */
  function PeerAt(nics0: Nics, tours: seq<Tour>, n: nat, x: Place): Option<Place>
    requires n <= |tours| && x in nics0
  {
    if nics0[x].peer.Some? && forall l :: 0 <= l < n ==> !Outside(nics0[x].peer.value, tours[l].kept) then nics0[x].peer else None
  }

  /** The group when the n-th pass begins. */
  function GroupAt(nics0: Nics, tours: seq<Tour>, n: nat): set<Name>
    requires n <= |tours|
  {
    if n == 0 then Grouped(nics0) else HostsOf(tours[n - 1].specs, |tours[n - 1].specs|)
  }

  /** Pass n takes an old interface along: its peer goes under a name the pass wants, or it or its peer is
      a host interface of the group that the pass does not want. */
  predicate Takes(nics0: Nics, tours: seq<Tour>, n: nat, x: Place)
    requires n < |tours| && x in nics0
  {
    var peer, doomed := PeerAt(nics0, tours, n, x), GroupAt(nics0, tours, n) - HostsOf(tours[n].specs, |tours[n].specs|);
    || (peer.Some? && IsEnd(peer.value, tours[n]))
    || (exists h :: h in doomed && x == HostAt(h))
    || (exists h :: h in doomed && peer == Some(HostAt(h)))
  }

  /** An interface of the first plane is still there after n passes, none of which wanted its name. */
  predicate Stays(nics0: Nics, tours: seq<Tour>, n: nat, x: Place)
    requires n <= |tours|
  {
    && x in nics0
    && forall j :: 0 <= j < n ==> !IsEnd(x, tours[j]) && !Outside(x, tours[j].kept) && !Takes(nics0, tours, j, x)
  }

  predicate ThereAt(nics0: Nics, tours: seq<Tour>, n: nat, x: Place)
    requires n <= |tours|
  {
    Stays(nics0, tours, n, x) || (n > 0 && IsEnd(x, tours[n - 1]))
  }

  /** The names of p are not kin when pass n begins: both are there, and they are no epair of the pass
      before, or of the first plane. */
  predicate CrossesAt(nics0: Nics, tours: seq<Tour>, n: nat, p: Pair)
    requires n <= |tours|
  {
    if n == 0 then !Kin(nics0, p) else ThereAt(nics0, tours, n, p.H()) && ThereAt(nics0, tours, n, p.I()) && !Wants(tours[n - 1], p)
  }

  /** No two names of a pass of the run cross: said of the first plane and of what is wanted. */
  ghost predicate RunFits(nics0: Nics, tours: seq<Tour>, n: nat)
    requires n <= |tours|
  {
    forall i, a :: 0 <= i < n && 0 <= a < |tours[i].specs| ==> !CrossesAt(nics0, tours, i, tours[i].specs[a].pair)
  }

  /** Every pass finds its names kin. */
  ghost predicate AllPassesKin(planes: seq<Nics>, tours: seq<Tour>, n: nat)
    requires n <= |planes| && n <= |tours|
  {
    forall i :: 0 <= i < n ==> AllKin(planes[i], tours[i].specs)
  }

  /** A run of fault-free passes: each does what it does as long as all find their names kin. */
  ghost predicate IsRun(planes: seq<Nics>, tours: seq<Tour>) {
    && |planes| == |tours| + 1 && Matched(planes[0])
    && forall i :: 0 <= i < |tours| && AllPassesKin(planes, tours, i + 1) ==> Leaves(planes[i], planes[i + 1], tours[i])
  }

  /** What a pass wanted and the next does not is gone after it. */
  lemma FormerEndsGo(nics0: Nics, nics: Nics, t: Tour, t': Tour, x: Place)
    requires Leaves(nics0, nics, t) && IsEnd(x, t) && !IsEnd(x, t')
    ensures Remainder(nics, x, t'.specs, t'.kept) == None
  {
    var a :| 0 <= a < |t.specs| && (x == t.specs[a].pair.H() || x == t.specs[a].pair.I());
    assert PortAs(nics0, nics, t.specs[a]);
    var p := t.specs[a].pair;
    assert p.host in Grouped(nics) && nics[p.I()].peer == Some(p.H());
    hide Remains, Renumbered, Matched;
    HostEnds(p.host, t'.specs, |t'.specs|);
    if IsEnd(p.H(), t') {
      assert x == p.I();
    } else {
      assert p.host in Grouped(nics) - HostsOf(t'.specs, |t'.specs|);
    }
  }

  /** What is known of the interfaces when pass n begins. */
  ghost predicate KnownAt(planes: seq<Nics>, tours: seq<Tour>, n: nat)
    requires |planes| == |tours| + 1 && n <= |tours|
  {
    && Matched(planes[n]) && Grouped(planes[n]) == GroupAt(planes[0], tours, n)
    && (n > 0 ==> Leaves(planes[n - 1], planes[n], tours[n - 1]))
    && (forall x: Place :: x.name.Given? ==> (x in planes[n] <==> ThereAt(planes[0], tours, n, x)))
    && (forall x: Place :: x.name.Given? && Stays(planes[0], tours, n, x) ==>
          x in planes[0] && x in planes[n] && planes[n][x].peer == PeerAt(planes[0], tours, n, x))
  }

  lemma PeerNext(nics0: Nics, tours: seq<Tour>, n: nat, x: Place)
    requires n < |tours| && x in nics0
    ensures var peer := PeerAt(nics0, tours, n, x);
            PeerAt(nics0, tours, n + 1, x) == if peer.Some? && Outside(peer.value, tours[n].kept) then None else peer
  {
  }

  lemma StaysNext(nics0: Nics, tours: seq<Tour>, n: nat, x: Place)
    requires n < |tours|
    ensures Stays(nics0, tours, n + 1, x) <==>
              Stays(nics0, tours, n, x) && !IsEnd(x, tours[n]) && !Outside(x, tours[n].kept) && !Takes(nics0, tours, n, x)
  {
    hide IsEnd, Outside, Takes;
  }

  /** Taking is what removes an interface that stayed so far. */
  lemma TakenIsGone(nics0: Nics, nics: Nics, tours: seq<Tour>, n: nat, x: Place)
    requires n < |tours| && x in nics0 && x in nics && nics[x].peer == PeerAt(nics0, tours, n, x) && Grouped(nics) == GroupAt(nics0, tours, n)
    ensures var left := Remainder(nics, x, tours[n].specs, tours[n].kept);
            && (left.Some? <==> !Outside(x, tours[n].kept) && !Takes(nics0, tours, n, x))
            && (left.Some? ==> left.value.peer == PeerAt(nics0, tours, n + 1, x))
  {
    PeerNext(nics0, tours, n, x);
    hide Outside, PeerAt, GroupAt, HostsOf, Grouped, EndOf;
  }

  lemma KnownFirst(planes: seq<Nics>, tours: seq<Tour>)
    requires IsRun(planes, tours)
    ensures KnownAt(planes, tours, 0)
  {
    hide Matched;
  }

  lemma KnownNext(planes: seq<Nics>, tours: seq<Tour>, n: nat)
    requires IsRun(planes, tours) && n < |tours| && KnownAt(planes, tours, n) && AllPassesKin(planes, tours, n + 1)
    ensures KnownAt(planes, tours, n + 1)
  {
    assert Leaves(planes[n], planes[n + 1], tours[n]);
    forall x: Place | x.name.Given?
      ensures x in planes[n + 1] <==> ThereAt(planes[0], tours, n + 1, x)
      ensures Stays(planes[0], tours, n + 1, x) ==> x in planes[0] && x in planes[n + 1] && planes[n + 1][x].peer == PeerAt(planes[0], tours, n + 1, x)
    {
      PlaceNext(planes, tours, n, x);
    }
    hide IsRun, PortsAs, Remains, Stays, ThereAt;
    assert Matched(planes[n + 1]) && Grouped(planes[n + 1]) == GroupAt(planes[0], tours, n + 1);
  }

  lemma PlaceNext(planes: seq<Nics>, tours: seq<Tour>, n: nat, x: Place)
    requires |planes| == |tours| + 1 && n < |tours| && KnownAt(planes, tours, n) && Leaves(planes[n], planes[n + 1], tours[n]) && x.name.Given?
    ensures x in planes[n + 1] <==> ThereAt(planes[0], tours, n + 1, x)
    ensures Stays(planes[0], tours, n + 1, x) ==> x in planes[0] && x in planes[n + 1] && planes[n + 1][x].peer == PeerAt(planes[0], tours, n + 1, x)
  {
    EndIsThere(planes[n], planes[n + 1], tours[n], x);
    StaysNext(planes[0], tours, n, x);
    if !IsEnd(x, tours[n]) {
      RemainderIs(planes[n], planes[n + 1], tours[n], x);
      if Stays(planes[0], tours, n, x) {
        TakenIsGone(planes[0], planes[n], tours, n, x);
      } else if n > 0 && IsEnd(x, tours[n - 1]) {
        FormerEndsGo(planes[n - 1], planes[n], tours[n - 1], tours[n], x);
      } else {
        assert x !in planes[n];
      }
    }
    hide Leaves, Remainder, Stays, Takes, PeerAt, GroupAt, Matched, IsEnd, Outside;
  }

  lemma RemainderIs(nics0: Nics, nics: Nics, t: Tour, x: Place)
    requires Leaves(nics0, nics, t) && x.name.Given? && !IsEnd(x, t)
    ensures NicAt(nics, x) == Remainder(nics0, x, t.specs, t.kept)
    ensures x !in nics0 ==> Remainder(nics0, x, t.specs, t.kept) == None
  {
  }

  lemma {:induction false} KnownAlways(planes: seq<Nics>, tours: seq<Tour>, n: nat)
    requires IsRun(planes, tours) && n <= |tours| && AllPassesKin(planes, tours, n)
    ensures KnownAt(planes, tours, n)
  {
    hide IsRun, KnownAt, AllKin;
    if n == 0 {
      KnownFirst(planes, tours);
    } else {
      RunLengths(planes, tours);
      KnownAlways(planes, tours, n - 1);
      KnownNext(planes, tours, n - 1);
    }
  }

  lemma RunLengths(planes: seq<Nics>, tours: seq<Tour>)
    requires IsRun(planes, tours)
    ensures |planes| == |tours| + 1 && Matched(planes[0])
  {
  }

  lemma CrossesNow(planes: seq<Nics>, tours: seq<Tour>, n: nat, p: Pair)
    requires |planes| == |tours| + 1 && n <= |tours| && KnownAt(planes, tours, n)
    ensures Kin(planes[n], p) <==> !CrossesAt(planes[0], tours, n, p)
  {
    if n > 0 {
      KinExactlyUnlessCrossing(planes[n - 1], planes[n], tours[n - 1], p);
      EndIsThere(planes[n - 1], planes[n], tours[n - 1], p.H());
      EndIsThere(planes[n - 1], planes[n], tours[n - 1], p.I());
    }
    hide Leaves, ThereAfter, Stays, IsEnd, Wants, Matched;
  }

  /** Over every run of fault-free passes, all passes find their names kin if and only if no two names
      cross, which can be told from the first plane and what the passes want. */
  lemma {:induction false} RunKinExactly(planes: seq<Nics>, tours: seq<Tour>, n: nat)
    requires IsRun(planes, tours) && n <= |tours|
    ensures AllPassesKin(planes, tours, n) <==> RunFits(planes[0], tours, n)
  {
    hide IsRun, KnownAt, CrossesAt, Kin;
    if n > 0 {
      RunLengths(planes, tours);
      RunKinExactly(planes, tours, n - 1);
      if AllPassesKin(planes, tours, n - 1) {
        KnownAlways(planes, tours, n - 1);
        var specs := tours[n - 1].specs;
        forall a | 0 <= a < |specs| ensures Kin(planes[n - 1], specs[a].pair) <==> !CrossesAt(planes[0], tours, n - 1, specs[a].pair) {
          CrossesNow(planes, tours, n - 1, specs[a].pair);
        }
      }
    }
  }

  /** Whether names cross at a pass depends on the passes before it only. */
  lemma SameCrosses(nics0: Nics, tours: seq<Tour>, tours': seq<Tour>, n: nat, p: Pair)
    requires n <= |tours| && n <= |tours'| && tours[..n] == tours'[..n]
    ensures CrossesAt(nics0, tours, n, p) <==> CrossesAt(nics0, tours', n, p)
  {
    assert forall l :: 0 <= l < n ==> tours[l] == tours[..n][l] == tours'[l];
    SameStays(nics0, tours, tours', n, p.H());
    SameStays(nics0, tours, tours', n, p.I());
    hide Stays, IsEnd, Wants, Kin;
  }

  lemma SameStays(nics0: Nics, tours: seq<Tour>, tours': seq<Tour>, n: nat, x: Place)
    requires n <= |tours| && n <= |tours'| && forall l :: 0 <= l < n ==> tours[l] == tours'[l]
    ensures Stays(nics0, tours, n, x) <==> Stays(nics0, tours', n, x)
  {
    if x in nics0 {
      forall j | 0 <= j < n ensures Takes(nics0, tours, j, x) <==> Takes(nics0, tours', j, x) {
        assert PeerAt(nics0, tours, j, x) == PeerAt(nics0, tours', j, x);
        assert GroupAt(nics0, tours, j) == GroupAt(nics0, tours', j);
        hide PeerAt, GroupAt, IsEnd, HostsOf;
      }
    }
    hide Takes, IsEnd, Outside;
  }

  lemma SameFits(nics0: Nics, before: seq<Tour>, tours: seq<Tour>, n: nat)
    requires |before| == n <= |tours| && tours[..n] == before && RunFits(nics0, tours, |tours|)
    ensures RunFits(nics0, before, n)
  {
    hide CrossesAt;
    forall i, a | 0 <= i < n && 0 <= a < |before[i].specs| ensures !CrossesAt(nics0, before, i, before[i].specs[a].pair) {
      assert before[..i] == tours[..i] && tours[i] == before[i];
      SameCrosses(nics0, before, tours, i, before[i].specs[a].pair);
    }
  }
}
