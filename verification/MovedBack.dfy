/**
 A concrete run of two L3 passes that the second does not settle: a port goes to another router
 and back, and a stale jail end waits for it.
 */
module MovedBack {
  import opened Collections
  import opened Names
  import opened JailPlane
  import opened Plumbing
  import opened Acting
  import opened PortPlane
  import opened Disk
  import opened RouterSpec
  import opened Routing
  import opened Crossings
  import opened RouterMoves


  const PORT := RouterPort("p", "m", [], None)

  /** Two routers, and the one port with the first or the second. */
  function Holding(id: string, has: bool): Router {
    Router(id, None, if has then [PORT] else [], [], [], "")
  }

  const AT_SECOND := [Holding("a", false), Holding("b", true)]
  const AT_FIRST := [Holding("a", true), Holding("b", false)]

  /** Where the port's jail end is when the first router has it. */
  const STALE := InnerAt(RouterJail("a"), RouterJailIf("p", false))

  /** A plane with the first router's jail, in it a jail end under the port's name, whose other end was
      never named: what a failed `NameHostIf` leaves. */
  const STALE_PLANE := World(
    map[RouterJail("a") := JailState(true, map[], true, Some(""))],
    map[STALE := Nic(Some(Place(Host, UnitA(0))), false, "", "", map[]), Place(Host, UnitA(0)) := Nic(Some(STALE), false, "", "", map[])],
    1)

  lemma HoldingSpecs(id: string, has: bool)
    ensures Specs(Holding(id, has)) == if has then [SpecOf(Holding(id, has), PORT, false)] else []
    ensures Routes(Holding(id, has)) == {}
  {
    var r := Holding(id, has);
    assert InterfaceSpecs(r, 0) == [];
    if has {
      assert InterfaceSpecs(r, 1) == InterfaceSpecs(r, 0) + [SpecOf(r, r.interfaces[0], false)];
    }
    assert Elements(r.routes) == {};
  }

  lemma BothSpecs(first: bool)
    ensures AllSpecs(if first then AT_FIRST else AT_SECOND) == [SpecOf(Holding(if first then "a" else "b", true), PORT, false)]
  {
    var desired := if first then AT_FIRST else AT_SECOND;
    HoldingSpecs("a", first);
    HoldingSpecs("b", !first);
    assert SpecsUpTo(desired, 0) == [];
    assert SpecsUpTo(desired, 1) == SpecsUpTo(desired, 0) + Specs(desired[0]);
    assert SpecsUpTo(desired, 2) == SpecsUpTo(desired, 1) + Specs(desired[1]);
  }

  lemma JailsDiffer()
    ensures RouterJail("a") == "qrouter-a" && RouterJail("b") == "qrouter-b"
    ensures RouterIfName("p") == "rtp" && RouterJailIf("p", false) == "qr-p"
  {
    assert WithoutDashes("a") == "a" && WithoutDashes("b") == "b";
  }

  lemma BothDistinct(first: bool)
    ensures Distinct(if first then AT_FIRST else AT_SECOND)
  {
    BothSpecs(first);
    HoldingSpecs("a", first);
    HoldingSpecs("b", !first);
    JailsDiffer();
    hide AllSpecs, Specs, Routes, RouterJail;
  }

  lemma StaleIsSound()
    ensures Sound(STALE_PLANE) && AllKin(STALE_PLANE.nics, AllSpecs(AT_SECOND))
  {
    BothSpecs(false);
    JailsDiffer();
    hide AllSpecs, RouterJail, RouterIfName, RouterJailIf;
  }

  /** One pass takes the port to the second router, the next is to take it back: the stale end in the
      first router's jail is still there, the port's host interface is another epair's, and no call
      uncrosses the two, whatever works. */
  lemma MovedBackPortIsCrossed(after: Plane, dirs: Dirs)
    requires Follows(Plane(STALE_PLANE, dirs), after, AT_SECOND)
    ensures var s := SpecOf(Holding("a", true), PORT, false);
            && AllSpecs(AT_FIRST) == [s] && Sound(after.k) && Crossed(after.k.nics, s.pair) && !AllKin(after.k.nics, AllSpecs(AT_FIRST))
            && forall f: Faults, l: Log :: l.k == after.k ==> Crossed(PortEnsured(f, l, s).k.nics, s.pair)
  {
    hide Sound, Distinct, AllKin, AllSpecs, Settles, Leaves, Crossed, PortEnsured, TourOf;
    StaleIsSound();
    BothDistinct(false);
    BothSpecs(false);
    BothSpecs(true);
    var receipts :| Settles(STALE_PLANE, after.k, receipts, after.dirs, AT_SECOND);
    SettlesLeaves(STALE_PLANE, after.k, receipts, after.dirs, AT_SECOND);
    var s, t := SpecOf(Holding("a", true), PORT, false), SpecOf(Holding("b", true), PORT, false);
    StaleStays(after.k.nics, t, s);
    CrossedIsNotKin(after.k.nics, s);
    forall f: Faults, l: Log | l.k == after.k ensures Crossed(PortEnsured(f, l, s).k.nics, s.pair) {
      PortStaysCrossed(f, l, s);
    }
  }

  lemma CrossedIsNotKin(nics: Nics, s: Spec)
    requires Crossed(nics, s.pair)
    ensures !AllKin(nics, [s])
  {
    assert [s][0] == s;
  }

  lemma StaleStays(nics: Nics, t: Spec, s: Spec)
    requires AllSpecs(AT_SECOND) == [t] && t == SpecOf(Holding("b", true), PORT, false) && s == SpecOf(Holding("a", true), PORT, false)
    requires Leaves(STALE_PLANE.nics, nics, TourOf(AT_SECOND))
    ensures Crossed(nics, s.pair)
  {
    JailsDiffer();
    assert PortAs(STALE_PLANE.nics, nics, AllSpecs(AT_SECOND)[0]);
    assert RouterJail(AT_SECOND[0].id) in DesiredJails(AT_SECOND);
    assert s.pair.I() == STALE && !IsEnd(STALE, TourOf(AT_SECOND));
    RemainderIs(STALE_PLANE.nics, nics, TourOf(AT_SECOND), STALE);
    hide AllSpecs, RouterJail, RouterIfName, RouterJailIf, Leaves, DesiredJails;
    assert !GoesWith(STALE_PLANE.nics, STALE, Grouped(STALE_PLANE.nics) - HostsOf([t], 1));
  }
}
