/**
 L3 passes one after another: routers come and go, and ports move between routers or from
 gateway to interface.
 */
module RouterMoves {
  import opened Collections
  import opened JailPlane
  import opened Plumbing
  import opened Acting
  import opened PortPlane
  import opened Disk
  import opened RouterSpec
  import opened Routing
  import opened Crossings

  datatype Plane = Plane(k: World, dirs: Dirs)

  function TourOf(desired: seq<Router>): Tour {
    Tour(AllSpecs(desired), DesiredJails(desired))
  }

  function ToursOf(wants: seq<seq<Router>>): (r: seq<Tour>)
    ensures |r| == |wants| && forall i :: 0 <= i < |r| ==> r[i] == TourOf(wants[i])
  {
    seq(|wants|, i requires 0 <= i < |wants| => TourOf(wants[i]))
  }

  // ----------------------------------------------------------------- two passes

  lemma SettlesLeaves(k0: World, k: World, receipts: seq<Done>, dirs: Dirs, desired: seq<Router>)
    requires Sound(k) && Settles(k0, k, receipts, dirs, desired)
    ensures Leaves(k0.nics, k.nics, TourOf(desired))
  {
    hide AllSpecs, PortsAs, Remains, JailsDone, AllDone, AllPrefixesKept, SomeUsurped, AllOk, HostsOf, Grouped;
  }

  /** After a fault-free pass the names of the next one's ports are kin, so that it settles too, if and
      only if none of them crosses: told from the plane the first pass began with and the two lists. */
  lemma NextPassExactly(k0: World, k: World, receipts: seq<Done>, dirs: Dirs, desired: seq<Router>, next: seq<Router>)
    requires Sound(k) && Settles(k0, k, receipts, dirs, desired)
    ensures AllKin(k.nics, AllSpecs(next)) <==>
              forall a :: 0 <= a < |AllSpecs(next)| ==> !Crosses(k0.nics, TourOf(desired), AllSpecs(next)[a].pair)
  {
    SettlesLeaves(k0, k, receipts, dirs, desired);
    var specs := AllSpecs(next);
    hide Sound, AllSpecs, Settles, Leaves, Kin, Crosses;
    forall a | 0 <= a < |specs| ensures Kin(k.nics, specs[a].pair) <==> !Crosses(k0.nics, TourOf(desired), specs[a].pair) {
      KinExactlyUnlessCrossing(k0.nics, k.nics, TourOf(desired), specs[a].pair);
    }
  }

  // -------------------------------------------------------------- any number of passes

  /** One plane follows another by a fault-free pass: what `Routing.Reconcile` promises of it. */
  ghost predicate Follows(before: Plane, after: Plane, desired: seq<Router>) {
    Sound(before.k) && Distinct(desired) && AllKin(before.k.nics, AllSpecs(desired)) ==>
      Sound(after.k) && exists receipts :: Settles(before.k, after.k, receipts, after.dirs, desired)
  }

  ghost predicate Follow(planes: seq<Plane>, wants: seq<seq<Router>>) {
    && |planes| == |wants| + 1 && Sound(planes[0].k)
    && forall i :: 0 <= i < |wants| ==> Distinct(wants[i]) && Follows(planes[i], planes[i + 1], wants[i])
  }

  function NicsOf(planes: seq<Plane>): (r: seq<Nics>)
    ensures |r| == |planes| && forall i :: 0 <= i < |r| ==> r[i] == planes[i].k.nics
  {
    seq(|planes|, i requires 0 <= i < |planes| => planes[i].k.nics)
  }

  ghost predicate AllSettle(planes: seq<Plane>, wants: seq<seq<Router>>, n: nat)
    requires |planes| == |wants| + 1 && n <= |wants|
  {
    forall i :: 0 <= i < n ==> SettledAs(planes[i].k, planes[i + 1].k, planes[i + 1].dirs, wants[i])
  }

  /** While passes find their names kin, planes stay sound and each pass settles. */
  lemma {:induction false} SettleSoFar(planes: seq<Plane>, wants: seq<seq<Router>>, n: nat)
    requires Follow(planes, wants) && n <= |wants| && AllPassesKin(NicsOf(planes), ToursOf(wants), n)
    ensures Sound(planes[n].k) && AllSettle(planes, wants, n)
    ensures n > 0 ==> Leaves(planes[n - 1].k.nics, planes[n].k.nics, TourOf(wants[n - 1]))
  {
    hide Sound, Distinct, SettledAs, AllKin, AllSpecs, Leaves;
    if n > 0 {
      SettleSoFar(planes, wants, n - 1);
      assert AllKin(NicsOf(planes)[n - 1], ToursOf(wants)[n - 1].specs);
      assert Follows(planes[n - 1], planes[n], wants[n - 1]);
      var receipts :| Settles(planes[n - 1].k, planes[n].k, receipts, planes[n].dirs, wants[n - 1]);
      SettlesLeaves(planes[n - 1].k, planes[n].k, receipts, planes[n].dirs, wants[n - 1]);
    }
  }

  lemma FollowIsRun(planes: seq<Plane>, wants: seq<seq<Router>>)
    requires Follow(planes, wants)
    ensures IsRun(NicsOf(planes), ToursOf(wants))
  {
    hide Sound, Follow, Leaves, AllKin, AllSpecs, Matched, AllPassesKin, TourOf;
    var nics, tours := NicsOf(planes), ToursOf(wants);
    RunLength(planes, wants);
    forall i | 0 <= i < |tours| && AllPassesKin(nics, tours, i + 1) ensures Leaves(nics[i], nics[i + 1], tours[i]) {
      SettleSoFar(planes, wants, i + 1);
    }
  }

  lemma RunLength(planes: seq<Plane>, wants: seq<seq<Router>>)
    requires Follow(planes, wants)
    ensures |planes| == |wants| + 1 && Matched(planes[0].k.nics)
  {
  }

  /** Over every run of fault-free passes, each with routers of its own: every pass finds its names kin
      if and only if none cross, which the first plane and the lists decide; and then each leaves exactly
      what it wanted, but for addresses whose prefix length had to change. */
  lemma EveryPassSettlesExactly(planes: seq<Plane>, wants: seq<seq<Router>>, n: nat)
    requires Follow(planes, wants) && n <= |wants|
    ensures AllPassesKin(NicsOf(planes), ToursOf(wants), n) <==> RunFits(planes[0].k.nics, ToursOf(wants), n)
    ensures RunFits(planes[0].k.nics, ToursOf(wants), n) ==> Sound(planes[n].k) && AllSettle(planes, wants, n)
  {
    RunLength(planes, wants);
    FollowIsRun(planes, wants);
    hide Follow, AllPassesKin, RunFits, IsRun, AllSettle, Sound;
    RunKinExactly(NicsOf(planes), ToursOf(wants), n);
    if AllPassesKin(NicsOf(planes), ToursOf(wants), n) {
      SettleSoFar(planes, wants, n);
    }
  }

  // ------------------------------------------------------- when names do not cross

  /** A jail end's name tells the port: it never goes with two host interfaces. */
  ghost predicate InnerTellsHost(run: set<Pair>) {
    forall p, q :: p in run && q in run && p.I() == q.I() ==> p.H() == q.H()
  }

  ghost predicate PairsIn(desired: seq<Router>, run: set<Pair>) {
    forall a :: 0 <= a < |AllSpecs(desired)| ==> AllSpecs(desired)[a].pair in run
  }

  /** Host interfaces under names of the run are in the group. */
  ghost predicate HostsGrouped(nics: Nics, run: set<Pair>) {
    forall p :: p in run && p.H() in nics ==> nics[p.H()].grouped
  }

  /** A jail end under a name of the run is the mate of its port's host interface, but for those that
      the first pass wants. */
  ghost predicate InnersMated(nics: Nics, run: set<Pair>, first: seq<Router>) {
    forall p :: p in run && p.I() in nics && !IsEnd(p.I(), TourOf(first)) ==> nics[p.I()].peer == Some(p.H())
  }

  /** Nothing stale lies under the names of a run: whatever half-states the first pass finds of the
      ports it wants, the names of later passes are ends of their own epairs or free. */
  ghost predicate Fit(nics: Nics, run: set<Pair>, first: seq<Router>) {
    AllKin(nics, AllSpecs(first)) && HostsGrouped(nics, run) && InnersMated(nics, run, first)
  }

  /** A fault-free pass leaves nothing stale, wherever ports have moved. */
  lemma FitStays(k0: World, k: World, receipts: seq<Done>, dirs: Dirs, desired: seq<Router>, next: seq<Router>, run: set<Pair>)
    requires Sound(k) && Fit(k0.nics, run, desired) && PairsIn(desired, run) && PairsIn(next, run) && InnerTellsHost(run)
    requires Settles(k0, k, receipts, dirs, desired)
    ensures Fit(k.nics, run, next)
  {
    SettlesLeaves(k0, k, receipts, dirs, desired);
    hide Sound, AllSpecs, Settles, Leaves, InnersMated, IsEnd, InnerTellsHost, HostsGrouped;
    forall p | p in run
      ensures p.H() in k.nics ==> k.nics[p.H()].grouped
      ensures p.I() in k.nics ==> k.nics[p.I()].peer == Some(p.H())
    {
      HostFits(k0.nics, k.nics, TourOf(desired), run, p);
      InnerFits(k0.nics, k.nics, desired, run, p);
    }
    AllMated(k, next, run);
  }

  lemma AllMated(k: World, next: seq<Router>, run: set<Pair>)
    requires Sound(k) && PairsIn(next, run)
    requires forall p :: p in run ==> (p.H() in k.nics ==> k.nics[p.H()].grouped) && (p.I() in k.nics ==> k.nics[p.I()].peer == Some(p.H()))
    ensures Fit(k.nics, run, next)
  {
    hide AllSpecs;
  }

  lemma HostFits(nics0: Nics, nics: Nics, t: Tour, run: set<Pair>, p: Pair)
    requires Leaves(nics0, nics, t) && HostsGrouped(nics0, run) && p in run
    ensures p.H() in nics ==> nics[p.H()].grouped
  {
    hide Matched, Renumbered, Remains;
    if IsEnd(p.H(), t) {
      var a :| 0 <= a < |t.specs| && p.H() == t.specs[a].pair.H();
      assert PortAs(nics0, nics, t.specs[a]);
    } else if p.H() in nics {
      RemainsOld(nics0, nics, t.specs, t.kept, p.H());
    }
  }

  lemma InnerFits(nics0: Nics, nics: Nics, desired: seq<Router>, run: set<Pair>, p: Pair)
    requires Leaves(nics0, nics, TourOf(desired)) && InnersMated(nics0, run, desired)
    requires p in run && InnerTellsHost(run) && PairsIn(desired, run)
    ensures p.I() in nics ==> nics[p.I()].peer == Some(p.H())
  {
    var t := TourOf(desired);
    if IsEnd(p.I(), t) {
      var a :| 0 <= a < |t.specs| && p.I() == t.specs[a].pair.I();
      assert PortAs(nics0, nics, t.specs[a]) && t.specs[a].pair in run;
      hide AllSpecs, Remains, Renumbered;
    } else {
      assert NicAt(nics, p.I()) == Remainder(nics0, p.I(), t.specs, t.kept);
      hide AllSpecs, Remains, PortsAs, Matched, IsEnd;
    }
  }

  /** Over every run of fault-free passes that begins with nothing stale, every pass settles. */
  lemma {:induction false} EveryPassSettles(planes: seq<Plane>, wants: seq<seq<Router>>, run: set<Pair>, n: nat)
    requires Follow(planes, wants) && n < |wants| && InnerTellsHost(run) && forall i :: 0 <= i < |wants| ==> PairsIn(wants[i], run)
    requires Fit(planes[0].k.nics, run, wants[0])
    ensures Sound(planes[n].k) && Fit(planes[n].k.nics, run, wants[n])
    ensures Sound(planes[n + 1].k) && SettledAs(planes[n].k, planes[n + 1].k, planes[n + 1].dirs, wants[n])
    decreases n
  {
    hide Sound, Fit, Settles, SettledAs, Follow, PairsIn, InnerTellsHost;
    RunLength(planes, wants);
    if n > 0 {
      EveryPassSettles(planes, wants, run, n - 1);
      var receipts := OneSettles(planes, wants, run, n - 1);
      FitStays(planes[n - 1].k, planes[n].k, receipts, planes[n].dirs, wants[n - 1], wants[n], run);
    } else {
      FirstSound(planes, wants);
    }
    var receipts := OneSettles(planes, wants, run, n);
  }

  lemma FirstSound(planes: seq<Plane>, wants: seq<seq<Router>>)
    requires Follow(planes, wants)
    ensures |planes| > 0 && Sound(planes[0].k)
  {
  }

  lemma OneSettles(planes: seq<Plane>, wants: seq<seq<Router>>, run: set<Pair>, n: nat) returns (receipts: seq<Done>)
    requires Follow(planes, wants) && n < |wants| && |planes| == |wants| + 1
    requires Sound(planes[n].k) && Fit(planes[n].k.nics, run, wants[n])
    ensures Sound(planes[n + 1].k) && Settles(planes[n].k, planes[n + 1].k, receipts, planes[n + 1].dirs, wants[n])
    ensures SettledAs(planes[n].k, planes[n + 1].k, planes[n + 1].dirs, wants[n])
  {
    assert Follows(planes[n], planes[n + 1], wants[n]);
    receipts :| Settles(planes[n].k, planes[n + 1].k, receipts, planes[n + 1].dirs, wants[n]);
  }

  // ------------------------------------------------------------------ a run, run

  /** Passes over one plane, one after another, each with its own runner and the directories the one
      before left: every pass settles. */
  method Live(faults: Faults, k: World, dirs: Dirs, wants: seq<seq<Router>>) returns (planes: seq<Plane>)
    requires FaultFree(faults) && Sound(k) && forall i :: 0 <= i < |wants| ==> Distinct(wants[i])
    requires RunFits(k.nics, ToursOf(wants), |wants|)
    ensures |planes| == |wants| + 1 && planes[0] == Plane(k, dirs)
    ensures Follow(planes, wants) && AllSettle(planes, wants, |wants|)
  {
    hide FaultFree, Sound, Distinct, Settles, RunFits, AllKin, AllSpecs, SettledAs;
    planes := [Plane(k, dirs)];
    var disk := new StateDirs(dirs);
    for n := 0 to |wants|
      invariant |planes| == n + 1 && planes[0] == Plane(k, dirs) && planes[n].dirs == disk.dirs
      invariant Follow(planes, wants[..n])
    {
      RunsSoFar(planes, wants, n);
      var acts := new Actions(faults, planes[n].k);
      Reconcile(acts, disk, wants[n]);
      FollowMore(planes, wants, n, Plane(acts.k, disk.dirs), acts.receipts);
      planes := planes + [Plane(acts.k, disk.dirs)];
    }
    assert wants[..|wants|] == wants;
    EveryPassSettlesExactly(planes, wants, |wants|);
  }

  lemma RunsSoFar(planes: seq<Plane>, wants: seq<seq<Router>>, n: nat)
    requires n < |wants| && Follow(planes, wants[..n]) && RunFits(planes[0].k.nics, ToursOf(wants), |wants|)
    ensures |planes| == n + 1 && Sound(planes[n].k) && AllKin(planes[n].k.nics, AllSpecs(wants[n]))
  {
    RunLength(planes, wants[..n]);
    var before, tours := ToursOf(wants[..n]), ToursOf(wants);
    FollowIsRun(planes, wants[..n]);
    SameFits(planes[0].k.nics, before, tours, n);
    hide Sound, Follow, AllKin, AllSpecs, IsRun, CrossesAt, Kin;
    EveryPassSettlesExactly(planes, wants[..n], n);
    RunKinExactly(NicsOf(planes), before, n);
    KnownAlways(NicsOf(planes), before, n);
    var specs := tours[n].specs;
    forall a | 0 <= a < |specs| ensures Kin(planes[n].k.nics, specs[a].pair) {
      SameCrosses(planes[0].k.nics, before, tours, n, specs[a].pair);
      CrossesNow(NicsOf(planes), before, n, specs[a].pair);
    }
    KinOfAll(planes[n].k.nics, specs);
  }

  lemma KinOfAll(nics: Nics, specs: seq<Spec>)
    requires forall a :: 0 <= a < |specs| ==> Kin(nics, specs[a].pair)
    ensures AllKin(nics, specs)
  {
  }

  lemma FollowMore(planes: seq<Plane>, wants: seq<seq<Router>>, n: nat, next: Plane, receipts: seq<Done>)
    requires n < |wants| && Follow(planes, wants[..n]) && Distinct(wants[n]) && |planes| == n + 1
    requires Sound(next.k) && Settles(planes[n].k, next.k, receipts, next.dirs, wants[n])
    ensures Follow(planes + [next], wants[..n + 1])
  {
    hide Sound, Distinct, Settles, AllKin, AllSpecs;
    var all, now := planes + [next], wants[..n + 1];
    forall i | 0 <= i < n + 1 ensures Distinct(now[i]) && Follows(all[i], all[i + 1], now[i]) {
      if i < n {
        assert now[i] == wants[..n][i] && all[i] == planes[i] && all[i + 1] == planes[i + 1];
      }
    }
  }
}
