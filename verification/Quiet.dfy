/**
 When the agent stops raising its own flag, and what a deletion during a pass comes to.
 */
module Quiet {
  import opened Collections
  import opened Planner
  import opened Candidates
  import opened Retries

  // ---------------------------------------------------------- an undisturbed run

  /** A fault-free, uninterrupted pass whose reply resolves exactly the resolvable devices. */
  ghost predicate Steady(s: State, w: World, resolvable: set<Device>, service: set<Device>) {
    && Calm(w) && w.found == Some(service) && w.reply.Some?
    && w.groups && w.notes.Some? && w.saved && w.reported
    && AnsweredOnce(Answers(w.reply.value), Scanned(s, w).candidates)
    && forall i :: 0 <= i < |Answers(w.reply.value)| ==>
                     (Answers(w.reply.value)[i].Resolved? <==> Answers(w.reply.value)[i].device in resolvable)
  }

  function Runs(s: State, worlds: seq<World>): State {
    if worlds == [] then s else Pass(Runs(s, worlds[..|worlds| - 1]), worlds[|worlds| - 1])
  }

  ghost predicate SteadyRun(s: State, worlds: seq<World>, resolvable: set<Device>, service: set<Device>) {
    forall i :: 0 <= i < |worlds| ==> Steady(Runs(s, worlds[..i]), worlds[i], resolvable, service)
  }

  lemma SteadyPrefix(s: State, worlds: seq<World>, resolvable: set<Device>, service: set<Device>)
    requires worlds != [] && SteadyRun(s, worlds, resolvable, service)
    ensures SteadyRun(s, worlds[..|worlds| - 1], resolvable, service)
    ensures Steady(Runs(s, worlds[..|worlds| - 1]), worlds[|worlds| - 1], resolvable, service)
  {
    var rest := worlds[..|worlds| - 1];
    forall i | 0 <= i < |rest| ensures Steady(Runs(s, rest[..i]), rest[i], resolvable, service) {
      assert rest[..i] == worlds[..i];
      assert Steady(Runs(s, worlds[..i]), worlds[i], resolvable, service);
    }
  }

  predicate Stuck(s: State, d: Device, resolvable: set<Device>, service: set<Device>) {
    (d in s.candidates || d in service) && d !in resolvable
  }

  /** One steady pass: the count of a device that is asked about in vain rises by one, from 59
      to none; such a device stays a candidate while it has a count. */
  lemma SteadyDevice(s: State, w: World, resolvable: set<Device>, service: set<Device>, d: Device)
    requires GoodCounts(s) && Steady(s, w, resolvable, service)
    ensures var s', count := Pass(s, w), CountOf(s, d) + 1;
            if Stuck(s, d, resolvable, service) then
              CountOf(s', d) == (if count < BINDING_MISS_LIMIT then count else 0) && (d in s'.candidates <==> CountOf(s', d) > 0)
            else
              CountOf(s', d) == 0 && (d in s'.candidates <==> d in s.candidates || d in service)
  {
    var s1 := Scanned(s.(dirty := false), w);
    assert s1.candidates == Scanned(s, w).candidates;
    CalmAsk(s1, w);
    if d in s1.candidates {
      MissedIffStuck(w, s1.candidates, resolvable, d);
      CalmDevice(s1, w, d);
    } else {
      CalmOther(s1, w, d);
    }
  }

  lemma MissedIffStuck(w: World, devices: set<Device>, resolvable: set<Device>, d: Device)
    requires w.reply.Some? && AnsweredOnce(Answers(w.reply.value), devices) && d in devices
    requires forall i :: 0 <= i < |Answers(w.reply.value)| ==>
                           (Answers(w.reply.value)[i].Resolved? <==> Answers(w.reply.value)[i].device in resolvable)
    ensures Missed(d) in Answers(w.reply.value) <==> d !in resolvable
  {
    var answers := Answers(w.reply.value);
    assert Answered(answers, d);
    var j :| 0 <= j < |answers| && answers[j].device == d;
    OnlyAnswer(answers, j);
  }

  /** After a steady pass the flag is up exactly when some device is still in its first ten misses. */
  lemma SteadyFlag(s: State, w: World, resolvable: set<Device>, service: set<Device>)
    requires GoodCounts(s) && Steady(s, w, resolvable, service)
    ensures Pass(s, w).dirty <==> exists d :: d in Pass(s, w).misses && CountOf(Pass(s, w), d) <= FAST_RETRY_MISSES
  {
    var s1 := Scanned(s.(dirty := false), w);
    var t := CalmTally(s1, w);
    assert s1.candidates == Scanned(s, w).candidates;
    CalmAsk(s1, w);
    TakeAllKeepsFlag(Tally(s1, [], {}), Answers(w.reply.value));
    assert Pass(s, w).misses == t.state.misses;
    assert Pass(s, w).dirty <==> exists d :: d in t.pending && CountOf(t.state, d) <= FAST_RETRY_MISSES;
    forall d ensures d in t.pending <==> d in t.state.misses {
      PendingIsMissing(s1, w, d);
    }
  }

  lemma PendingIsMissing(s: State, w: World, d: Device)
    requires GoodCounts(s) && Calm(w) && w.reply.Some? && w.groups && w.notes.Some? && w.saved && w.reported
    requires AnsweredOnce(Answers(w.reply.value), s.candidates)
    ensures d in CalmTally(s, w).pending <==> d in CalmTally(s, w).state.misses
  {
    CalmAsk(s, w);
    if d in s.candidates {
      CalmDevice(s, w, d);
    } else {
      CalmOther(s, w, d);
    }
  }

  lemma {:induction false} SteadyCounts(s: State, worlds: seq<World>, resolvable: set<Device>, service: set<Device>)
    requires GoodCounts(s) && SteadyRun(s, worlds, resolvable, service)
    ensures GoodCounts(Runs(s, worlds))
  {
    if worlds != [] {
      SteadyPrefix(s, worlds, resolvable, service);
      SteadyCounts(s, worlds[..|worlds| - 1], resolvable, service);
      hide GoodCounts, SteadyRun, AnsweredOnce;
      PassKeepsCounts(Runs(s, worlds[..|worlds| - 1]), worlds[|worlds| - 1]);
    }
  }

  // ------------------------------------------------- after any number of passes

  /** The count of a device that cannot be resolved, after n undisturbed passes. A service device is
      found again by the scan when it has been dropped; another is asked about no more. */
  function CountAfter(s: State, service: set<Device>, d: Device, n: nat): nat {
    var count := CountOf(s, d) + n;
    if d in service then count % BINDING_MISS_LIMIT
    else if d in s.candidates && count < BINDING_MISS_LIMIT then count
    else 0
  }

  lemma {:induction false} RunCounts(s: State, worlds: seq<World>, resolvable: set<Device>, service: set<Device>, d: Device)
    requires GoodCounts(s) && SteadyRun(s, worlds, resolvable, service)
    ensures d !in resolvable ==>
              && CountOf(Runs(s, worlds), d) == CountAfter(s, service, d, |worlds|)
              && (d !in service ==> (d in Runs(s, worlds).candidates <==> d in s.candidates && CountOf(s, d) + |worlds| < BINDING_MISS_LIMIT))
    ensures d in resolvable && worlds != [] ==> CountOf(Runs(s, worlds), d) == 0
  {
    hide GoodCounts, SteadyRun, Steady, Pass, CountOf;
    CountsAreGood(s, d);
    if worlds != [] {
      var before, w := worlds[..|worlds| - 1], worlds[|worlds| - 1];
      SteadyPrefix(s, worlds, resolvable, service);
      SteadyCounts(s, before, resolvable, service);
      RunCounts(s, before, resolvable, service, d);
      SteadyDevice(Runs(s, before), w, resolvable, service, d);
      NextModulo(CountOf(s, d) + |before|);
    }
  }

  lemma CountsAreGood(s: State, d: Device)
    requires GoodCounts(s)
    ensures CountOf(s, d) < BINDING_MISS_LIMIT && (d in s.misses <==> CountOf(s, d) > 0) && (CountOf(s, d) > 0 ==> d in s.candidates)
  {
  }

  lemma NextModulo(n: nat)
    ensures (n + 1) % BINDING_MISS_LIMIT == if n % BINDING_MISS_LIMIT + 1 < BINDING_MISS_LIMIT then n % BINDING_MISS_LIMIT + 1 else 0
  {
  }

  /** Some service device that cannot be resolved is in its first ten misses after n passes, counted
      from its last drop. */
  ghost predicate ServiceRetries(s: State, resolvable: set<Device>, service: set<Device>, n: nat) {
    exists d :: d in service && d !in resolvable && 1 <= (CountOf(s, d) + n) % BINDING_MISS_LIMIT <= FAST_RETRY_MISSES
  }

  /** Some other candidate that cannot be resolved is. */
  ghost predicate OtherRetries(s: State, resolvable: set<Device>, service: set<Device>, n: nat) {
    exists d :: d in s.candidates && d !in service && d !in resolvable && CountOf(s, d) + n <= FAST_RETRY_MISSES
  }

  /** Nothing happening outside, whether the flag is up after n passes is settled by the counts they
      began with. */
  lemma FlagExactly(s: State, worlds: seq<World>, resolvable: set<Device>, service: set<Device>)
    requires GoodCounts(s) && SteadyRun(s, worlds, resolvable, service) && worlds != []
    ensures Runs(s, worlds).dirty <==> ServiceRetries(s, resolvable, service, |worlds|) || OtherRetries(s, resolvable, service, |worlds|)
  {
    hide GoodCounts, SteadyRun, Steady, Pass, CountOf;
    var before, w, s' := worlds[..|worlds| - 1], worlds[|worlds| - 1], Runs(s, worlds);
    SteadyPrefix(s, worlds, resolvable, service);
    SteadyCounts(s, before, resolvable, service);
    SteadyCounts(s, worlds, resolvable, service);
    SteadyFlag(Runs(s, before), w, resolvable, service);
    forall d
      ensures d in s'.misses <==> CountOf(s', d) > 0
      ensures d !in resolvable ==> CountOf(s', d) == CountAfter(s, service, d, |worlds|)
      ensures d in resolvable ==> CountOf(s', d) == 0
    {
      CountsAreGood(s', d);
      RunCounts(s, worlds, resolvable, service, d);
    }
    if s'.dirty {
      var d :| d in s'.misses && CountOf(s', d) <= FAST_RETRY_MISSES;
      assert d !in resolvable && CountAfter(s, service, d, |worlds|) > 0;
    }
    if ServiceRetries(s, resolvable, service, |worlds|) {
      var d :| d in service && d !in resolvable && 1 <= (CountOf(s, d) + |worlds|) % BINDING_MISS_LIMIT <= FAST_RETRY_MISSES;
      assert d in s'.misses;
    }
    if OtherRetries(s, resolvable, service, |worlds|) {
      var d :| d in s.candidates && d !in service && d !in resolvable && CountOf(s, d) + |worlds| <= FAST_RETRY_MISSES;
      assert d in s'.misses;
    }
  }

  /** Nothing happening outside, the agent is quiet from the eleventh pass on, but for the times that
      some unresolvable service device is again in its first ten misses. */
  lemma QuietAfterEleven(s: State, worlds: seq<World>, resolvable: set<Device>, service: set<Device>)
    requires GoodCounts(s) && SteadyRun(s, worlds, resolvable, service)
    requires |worlds| > FAST_RETRY_MISSES
    ensures Runs(s, worlds).dirty <==> ServiceRetries(s, resolvable, service, |worlds|)
    ensures service <= resolvable ==> !Runs(s, worlds).dirty
  {
    hide GoodCounts, SteadyRun, Steady, Pass, Runs;
    FlagExactly(s, worlds, resolvable, service);
  }

  lemma RetriesWithin(count: nat, m: nat) returns (n: nat)
    ensures m < n <= m + BINDING_MISS_LIMIT && (count + n) % BINDING_MISS_LIMIT == 1
  {
    var q, r := (count + m) / 60, (count + m) % 60;
    n := m + if r == 0 then 1 else 61 - r;
    assert count + n == 60 * (if r == 0 then q else q + 1) + 1;
  }

  /** It stays quiet from some pass on if and only if every service device can be resolved: any other
      raises the flag again within sixty passes, whenever one starts to look. */
  lemma RetriesRecur(s: State, resolvable: set<Device>, service: set<Device>, m: nat)
    ensures (exists n :: m < n <= m + BINDING_MISS_LIMIT && ServiceRetries(s, resolvable, service, n)) <==> !(service <= resolvable)
  {
    if !(service <= resolvable) {
      var d :| d in service && d !in resolvable;
      var n := RetriesWithin(CountOf(s, d), m);
      assert ServiceRetries(s, resolvable, service, n);
    }
  }

  // -------------------------------------------- never quiet: six service devices

  /** Ports of other agents' interfaces that Neutron no longer knows, ten misses apart. */
  ghost predicate Staggered(s: State, devices: seq<Device>) {
    |devices| == 6 && forall i :: 0 <= i < 6 ==> CountOf(s, devices[i]) == 10 * i
  }

  lemma SomeoneIsNew(n: nat) returns (i: nat)
    ensures i < 6 && 1 <= (10 * i + n) % BINDING_MISS_LIMIT <= FAST_RETRY_MISSES
  {
    var q, m := n / 60, n % 60;
    assert n == 60 * q + m;
    i := (if m == 0 then 1 else (60 - m) / 10 + 1) % 6;
    var v := (10 * i + m) % 60;
    assert 1 <= v <= 10;
    assert (10 * i + n) % 60 == v;
  }

  /** Eleven passes do not always do: a service device that is dropped is found again by the next
      scan, so six unresolvable ones ten misses apart keep the flag up for ever. */
  lemma SixServicePortsAreNeverQuiet(s: State, worlds: seq<World>, resolvable: set<Device>, service: set<Device>, devices: seq<Device>)
    requires GoodCounts(s) && SteadyRun(s, worlds, resolvable, service) && worlds != []
    requires forall i :: 0 <= i < |devices| ==> devices[i] in service && devices[i] !in resolvable
    requires Staggered(s, devices)
    ensures Runs(s, worlds).dirty
  {
    hide GoodCounts, SteadyRun, Steady, Pass, CountOf, Runs;
    FlagExactly(s, worlds, resolvable, service);
    var i := SomeoneIsNew(|worlds|);
    assert devices[i] in service && CountOf(s, devices[i]) == 10 * i;
  }

  // -- a run that is never quiet

  const SIX: seq<Device> := ["a", "b", "c", "d", "e", "f"]

  /** The state they are in, and a pass in which nothing happens and Neutron knows none of them. */
  const RESTLESS := State(Elements(SIX), map["b" := 10, "c" := 20, "d" := 30, "e" := 40, "f" := 50], {}, false, 0)
  const IDLE_WORLD := World([], Some(Elements(SIX)), [], Some(Reply([], SIX)), [], true, [], Some([]), true, [], true)

  function Idle(n: nat): (r: seq<World>)
    ensures |r| == n && forall i :: 0 <= i < n ==> r[i] == IDLE_WORLD
  {
    seq(n, i requires 0 <= i < n => IDLE_WORLD)
  }

  lemma {:induction false} FailedAnswersAre(failed: seq<Device>)
    ensures |FailedAnswers(failed)| == |failed|
    ensures forall i :: 0 <= i < |failed| ==> FailedAnswers(failed)[i] == Missed(failed[i])
  {
    if failed != [] {
      FailedAnswersAre(failed[..|failed| - 1]);
    }
  }

  lemma SixAnswers()
    ensures AnsweredOnce(Answers(IDLE_WORLD.reply.value), Elements(SIX))
    ensures forall i :: 0 <= i < |Answers(IDLE_WORLD.reply.value)| ==> Answers(IDLE_WORLD.reply.value)[i].Missed?
  {
    var answers := Answers(IDLE_WORLD.reply.value);
    assert answers == FailedAnswers(SIX) by {
      assert EntryAnswers([]) == [];
    }
    SixDiffer(SIX);
    MissedOnce(SIX);
  }

  lemma SixDiffer(devices: seq<Device>)
    requires devices == SIX
    ensures forall i, j :: 0 <= i < j < |devices| ==> devices[i] != devices[j]
  {
    forall i, j | 0 <= i < j < |devices| ensures devices[i] != devices[j] {
      assert devices[i][0] == 'a' + i as char && devices[j][0] == 'a' + j as char;
    }
  }

  /** A reply that has failed on each of these devices answers each once. */
  lemma MissedOnce(failed: seq<Device>)
    requires forall i, j :: 0 <= i < j < |failed| ==> failed[i] != failed[j]
    ensures AnsweredOnce(FailedAnswers(failed), Elements(failed))
    ensures forall i :: 0 <= i < |FailedAnswers(failed)| ==> FailedAnswers(failed)[i].Missed?
  {
    hide FailedAnswers;
    FailedAnswersAre(failed);
    var answers := FailedAnswers(failed);
    forall d ensures d in Elements(failed) <==> Answered(answers, d) {
      if d in Elements(failed) {
        var i :| 0 <= i < |failed| && failed[i] == d;
        assert answers[i].device == d;
      }
    }
  }

  lemma IdleIsSteady(s: State)
    requires s.candidates <= Elements(SIX)
    ensures Steady(s, IDLE_WORLD, {}, Elements(SIX))
  {
    SixAnswers();
    hide Answers, AnsweredOnce;
    assert Scanned(s, IDLE_WORLD).candidates == Elements(SIX);
  }

  lemma RestlessIsGood()
    ensures GoodCounts(RESTLESS) && Staggered(RESTLESS, SIX)
  {
  }

  lemma {:induction false} IdleRuns(n: nat)
    ensures SteadyRun(RESTLESS, Idle(n), {}, Elements(SIX)) && GoodCounts(Runs(RESTLESS, Idle(n)))
    ensures Runs(RESTLESS, Idle(n)).candidates <= Elements(SIX)
  {
    RestlessIsGood();
    hide GoodCounts, Steady, Pass, Staggered;
    if n > 0 {
      IdleRuns(n - 1);
      var worlds := Idle(n);
      assert worlds[..n - 1] == Idle(n - 1);
      IdleIsSteady(Runs(RESTLESS, Idle(n - 1)));
      forall i | 0 <= i < n ensures Steady(Runs(RESTLESS, worlds[..i]), worlds[i], {}, Elements(SIX)) {
        if i < n - 1 {
          assert worlds[..i] == Idle(n - 1)[..i];
        }
      }
      SteadyCounts(RESTLESS, worlds, {}, Elements(SIX));
      forall d | d in Runs(RESTLESS, worlds).candidates ensures d in Elements(SIX) {
        SteadyDevice(Runs(RESTLESS, Idle(n - 1)), IDLE_WORLD, {}, Elements(SIX), d);
      }
    }
  }

  /** So there is a state from which, with nothing happening at all, the agent never goes quiet. */
  lemma NeverQuiet(n: nat)
    requires n > 0
    ensures GoodCounts(RESTLESS) && SteadyRun(RESTLESS, Idle(n), {}, Elements(SIX)) && Runs(RESTLESS, Idle(n)).dirty
  {
    RestlessIsGood();
    IdleRuns(n);
    hide GoodCounts, SteadyRun, Steady, Runs;
    SixServicePortsAreNeverQuiet(RESTLESS, Idle(n), {}, Elements(SIX), SIX);
  }

  // ------------------------------------------------------ deleted during a pass

  /** d was deleted among these events and not announced since. */
  ghost predicate Dropped(events: seq<Event>, d: Device) {
    !Live(events, d) && !NeverDeleted(events, d)
  }

  ghost predicate Forgot(s: State, since: seq<Event>, d: Device) {
    Dropped(since, d) ==> d !in s.candidates
  }

  lemma NeverDeletedConcat(a: seq<Event>, b: seq<Event>, d: Device)
    ensures NeverDeleted(a + b, d) <==> NeverDeleted(a, d) && NeverDeleted(b, d)
  {
    var c := a + b;
    forall i | 0 <= i < |a| ensures c[i] == a[i] {}
    forall i | 0 <= i < |b| ensures c[|a| + i] == b[i] {}
  }

  lemma ForgetMore(s: State, since: seq<Event>, more: seq<Event>, d: Device)
    requires Forgot(s, since, d)
    ensures Forgot(AfterAll(s, more), since + more, d)
  {
    AfterAllIs(s, more, d);
    LiveConcat(since, more, d);
    NeverDeletedConcat(since, more, d);
  }

  /** How a pass that succeeds leaves a port dropped since its snapshot. */
  ghost predicate Returns(end: End, t: Tally, d: Device) {
    Dropped(end.since, d) ==> if end.ok then d in end.state.candidates <==> d in t.resolved || d in t.pending else d !in end.state.candidates
  }

  lemma ReportReturns(devices: set<Device>, t: Tally, notes: seq<Note>, w: World, since: seq<Event>, d: Device)
    requires Forgot(t.state, since, d)
    ensures Returns(Report(devices, t, notes, w, since), t, d)
  {
    ForgetMore(t.state, since, w.reporting, d);
  }

  lemma ApplyReturns(devices: set<Device>, t: Tally, w: World, since: seq<Event>, d: Device)
    requires Forgot(t.state, since, d)
    ensures Returns(Apply(devices, t, w, since), t, d)
  {
    ForgetMore(t.state, since, w.applying, d);
    if w.notes.Some? {
      ReportReturns(devices, t.(state := AfterAll(t.state, w.applying)), w.notes.value, w, since + w.applying, d);
    }
  }

  lemma GroupReturns(devices: set<Device>, t: Tally, w: World, since: seq<Event>, d: Device)
    requires Forgot(t.state, since, d)
    ensures Returns(Group(devices, t, w, since), t, d)
  {
    ForgetMore(t.state, since, w.grouping, d);
    ApplyReturns(devices, t, w, since, d);
    ApplyReturns(devices, t.(state := AfterAll(t.state, w.grouping)), w, since + w.grouping, d);
  }

  /** A port that is deleted while a pass runs is not always dropped: it is a candidate again when
      the pass succeeds exactly if the reply, taken before or after the deletion, resolved it or
      missed it short of the limit. When the pass fails it stays dropped. */
  lemma DeletedPortsComeBack(s: State, w: World, d: Device)
    requires d in s.candidates && w.reply.Some? && AnsweredOnce(Answers(w.reply.value), s.candidates)
    requires Dropped(Ask(s, w).since, d)
    ensures var answers := Answers(w.reply.value);
            if Ask(s, w).ok then
              d in Ask(s, w).state.candidates <==>
                Resolved(d) in answers || (Missed(d) in answers && CountOf(AfterAll(s, w.asking), d) + 1 < BINDING_MISS_LIMIT)
            else d !in Ask(s, w).state.candidates
  {
    var t, answers := Tally(AfterAll(s, w.asking), [], {}), Answers(w.reply.value);
    var j :| 0 <= j < |answers| && answers[j].device == d;
    TakeAllAt(t, answers, j);
    OnlyAnswer(answers, j);
    assert Resolved(d) in answers <==> answers[j].Resolved? by {
      if Resolved(d) in answers {
        var i :| 0 <= i < |answers| && answers[i] == Resolved(d);
        assert i == j;
      }
    }
    NotDroppedYet(s, d);
    ForgetMore(s, [], w.asking, d);
    assert [] + w.asking == w.asking;
    GroupReturns(s.candidates, TakeAll(t, answers), w, w.asking, d);
  }

  lemma NotDroppedYet(s: State, d: Device)
    ensures Forgot(s, [], d)
  {
  }

  // -- a port that comes back

  /** A candidate that is deleted while the details RPC is under way, whose reply still resolves it. */
  const ASKED := State({"p"}, map[], {}, false, 0)
  const DELETED_MEANWHILE := World([], Some({}), [PortDelete("p")], Some(Reply([Entry("p", None)], [])), [], true, [], Some([]), true, [], true)

  lemma OneResolved()
    ensures Answers(DELETED_MEANWHILE.reply.value) == [Resolved("p")]
    ensures AnsweredOnce([Resolved("p")], {"p"})
  {
    var entries := [Entry("p", None)];
    assert entries[..0] == [] && EntryAnswers([]) == [];
    assert EntryAnswers(entries) == EntryAnswers(entries[..0]) + AnswerOf(entries[0]);
    assert [Resolved("p")][0].device == "p";
    assert Answered([Resolved("p")], "p");
  }

  lemma DeletedOnce()
    ensures AfterAll(ASKED, [PortDelete("p")]) == State({}, map[], {}, true, 0)
    ensures Dropped([PortDelete("p")], "p")
  {
    var events := [PortDelete("p")];
    assert events[..0] == [] && AfterAll(ASKED, []) == ASKED;
    assert Deletes(events[0], "p");
    assert forall j :: 0 <= j < |events| ==> !Announces(events[j], "p");
  }

  /** So a port can be deleted, its pass succeed, and the port be a candidate for the next. */
  lemma ADeletedPortComesBack()
    ensures var end := Ask(ASKED, DELETED_MEANWHILE);
            end.ok && Dropped(end.since, "p") && "p" in end.state.candidates
  {
    OneResolved();
    DeletedOnce();
    var t := TakeAll(Tally(AfterAll(ASKED, DELETED_MEANWHILE.asking), [], {}), [Resolved("p")]);
    assert [Resolved("p")][..0] == [];
    assert t == Take(TakeAll(Tally(AfterAll(ASKED, DELETED_MEANWHILE.asking), [], {}), []), Resolved("p"));
    assert t.resolved == ["p"];
    var end := Ask(ASKED, DELETED_MEANWHILE);
    assert DELETED_MEANWHILE.asking + [] == DELETED_MEANWHILE.asking;
    hide Live, NeverDeleted;
    assert end.ok && end.since == [PortDelete("p")];
    assert "p" in Elements(t.resolved);
  }
}
