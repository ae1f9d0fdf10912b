/**
 The L2 agent's bookkeeping of port candidates (agent.py), as a function of what reaches it.

 A pass yields to the RPC handlers at its calls out of the process: the scan for service
 interfaces, the details RPC, the security-group RPC, the reconcile pass and the report RPC.
 A `World` says what happens at each: the events handled there and what the call returns.
 Letting the world be arbitrary covers every interleaving, every reply and every failure.
 */
module Candidates {
  import opened Collections
  import opened Planner
  import opened Reporting

  type Device = string

  const FAST_RETRY_MISSES: nat := 10
  const BINDING_MISS_LIMIT: nat := 60

  datatype State = State(candidates: set<Device>, misses: map<Device, nat>, devicesUp: set<Device>, dirty: bool, failures: nat)

  // ------------------------------------------------------------------ handlers

  /** A port id that is absent from a notification is empty. `Other` is every notification that
      names no port: networks, security groups, deactivated bindings, interfaces that come and go. */
  datatype Event = PortUpdate(port: Device) | BindingActivate(port: Device) | PortDelete(port: Device) | Other

  predicate Announces(e: Event, d: Device) {
    (e.PortUpdate? || e.BindingActivate?) && e.port == d && d != ""
  }

  predicate Deletes(e: Event, d: Device) {
    e.PortDelete? && e.port == d && d != ""
  }

  function After(s: State, e: Event): State {
    match e
    case Other => s.(dirty := true)
    case PortDelete(d) => if d == "" then s.(dirty := true) else s.(candidates := s.candidates - {d}, misses := s.misses - {d}, dirty := true)
    case _ => if e.port == "" then s.(dirty := true) else s.(candidates := s.candidates + {e.port}, dirty := true)
  }

  function AfterAll(s: State, events: seq<Event>): State {
    if events == [] then s else After(AfterAll(s, events[..|events| - 1]), events[|events| - 1])
  }

  // ------------------------------------------------------------ the details reply

  /** Without a port id, the entry says that its device, if any, cannot be resolved yet. */
  datatype Entry = Entry(portId: Device, device: Option<Device>)

  datatype Reply = Reply(entries: seq<Entry>, failed: seq<Device>)

  /** What a reply says of one device. */
  datatype Answer = Resolved(device: Device) | Missed(device: Device)

  function AnswerOf(e: Entry): seq<Answer> {
    if e.portId != "" then [Resolved(e.portId)]
    else if e.device.Some? then [Missed(e.device.value)]
    else []
  }

  function EntryAnswers(entries: seq<Entry>): seq<Answer> {
    if entries == [] then [] else EntryAnswers(entries[..|entries| - 1]) + AnswerOf(entries[|entries| - 1])
  }

  function FailedAnswers(failed: seq<Device>): seq<Answer> {
    if failed == [] then [] else FailedAnswers(failed[..|failed| - 1]) + [Missed(failed[|failed| - 1])]
  }

  function Answers(r: Reply): seq<Answer> {
    EntryAnswers(r.entries) + FailedAnswers(r.failed)
  }

  function CountOf(s: State, d: Device): nat {
    if d in s.misses then s.misses[d] else 0
  }

  /** The pass so far: the state, the ports resolved, the devices to ask about again. */
  datatype Tally = Tally(state: State, resolved: seq<Device>, pending: set<Device>)

  function Take(t: Tally, a: Answer): Tally {
    match a
    case Resolved(d) => t.(state := t.state.(misses := t.state.misses - {d}), resolved := t.resolved + [d])
    case Missed(d) =>
      var count := CountOf(t.state, d) + 1;
      if count >= BINDING_MISS_LIMIT then
        t.(state := t.state.(candidates := t.state.candidates - {d}, misses := t.state.misses - {d}))
      else
        t.(state := t.state.(misses := t.state.misses[d := count]), pending := t.pending + {d})
  }

  function TakeAll(t: Tally, answers: seq<Answer>): Tally {
    if answers == [] then t else Take(TakeAll(t, answers[..|answers| - 1]), answers[|answers| - 1])
  }

  // ------------------------------------------------------------------ one pass

  /** What happens at each yield point; None or false is a call that raises. `notes` also stands
      for the document that builds, the plan that is made and the receipts that do not fail. */
  datatype World = World(scanning: seq<Event>, found: Option<set<Device>>,
                         asking: seq<Event>, reply: Option<Reply>,
                         grouping: seq<Event>, groups: bool,
                         applying: seq<Event>, notes: Option<seq<Note>>, saved: bool,
                         reporting: seq<Event>, reported: bool)

  /** How a pass ends, and the events handled since it took its snapshot of the candidates. */
  datatype End = End(state: State, ok: bool, since: seq<Event>)

  function Settled(devices: set<Device>, t: Tally, nowUp: set<Device>): State {
    t.state.(
    devicesUp := nowUp,
    candidates := Elements(t.resolved) + t.state.candidates * nowUp + t.pending + (t.state.candidates - devices),
    dirty := t.state.dirty || exists d :: d in t.pending && CountOf(t.state, d) <= FAST_RETRY_MISSES)
  }

  function Report(devices: set<Device>, t: Tally, notes: seq<Note>, w: World, since: seq<Event>): End {
    var nowUp := NowUp(Elements(t.resolved), notes);
    if nowUp == {} && t.state.devicesUp - nowUp == {} then End(Settled(devices, t, nowUp), true, since)
    else
      var s := AfterAll(t.state, w.reporting);
      if !w.reported then End(s, false, since + w.reporting)
      else End(Settled(devices, t.(state := s), nowUp), true, since + w.reporting)
  }

  function Apply(devices: set<Device>, t: Tally, w: World, since: seq<Event>): End {
    var s := AfterAll(t.state, w.applying);
    if w.notes.None? || !w.saved then End(s, false, since + w.applying)
    else Report(devices, t.(state := s), w.notes.value, w, since + w.applying)
  }

  function Group(devices: set<Device>, t: Tally, w: World, since: seq<Event>): End {
    if t.resolved == [] then Apply(devices, t, w, since)
    else
      var s := AfterAll(t.state, w.grouping);
      if !w.groups then End(s, false, since + w.grouping)
      else Apply(devices, t.(state := s), w, since + w.grouping)
  }

  /** From the snapshot on; s holds the candidates it is of. */
  function Ask(s: State, w: World): End {
    if s.candidates == {} then Group({}, Tally(s, [], {}), w, [])
    else
      var s' := AfterAll(s, w.asking);
      if w.reply.None? then End(s', false, w.asking)
      else Group(s.candidates, TakeAll(Tally(s', [], {}), Answers(w.reply.value)), w, w.asking)
  }

  /** The state a pass takes its snapshot in, when the scan succeeds. */
  function Scanned(s: State, w: World): State
    requires w.found.Some?
  {
    var s' := AfterAll(s, w.scanning);
    s'.(candidates := s'.candidates + w.found.value)
  }

  function Sync(s: State, w: World): End {
    if w.found.None? then End(AfterAll(s, w.scanning), false, []) else Ask(Scanned(s, w), w)
  }

  /** A pass as the main loop runs it: the flag is lowered first, and raised again on failure. */
  function Pass(s: State, w: World): State {
    var end := Sync(s.(dirty := false), w);
    if end.ok then end.state.(failures := 0) else end.state.(dirty := true, failures := end.state.failures + 1)
  }

  function Min(a: nat, b: nat): nat {
    if a <= b then a else b
  }

  function PowerOfTwo(n: nat): nat {
    if n == 0 then 1 else 2 * PowerOfTwo(n - 1)
  }

  /** Seconds to wait after a failed pass. */
  function Delay(failures: nat): nat {
    Min(30, PowerOfTwo(Min(failures, 5)))
  }

  // ------------------------------------------------------ events, one device at a time

  /** d is announced, and not deleted after its last announcement. */
  ghost predicate Live(events: seq<Event>, d: Device) {
    exists j :: 0 <= j < |events| && Announces(events[j], d) && forall l :: j < l < |events| ==> !Deletes(events[l], d)
  }

  ghost predicate NeverDeleted(events: seq<Event>, d: Device) {
    forall l :: 0 <= l < |events| ==> !Deletes(events[l], d)
  }

  lemma LiveLast(events: seq<Event>, d: Device)
    requires events != []
    ensures var rest, last := events[..|events| - 1], events[|events| - 1];
            && (Live(events, d) <==> Announces(last, d) || (Live(rest, d) && !Deletes(last, d)))
            && (NeverDeleted(events, d) <==> NeverDeleted(rest, d) && !Deletes(last, d))
  {
    hide Announces, Deletes;
    var n, rest, last := |events| - 1, events[..|events| - 1], events[|events| - 1];
    if Live(events, d) && !Announces(last, d) {
      var j :| 0 <= j < |events| && Announces(events[j], d) && forall l :: j < l < |events| ==> !Deletes(events[l], d);
      assert Announces(rest[j], d);
    }
    if Live(rest, d) && !Deletes(last, d) {
      var j :| 0 <= j < n && Announces(rest[j], d) && forall l :: j < l < n ==> !Deletes(rest[l], d);
      assert Announces(events[j], d);
    }
    if Announces(last, d) {
      assert Announces(events[n], d);
    }
    if NeverDeleted(events, d) {
      forall l | 0 <= l < n ensures !Deletes(rest[l], d) {
        assert !Deletes(events[l], d);
      }
    }
  }

  /** What a run of handlers does to one device, and to the flag. */
  lemma {:induction false} AfterAllIs(s: State, events: seq<Event>, d: Device)
    ensures var s' := AfterAll(s, events);
            && (d in s'.candidates <==> Live(events, d) || (d in s.candidates && NeverDeleted(events, d)))
            && (s'.dirty <==> s.dirty || events != [])
            && s'.devicesUp == s.devicesUp && s'.failures == s.failures
  {
    if events != [] {
      LiveLast(events, d);
      AfterAllIs(s, events[..|events| - 1], d);
    }
  }

  lemma LiveConcat(a: seq<Event>, b: seq<Event>, d: Device)
    ensures Live(a + b, d) <==> Live(b, d) || (Live(a, d) && NeverDeleted(b, d))
    decreases |b|
  {
    hide Announces, Deletes;
    if b == [] {
      assert a + b == a;
    } else {
      var c := a + b;
      assert c[..|c| - 1] == a + b[..|b| - 1] && c[|c| - 1] == b[|b| - 1];
      LiveLast(c, d);
      LiveLast(b, d);
      LiveConcat(a, b[..|b| - 1], d);
    }
  }

  // ----------------------------------------------------------- answers in a row

  lemma TakeOne(t: Tally, a: Answer)
    ensures TakeAll(t, [a]) == Take(t, a)
  {
    var one := [a];
    assert one[..0] == [] && TakeAll(t, one[..0]) == t;
  }

  lemma {:induction false} TakeConcat(t: Tally, a: seq<Answer>, b: seq<Answer>)
    ensures TakeAll(t, a + b) == TakeAll(TakeAll(t, a), b)
  {
    if b == [] {
      assert a + b == a;
    } else {
      var c := a + b;
      assert c[..|c| - 1] == a + b[..|b| - 1] && c[|c| - 1] == b[|b| - 1];
      TakeConcat(t, a, b[..|b| - 1]);
    }
  }

  // ------------------------------------------------------- no lost announcement

  /** The reply speaks of queried devices only. */
  ghost predicate OnlyAsked(answers: seq<Answer>, devices: set<Device>) {
    forall i :: 0 <= i < |answers| ==> answers[i].device in devices
  }

  lemma {:induction false} UnaskedIsKept(t: Tally, answers: seq<Answer>, d: Device)
    requires forall i :: 0 <= i < |answers| ==> answers[i].device != d
    ensures var t' := TakeAll(t, answers);
            && (d in t'.state.candidates <==> d in t.state.candidates)
            && (d in t'.state.misses <==> d in t.state.misses) && CountOf(t'.state, d) == CountOf(t.state, d)
            && (d in t'.resolved <==> d in t.resolved) && (d in t'.pending <==> d in t.pending)
  {
    if answers != [] {
      UnaskedIsKept(t, answers[..|answers| - 1], d);
    }
  }

  lemma {:induction false} TakeAllKeepsFlag(t: Tally, answers: seq<Answer>)
    ensures TakeAll(t, answers).state.dirty == t.state.dirty
    ensures TakeAll(t, answers).state.devicesUp == t.state.devicesUp
    ensures TakeAll(t, answers).state.failures == t.state.failures
  {
    if answers != [] {
      TakeAllKeepsFlag(t, answers[..|answers| - 1]);
    }
  }

  /** d, if it is live in what was handled since the snapshot, is a candidate and the flag is up. */
  ghost predicate Heard(s: State, since: seq<Event>, d: Device) {
    Live(since, d) ==> d in s.candidates && s.dirty
  }

  lemma HearMore(s: State, since: seq<Event>, more: seq<Event>, d: Device)
    requires Heard(s, since, d)
    ensures Heard(AfterAll(s, more), since + more, d)
  {
    AfterAllIs(s, more, d);
    LiveConcat(since, more, d);
    if Live(more, d) {
      assert more != [];
    }
  }

  lemma ReportHears(devices: set<Device>, t: Tally, notes: seq<Note>, w: World, since: seq<Event>, d: Device)
    requires Heard(t.state, since, d) && d !in devices
    ensures var end := Report(devices, t, notes, w, since); Heard(end.state, end.since, d)
  {
    HearMore(t.state, since, w.reporting, d);
  }

  lemma ApplyHears(devices: set<Device>, t: Tally, w: World, since: seq<Event>, d: Device)
    requires Heard(t.state, since, d) && d !in devices
    ensures var end := Apply(devices, t, w, since); Heard(end.state, end.since, d)
  {
    HearMore(t.state, since, w.applying, d);
    if w.notes.Some? {
      ReportHears(devices, t.(state := AfterAll(t.state, w.applying)), w.notes.value, w, since + w.applying, d);
    }
  }

  lemma GroupHears(devices: set<Device>, t: Tally, w: World, since: seq<Event>, d: Device)
    requires Heard(t.state, since, d) && d !in devices
    ensures var end := Group(devices, t, w, since); Heard(end.state, end.since, d)
  {
    HearMore(t.state, since, w.grouping, d);
    ApplyHears(devices, t, w, since, d);
    ApplyHears(devices, t.(state := AfterAll(t.state, w.grouping)), w, since + w.grouping, d);
  }

  lemma AskHears(s: State, w: World, d: Device)
    requires d !in s.candidates && (w.reply.Some? ==> OnlyAsked(Answers(w.reply.value), s.candidates))
    ensures var end := Ask(s, w); Heard(end.state, end.since, d)
  {
    if s.candidates == {} {
      GroupHears({}, Tally(s, [], {}), w, [], d);
    } else {
      HearMore(s, [], w.asking, d);
      assert [] + w.asking == w.asking;
      if w.reply.Some? {
        var t := Tally(AfterAll(s, w.asking), [], {});
        UnaskedIsKept(t, Answers(w.reply.value), d);
        TakeAllKeepsFlag(t, Answers(w.reply.value));
        GroupHears(s.candidates, TakeAll(t, Answers(w.reply.value)), w, w.asking, d);
      }
    }
  }

  /** No lost announcement: however the handlers interleave with a pass, and whether it succeeds
      or fails anywhere, a port that was not in its snapshot, is announced after it and not
      deleted since is a candidate when the pass ends, and another pass is due. */
  lemma NoLostAnnouncement(s: State, w: World, d: Device)
    requires w.found.Some? && d !in Scanned(s.(dirty := false), w).candidates
    requires w.reply.Some? ==> OnlyAsked(Answers(w.reply.value), Scanned(s.(dirty := false), w).candidates)
    requires Live(Sync(s.(dirty := false), w).since, d)
    ensures d in Pass(s, w).candidates && Pass(s, w).dirty
  {
    AskHears(Scanned(s.(dirty := false), w), w, d);
  }

  // ------------------------------------------------------------- devices up

  /** A pass that succeeds ends with the resolved devices that do not wait as the ones up; a
      pass that fails changes none, so the next one reports again. */
  ghost predicate UpAs(s: State, t: Tally, end: End, w: World) {
    if end.ok then w.notes.Some? && end.state.devicesUp == NowUp(Elements(t.resolved), w.notes.value)
    else end.state.devicesUp == s.devicesUp
  }

  lemma EventsKeepUp(s: State, events: seq<Event>)
    ensures AfterAll(s, events).devicesUp == s.devicesUp && AfterAll(s, events).failures == s.failures
  {
    AfterAllIs(s, events, "");
  }

  lemma GroupUp(devices: set<Device>, t: Tally, w: World, since: seq<Event>)
    ensures UpAs(t.state, t, Group(devices, t, w, since), w)
    ensures Group(devices, t, w, since).state.failures == t.state.failures
  {
    EventsKeepUp(t.state, w.grouping);
    var s1 := AfterAll(t.state, w.grouping);
    EventsKeepUp(t.state, w.applying);
    EventsKeepUp(s1, w.applying);
    EventsKeepUp(AfterAll(t.state, w.applying), w.reporting);
    EventsKeepUp(AfterAll(s1, w.applying), w.reporting);
  }

  /** What a whole pass leaves up, and how many passes in a row have failed. */
  lemma UpIsWhatWasReported(s: State, w: World)
    ensures var end, s' := Sync(s.(dirty := false), w), Pass(s, w);
            && s'.devicesUp == end.state.devicesUp
            && (!end.ok ==> s'.devicesUp == s.devicesUp && s'.dirty && s'.failures == s.failures + 1)
            && (end.ok ==> s'.failures == 0 && w.notes.Some?)
            && (end.ok && w.reply.Some? && Scanned(s, w).candidates != {} ==>
                  forall d :: d in s'.devicesUp <==>
                                Resolved(d) in Answers(w.reply.value) && d in NowUp({d}, w.notes.value))
  {
    EventsKeepUp(s.(dirty := false), w.scanning);
    if w.found.Some? {
      var s1 := Scanned(s.(dirty := false), w);
      ScanIgnoresFlag(s, w);
      EventsKeepUp(s1, w.asking);
      if s1.candidates == {} {
        GroupUp({}, Tally(s1, [], {}), w, []);
      } else if w.reply.Some? {
        var t := Tally(AfterAll(s1, w.asking), [], {});
        TakeAllKeepsFlag(t, Answers(w.reply.value));
        GroupUp(s1.candidates, TakeAll(t, Answers(w.reply.value)), w, w.asking);
        forall d ensures d in TakeAll(t, Answers(w.reply.value)).resolved <==> Resolved(d) in Answers(w.reply.value) {
          ResolvedIs(t, Answers(w.reply.value), d);
        }
      }
    }
  }

  lemma {:induction false} ScanEvents(s: State, events: seq<Event>)
    ensures AfterAll(s.(dirty := false), events).candidates == AfterAll(s, events).candidates
  {
    if events != [] {
      ScanEvents(s, events[..|events| - 1]);
    }
  }

  lemma ScanIgnoresFlag(s: State, w: World)
    requires w.found.Some?
    ensures Scanned(s.(dirty := false), w).candidates == Scanned(s, w).candidates
  {
    ScanEvents(s, w.scanning);
  }

  lemma {:induction false} ResolvedIs(t: Tally, answers: seq<Answer>, d: Device)
    ensures d in TakeAll(t, answers).resolved <==> d in t.resolved || Resolved(d) in answers
  {
    if answers != [] {
      ResolvedIs(t, answers[..|answers| - 1], d);
      assert answers == answers[..|answers| - 1] + [answers[|answers| - 1]];
    }
  }

  // ----------------------------------------------------------------- backing off

  lemma {:induction false} PowersGrow(m: nat, n: nat)
    requires m <= n
    ensures PowerOfTwo(m) <= PowerOfTwo(n)
  {
    if m < n {
      PowersGrow(m, n - 1);
    }
  }

  /** The wait never shrinks while passes fail: it doubles from two seconds, and stops at thirty. */
  lemma BackoffGrows(m: nat, n: nat)
    requires 1 <= m <= n
    ensures 2 <= Delay(m) <= Delay(n) <= 30
    ensures Delay(1) == 2 && Delay(2) == 4 && Delay(3) == 8 && Delay(4) == 16
    ensures m >= 5 ==> Delay(m) == 30
  {
    PowersGrow(Min(m, 5), Min(n, 5));
    PowersGrow(1, Min(m, 5));
    assert PowerOfTwo(1) == 2 && PowerOfTwo(2) == 4 && PowerOfTwo(3) == 8 && PowerOfTwo(4) == 16 && PowerOfTwo(5) == 32;
  }
}
