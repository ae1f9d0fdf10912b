/**
 What a details reply does to a device, said of the reply's own fields: an entry with a port id
 resolves it; an entry without one that names it, or a place among the failed, is a miss.
 */
module Replies {
  import opened Collections
  import opened Planner
  import opened Reporting
  import opened Candidates
  import opened Retries

  /** The entry speaks of d: under its port id, or, without one, as the device asked about. */
  predicate Names(e: Entry, d: Device) {
    if e.portId != "" then e.portId == d else e.device == Some(d)
  }

  predicate NoneNames(entries: seq<Entry>, d: Device) {
    forall i :: 0 <= i < |entries| ==> !Names(entries[i], d)
  }

  /** The reply has one entry that names d, with a port id or without. */
  ghost predicate EntryOnce(r: Reply, d: Device, withId: bool) {
    d !in r.failed && exists i :: 0 <= i < |r.entries| && Names(r.entries[i], d) && (r.entries[i].portId != "") == withId
                                  && NoneNames(r.entries[..i], d) && NoneNames(r.entries[i + 1..], d)
  }

  ghost predicate FailedOnce(r: Reply, d: Device) {
    NoneNames(r.entries, d) && exists i :: 0 <= i < |r.failed| && r.failed[i] == d && d !in r.failed[..i] && d !in r.failed[i + 1..]
  }

  /** The reply resolves d, and says nothing else of it. */
  ghost predicate Resolves(r: Reply, d: Device) {
    EntryOnce(r, d, true)
  }

  /** The reply tells, once, that d cannot be resolved: a bind still in flight, or a failure. */
  ghost predicate Misses(r: Reply, d: Device) {
    EntryOnce(r, d, false) || FailedOnce(r, d)
  }

  // ------------------------------------------------------------------ answers

  lemma {:induction false} EntriesConcat(a: seq<Entry>, b: seq<Entry>)
    ensures EntryAnswers(a + b) == EntryAnswers(a) + EntryAnswers(b)
  {
    if b == [] {
      assert a + b == a;
    } else {
      assert (a + b)[..|a + b| - 1] == a + b[..|b| - 1];
      EntriesConcat(a, b[..|b| - 1]);
    }
  }

  lemma {:induction false} FailedConcat(a: seq<Device>, b: seq<Device>)
    ensures FailedAnswers(a + b) == FailedAnswers(a) + FailedAnswers(b)
  {
    if b == [] {
      assert a + b == a;
    } else {
      assert (a + b)[..|a + b| - 1] == a + b[..|b| - 1];
      FailedConcat(a, b[..|b| - 1]);
    }
  }

  ghost predicate SilentOn(answers: seq<Answer>, d: Device) {
    forall i :: 0 <= i < |answers| ==> answers[i].device != d
  }

  lemma {:induction false} EntriesSilent(entries: seq<Entry>, d: Device)
    requires NoneNames(entries, d)
    ensures SilentOn(EntryAnswers(entries), d)
  {
    if entries != [] {
      EntriesSilent(entries[..|entries| - 1], d);
    }
  }

  lemma {:induction false} FailedSilent(failed: seq<Device>, d: Device)
    requires d !in failed
    ensures SilentOn(FailedAnswers(failed), d)
  {
    if failed != [] {
      FailedSilent(failed[..|failed| - 1], d);
    }
  }

  /** One answer for d among others leaves d as that answer does. */
  lemma OneAmong(t: Tally, before: seq<Answer>, a: Answer, after: seq<Answer>)
    requires SilentOn(before, a.device) && SilentOn(after, a.device)
    ensures var t', d := TakeAll(t, before + [a] + after), a.device;
            var count := CountOf(t.state, d) + 1;
            if a.Resolved? then
              d in t'.resolved && CountOf(t'.state, d) == 0 && (d in t'.state.candidates <==> d in t.state.candidates)
            else if count < BINDING_MISS_LIMIT then
              d in t'.pending && CountOf(t'.state, d) == count && (d in t'.state.candidates <==> d in t.state.candidates)
            else
              d !in t'.state.candidates && CountOf(t'.state, d) == 0
  {
    TakeConcat(t, before + [a], after);
    TakeConcat(t, before, [a]);
    TakeOne(TakeAll(t, before), a);
    UnaskedIsKept(t, before, a.device);
    UnaskedIsKept(Take(TakeAll(t, before), a), after, a.device);
    hide TakeAll;
  }

  lemma SilentConcat(a: seq<Answer>, b: seq<Answer>, d: Device)
    requires SilentOn(a, d) && SilentOn(b, d)
    ensures SilentOn(a + b, d)
  {
  }

  lemma FailedAround(r: Reply, d: Device) returns (before: seq<Answer>, after: seq<Answer>)
    requires FailedOnce(r, d)
    ensures Answers(r) == before + [Missed(d)] + after && SilentOn(before, d) && SilentOn(after, d)
  {
    var a, b := TheFailed(r, d);
    hide SilentOn, EntryAnswers, FailedAnswers, NoneNames, FailedOnce;
    EntriesSilent(r.entries, d);
    FailedSilent(a, d);
    FailedSilent(b, d);
    FailedConcat(a + [d], b);
    FailedConcat(a, [d]);
    FailedOne(d);
    SilentConcat(EntryAnswers(r.entries), FailedAnswers(a), d);
    before, after := EntryAnswers(r.entries) + FailedAnswers(a), FailedAnswers(b);
    Regroup(EntryAnswers(r.entries), FailedAnswers(a), [Missed(d)], FailedAnswers(b));
  }

  lemma TheFailed(r: Reply, d: Device) returns (a: seq<Device>, b: seq<Device>)
    requires FailedOnce(r, d)
    ensures r.failed == a + [d] + b && d !in a && d !in b && NoneNames(r.entries, d)
  {
    var i :| 0 <= i < |r.failed| && r.failed[i] == d && d !in r.failed[..i] && d !in r.failed[i + 1..];
    a, b := r.failed[..i], r.failed[i + 1..];
  }

  lemma Regroup<T>(a: seq<T>, b: seq<T>, c: seq<T>, d: seq<T>)
    ensures a + (b + c + d) == (a + b) + c + d
  {
  }

  lemma EntryAround(r: Reply, d: Device) returns (before: seq<Answer>, a: Answer, after: seq<Answer>)
    requires EntryOnce(r, d, true) || EntryOnce(r, d, false)
    ensures Answers(r) == before + [a] + after && SilentOn(before, d) && SilentOn(after, d)
    ensures a == if EntryOnce(r, d, true) then Resolved(d) else Missed(d)
  {
    hide SilentOn, EntryAnswers, FailedAnswers, NoneNames, EntryOnce, Names;
    var i := TheEntry(r, d);
    var e, f := r.entries[..i], r.entries[i + 1..];
    assert r.entries == e + [r.entries[i]] + f;
    EntriesSilent(e, d);
    EntriesSilent(f, d);
    FailedSilent(r.failed, d);
    EntriesConcat(e + [r.entries[i]], f);
    EntriesConcat(e, [r.entries[i]]);
    EntryOne(r.entries[i], d);
    SilentConcat(EntryAnswers(f), FailedAnswers(r.failed), d);
    a := if r.entries[i].portId != "" then Resolved(d) else Missed(d);
    before, after := EntryAnswers(e), EntryAnswers(f) + FailedAnswers(r.failed);
    assert Answers(r) == (EntryAnswers(e) + [a] + EntryAnswers(f)) + FailedAnswers(r.failed);
  }

  /** The answers of a reply that speaks of d once. */
  lemma AnswersAround(r: Reply, d: Device) returns (before: seq<Answer>, a: Answer, after: seq<Answer>)
    requires Resolves(r, d) || Misses(r, d)
    ensures Answers(r) == before + [a] + after && SilentOn(before, d) && SilentOn(after, d)
    ensures a == if Resolves(r, d) then Resolved(d) else Missed(d)
  {
    NotBoth(r, d);
    hide SilentOn, Answers, EntryOnce, FailedOnce;
    if FailedOnce(r, d) {
      before, after := FailedAround(r, d);
      a := Missed(d);
    } else {
      before, a, after := EntryAround(r, d);
    }
  }

  lemma TheEntry(r: Reply, d: Device) returns (i: nat)
    requires EntryOnce(r, d, true) || EntryOnce(r, d, false)
    ensures i < |r.entries| && Names(r.entries[i], d) && NoneNames(r.entries[..i], d) && NoneNames(r.entries[i + 1..], d) && d !in r.failed
    ensures EntryOnce(r, d, true) <==> r.entries[i].portId != ""
  {
    var withId := EntryOnce(r, d, true);
    i :| 0 <= i < |r.entries| && Names(r.entries[i], d) && (r.entries[i].portId != "") == withId
         && NoneNames(r.entries[..i], d) && NoneNames(r.entries[i + 1..], d);
  }

  lemma FailedOne(d: Device)
    ensures FailedAnswers([d]) == [Missed(d)]
  {
    assert [d][..0] == [];
  }

  lemma EntryOne(e: Entry, d: Device)
    requires Names(e, d)
    ensures EntryAnswers([e]) == [if e.portId != "" then Resolved(d) else Missed(d)]
  {
    assert [e][..0] == [];
  }

  /** What the reply does to a device it speaks of once. */
  lemma ReplyTells(t: Tally, r: Reply, d: Device)
    ensures var t', count := TakeAll(t, Answers(r)), CountOf(t.state, d) + 1;
            && (Resolves(r, d) ==>
                  d in t'.resolved && CountOf(t'.state, d) == 0 && (d in t'.state.candidates <==> d in t.state.candidates))
            && (Misses(r, d) && count < BINDING_MISS_LIMIT ==>
                  d in t'.pending && CountOf(t'.state, d) == count && (d in t'.state.candidates <==> d in t.state.candidates))
            && (Misses(r, d) && count >= BINDING_MISS_LIMIT ==> d !in t'.state.candidates && CountOf(t'.state, d) == 0)
  {
    hide TakeAll, Answers, CountOf;
    if Resolves(r, d) || Misses(r, d) {
      var before, a, after := AnswersAround(r, d);
      OneAmong(t, before, a, after);
      NotBoth(r, d);
    }
  }

  lemma NotBoth(r: Reply, d: Device)
    ensures !(Resolves(r, d) && Misses(r, d))
  {
    if EntryOnce(r, d, true) && EntryOnce(r, d, false) {
      var i := TheEntry(r, d);
      forall j | 0 <= j < |r.entries| && j != i ensures !Names(r.entries[j], d) {
        if j < i {
          assert r.entries[..i][j] == r.entries[j];
        } else {
          assert r.entries[i + 1..][j - i - 1] == r.entries[j];
        }
      }
    }
    if EntryOnce(r, d, true) && FailedOnce(r, d) {
      var i := TheEntry(r, d);
    }
  }

  /** The reply speaks of every queried device once, and of no other. */
  ghost predicate SpeaksOnce(r: Reply, devices: set<Device>) {
    forall d :: if d in devices then Resolves(r, d) || Misses(r, d) else NoneNames(r.entries, d) && d !in r.failed
  }

  lemma OneAnswer(r: Reply, d: Device) returns (j: nat)
    requires Resolves(r, d) || Misses(r, d)
    ensures j < |Answers(r)| && Answers(r)[j] == (if Resolves(r, d) then Resolved(d) else Missed(d))
    ensures forall i :: 0 <= i < |Answers(r)| && Answers(r)[i].device == d ==> i == j
  {
    hide Answers, Resolves, Misses;
    var before, a, after := AnswersAround(r, d);
    j := |before|;
    var answers := Answers(r);
    forall i | 0 <= i < |answers| && i != j ensures answers[i].device != d {
      if i < j {
        assert answers[i] == before[i];
      } else {
        assert answers[i] == after[i - j - 1];
      }
    }
  }

  lemma NoAnswer(r: Reply, d: Device)
    requires NoneNames(r.entries, d) && d !in r.failed
    ensures SilentOn(Answers(r), d)
  {
    EntriesSilent(r.entries, d);
    FailedSilent(r.failed, d);
    SilentConcat(EntryAnswers(r.entries), FailedAnswers(r.failed), d);
  }

  /** Such a reply answers each device once, as the counting theorems ask; and misses are misses. */
  lemma SpeakingOnceAnswersOnce(r: Reply, devices: set<Device>)
    requires SpeaksOnce(r, devices)
    ensures AnsweredOnce(Answers(r), devices)
    ensures forall d :: d in devices ==> (Missed(d) in Answers(r) <==> Misses(r, d))
  {
    var answers := Answers(r);
    hide Answers, Resolves, Misses, NoneNames;
    forall d ensures d in devices <==> Answered(answers, d) {
      if d in devices {
        var j := OneAnswer(r, d);
      } else {
        NoAnswer(r, d);
      }
    }
    forall i, j | 0 <= i < j < |answers| ensures answers[i].device != answers[j].device {
      assert Answered(answers, answers[j].device);
      var l := OneAnswer(r, answers[j].device);
    }
    forall d | d in devices ensures Missed(d) in answers <==> Misses(r, d) {
      var j := OneAnswer(r, d);
      NotBoth(r, d);
    }
  }

  // ----------------------------------------------------------------- the pass

  lemma SettledKeeps(devices: set<Device>, t: Tally, w: World, since: seq<Event>, d: Device)
    requires Group(devices, t, w, since).ok && (d in t.resolved || d in t.pending)
    ensures d in Group(devices, t, w, since).state.candidates
  {
  }

  /** However the pass is interrupted, if it succeeds a device it asked about is a candidate still when the
      reply resolves it, or misses it short of the limit. */
  lemma AnsweredStays(s: State, w: World, d: Device)
    requires d in s.candidates && w.reply.Some? && Ask(s, w).ok
    requires Resolves(w.reply.value, d) || (Misses(w.reply.value, d) && CountOf(AfterAll(s, w.asking), d) + 1 < BINDING_MISS_LIMIT)
    ensures d in Ask(s, w).state.candidates
  {
    var t := Tally(AfterAll(s, w.asking), [], {});
    ReplyTells(t, w.reply.value, d);
    hide TakeAll, Answers, Group, Resolves, Misses;
    SettledKeeps(s.candidates, TakeAll(t, Answers(w.reply.value)), w, w.asking, d);
  }

  /** In an undisturbed pass that succeeds, a miss raises the device's count by one, and keeps the flag up
      during its first ten; at the limit the device is dropped. */
  lemma MissIsCounted(s: State, w: World, d: Device)
    requires Calm(w) && d in s.candidates && w.reply.Some? && Ask(s, w).ok && Misses(w.reply.value, d)
    ensures var s', count := Ask(s, w).state, CountOf(s, d) + 1;
            && (count < BINDING_MISS_LIMIT ==> d in s'.candidates && CountOf(s', d) == count && (count <= FAST_RETRY_MISSES ==> s'.dirty))
            && (count >= BINDING_MISS_LIMIT ==> CountOf(s', d) == 0)
  {
    ReplyTells(Tally(s, [], {}), w.reply.value, d);
    CalmAsk(s, w);
    hide TakeAll, Answers, NowUp, Misses, Ask, Calm;
  }

  /** However the pass is interrupted, if it succeeds a device it asked about and the reply does not speak of
      is no candidate any more. */
  lemma UnmentionedGoes(s: State, w: World, d: Device)
    requires d in s.candidates && w.reply.Some? && Ask(s, w).ok
    requires NoneNames(w.reply.value.entries, d) && d !in w.reply.value.failed
    ensures d !in Ask(s, w).state.candidates
  {
    var t, answers := Tally(AfterAll(s, w.asking), [], {}), Answers(w.reply.value);
    NoAnswer(w.reply.value, d);
    UnaskedIsKept(t, answers, d);
    var t' := TakeAll(t, answers);
    hide TakeAll, Answers, NoneNames;
    assert d !in t'.resolved && d !in t'.pending;
    SilentGoes(s.candidates, t', w, w.asking, d);
  }

  lemma SilentGoes(devices: set<Device>, t: Tally, w: World, since: seq<Event>, d: Device)
    requires d in devices && d !in t.resolved && d !in t.pending && Group(devices, t, w, since).ok
    ensures d !in Group(devices, t, w, since).state.candidates
  {
    assert w.notes.Some?;
    var nowUp := NowUp(Elements(t.resolved), w.notes.value);
    assert d !in nowUp;
  }

  // -------------------------------------------------------- what a pass needs

  /** The reply has d's details. */
  ghost predicate HasDetails(r: Reply, d: Device) {
    d != "" && exists i :: 0 <= i < |r.entries| && r.entries[i].portId == d
  }

  lemma {:induction false} EntryHas(entries: seq<Entry>, d: Device)
    ensures Resolved(d) in EntryAnswers(entries) <==> d != "" && exists i :: 0 <= i < |entries| && entries[i].portId == d
  {
    if entries != [] {
      var rest, last := entries[..|entries| - 1], entries[|entries| - 1];
      EntryHas(rest, d);
      assert Resolved(d) in AnswerOf(last) <==> d != "" && last.portId == d;
      if i :| 0 <= i < |rest| && rest[i].portId == d {
        assert entries[i] == rest[i];
      }
      if i :| 0 <= i < |entries| && entries[i].portId == d {
        assert i < |rest| ==> rest[i] == entries[i];
      }
    }
  }

  lemma {:induction false} FailedHasNone(failed: seq<Device>, d: Device)
    ensures Resolved(d) !in FailedAnswers(failed)
  {
    if failed != [] {
      FailedHasNone(failed[..|failed| - 1], d);
    }
  }

  lemma ResolvedHasDetails(t: Tally, r: Reply, d: Device)
    requires t.resolved == []
    ensures d in TakeAll(t, Answers(r)).resolved <==> HasDetails(r, d)
  {
    hide TakeAll;
    EntryHas(r.entries, d);
    FailedHasNone(r.failed, d);
    ResolvedIs(t, Answers(r), d);
  }

  /** The pass asks, and is told d's details. */
  ghost predicate Told(s: State, w: World, d: Device) {
    w.found.Some? && Scanned(s, w).candidates != {} && w.reply.Some? && HasDetails(w.reply.value, d)
  }

  /** A pass succeeds exactly when no call it makes raises: it asks for details when it has candidates, for
      groups when it got details, and reports when a device is up or one was. */
  lemma SucceedsExactly(s: State, w: World)
    ensures Sync(s, w).ok <==>
              && w.found.Some? && (Scanned(s, w).candidates == {} || w.reply.Some?)
              && ((exists d :: Told(s, w, d)) ==> w.groups)
              && w.notes.Some? && w.saved
              && (s.devicesUp != {} || (exists d :: Told(s, w, d) && d in NowUp({d}, w.notes.value)) ==> w.reported)
  {
    EventsKeepUp(s, w.scanning);
    if w.found.Some? {
      var s1 := Scanned(s, w);
      if s1.candidates == {} {
        GroupSucceeds({}, Tally(s1, [], {}), w, []);
      } else if w.reply.Some? {
        EventsKeepUp(s1, w.asking);
        var t := Tally(AfterAll(s1, w.asking), [], {});
        forall d ensures d in TakeAll(t, Answers(w.reply.value)).resolved <==> Told(s, w, d) {
          ResolvedHasDetails(t, w.reply.value, d);
        }
        TakeAllKeepsFlag(t, Answers(w.reply.value));
        GroupSucceeds(s1.candidates, TakeAll(t, Answers(w.reply.value)), w, w.asking);
      }
    }
    hide Group, TakeAll, Answers, HasDetails, NowUp;
  }

  lemma GroupSucceeds(devices: set<Device>, t: Tally, w: World, since: seq<Event>)
    ensures Group(devices, t, w, since).ok <==>
              && ((exists d :: d in t.resolved) ==> w.groups) && w.notes.Some? && w.saved
              && (t.state.devicesUp != {} || (exists d :: d in t.resolved && d in NowUp({d}, w.notes.value)) ==> w.reported)
  {
    EventsKeepUp(t.state, w.grouping);
    EventsKeepUp(t.state, w.applying);
    EventsKeepUp(AfterAll(t.state, w.grouping), w.applying);
    assert t.resolved != [] ==> t.resolved[0] in t.resolved;
    if w.notes.Some? {
      UpOneByOne(t.resolved, w.notes.value);
    }
    hide NowUp, Settled;
  }

  lemma UpOneByOne(resolved: seq<Device>, notes: seq<Note>)
    ensures NowUp(Elements(resolved), notes) != {} <==> exists d :: d in resolved && d in NowUp({d}, notes)
  {
    if d :| d in NowUp(Elements(resolved), notes) {
      assert d in resolved && d in NowUp({d}, notes);
    }
    if d :| d in resolved && d in NowUp({d}, notes) {
      assert d in NowUp(Elements(resolved), notes);
    }
  }

  /** A bind still in flight: the port stays a candidate with one miss and the flag up. */
  lemma BindInFlight()
    ensures var s := State({"d"}, map[], {}, false, 0);
            var w := World([], Some({}), [], Some(Reply([Entry("", Some("d"))], [])), [], true, [], Some([]), true, [], true);
            var s' := Pass(s, w);
            s'.candidates == {"d"} && s'.misses == map["d" := 1] && s'.dirty
  {
    var entries := [Entry("", Some("d"))];
    assert entries[..0] == [] && EntryAnswers(entries[..0]) == [];
    assert EntryAnswers(entries) == [Missed("d")];
    var answers := Answers(Reply(entries, []));
    assert answers == [Missed("d")];
    assert answers[..0] == [];
    var t := Tally(State({"d"}, map[], {}, false, 0), [], {});
    assert TakeAll(t, answers[..0]) == t;
    assert TakeAll(t, answers) == Take(t, Missed("d"));
  }
}
