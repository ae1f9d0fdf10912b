/**
 Bounded retries: how often the agent asks about a device it cannot resolve, when it stops,
 and when a deleted port comes back.
 */
module Retries {
  import opened Collections
  import opened Reporting
  import opened Candidates

  // ------------------------------------------------------------ a whole reply

  /** No device is answered twice. */
  ghost predicate Once(answers: seq<Answer>) {
    forall i, j :: 0 <= i < j < |answers| ==> answers[i].device != answers[j].device
  }

  ghost predicate Answered(answers: seq<Answer>, d: Device) {
    exists i :: 0 <= i < |answers| && answers[i].device == d
  }

  /** Every queried device is answered once, and no other. */
  ghost predicate AnsweredOnce(answers: seq<Answer>, devices: set<Device>) {
    Once(answers) && forall d :: d in devices <==> Answered(answers, d)
  }

  /** What a reply that answers d once does to it. */
  lemma {:induction false} TakeAllAt(t: Tally, answers: seq<Answer>, j: nat)
    requires Once(answers) && j < |answers|
    ensures var t', d := TakeAll(t, answers), answers[j].device;
            var count := CountOf(t.state, d) + 1;
            if answers[j].Resolved? then
              && d in t'.resolved && (d in t'.pending <==> d in t.pending)
              && d !in t'.state.misses && (d in t'.state.candidates <==> d in t.state.candidates)
            else if count >= BINDING_MISS_LIMIT then
              && (d in t'.resolved <==> d in t.resolved) && (d in t'.pending <==> d in t.pending)
              && d !in t'.state.misses && d !in t'.state.candidates
            else
              && (d in t'.resolved <==> d in t.resolved) && d in t'.pending
              && d in t'.state.misses && t'.state.misses[d] == count && (d in t'.state.candidates <==> d in t.state.candidates)
  {
    var rest := answers[..|answers| - 1];
    if j == |answers| - 1 {
      UnaskedIsKept(t, rest, answers[j].device);
    } else {
      TakeAllAt(t, rest, j);
      assert rest[j] == answers[j];
    }
  }

  // --------------------------------------------------------------- calm passes

  /** No handler runs while the pass does. */
  predicate Calm(w: World) {
    w.scanning == [] && w.asking == [] && w.grouping == [] && w.applying == [] && w.reporting == []
  }

  /** The tally a calm pass makes of its snapshot. */
  function CalmTally(s: State, w: World): Tally
    requires w.reply.Some?
  {
    if s.candidates == {} then Tally(s, [], {}) else TakeAll(Tally(s, [], {}), Answers(w.reply.value))
  }

  lemma CalmGroup(devices: set<Device>, t: Tally, w: World)
    requires Calm(w)
    ensures var end := Group(devices, t, w, []);
            if end.ok then w.notes.Some? && end.state == Settled(devices, t, NowUp(Elements(t.resolved), w.notes.value))
            else end.state == t.state
    ensures w.groups && w.notes.Some? && w.saved && w.reported ==> Group(devices, t, w, []).ok
  {
  }

  /** A calm pass ends before the reply, or with its tally, or with the settled tally. */
  lemma CalmAsk(s: State, w: World)
    requires Calm(w)
    ensures var end := Ask(s, w);
            && (w.reply.None? && s.candidates != {} ==> !end.ok && end.state == s)
            && (w.reply.Some? ==>
                  var t := CalmTally(s, w);
                  if end.ok then w.notes.Some? && end.state == Settled(s.candidates, t, NowUp(Elements(t.resolved), w.notes.value))
                  else end.state == t.state)
    ensures w.reply.Some? && w.groups && w.notes.Some? && w.saved && w.reported ==> Ask(s, w).ok
    ensures w.reply.None? && s.candidates == {} ==>
              if Ask(s, w).ok then w.notes.Some? && Ask(s, w).state == Settled({}, Tally(s, [], {}), NowUp({}, w.notes.value))
              else Ask(s, w).state == s
  {
    if s.candidates == {} {
      CalmGroup({}, Tally(s, [], {}), w);
      assert Elements<Device>([]) == {};
    } else if w.reply.Some? {
      CalmGroup(s.candidates, CalmTally(s, w), w);
    }
  }

  /** Where a calm pass leaves one device it asked about once. */
  lemma CalmDevice(s: State, w: World, d: Device)
    requires Calm(w) && w.reply.Some? && AnsweredOnce(Answers(w.reply.value), s.candidates)
    requires d in s.candidates
    ensures var s', count := Ask(s, w).state, CountOf(s, d) + 1;
            if Missed(d) in Answers(w.reply.value) then
              && (d in s'.candidates <==> count < BINDING_MISS_LIMIT)
              && CountOf(s', d) == (if count < BINDING_MISS_LIMIT then count else 0)
              && (d in s'.misses <==> count < BINDING_MISS_LIMIT)
              && (d in CalmTally(s, w).pending <==> count < BINDING_MISS_LIMIT)
            else d in s'.candidates && d !in s'.misses && d !in CalmTally(s, w).pending
  {
    var answers := Answers(w.reply.value);
    CalmAsk(s, w);
    var j :| 0 <= j < |answers| && answers[j].device == d;
    TakeAllAt(Tally(s, [], {}), answers, j);
    OnlyAnswer(answers, j);
    hide Answers, TakeAll, NowUp, Ask, AnsweredOnce;
  }

  lemma OnlyAnswer(answers: seq<Answer>, j: nat)
    requires Once(answers) && j < |answers|
    ensures Missed(answers[j].device) in answers <==> answers[j].Missed?
  {
    if Missed(answers[j].device) in answers {
      var i :| 0 <= i < |answers| && answers[i] == Missed(answers[j].device);
      assert i == j;
    }
  }

  /** A device a calm pass did not ask about stays out. */
  lemma CalmOther(s: State, w: World, d: Device)
    requires Calm(w) && w.reply.Some? && AnsweredOnce(Answers(w.reply.value), s.candidates)
    requires d !in s.candidates
    ensures var s' := Ask(s, w).state;
            d !in s'.candidates && (d in s'.misses <==> d in s.misses) && CountOf(s', d) == CountOf(s, d) && d !in CalmTally(s, w).pending
  {
    var answers := Answers(w.reply.value);
    CalmAsk(s, w);
    forall i | 0 <= i < |answers| ensures answers[i].device != d {
      assert Answered(answers, answers[i].device);
    }
    UnaskedIsKept(Tally(s, [], {}), answers, d);
  }

  // --------------------------------------------------------------- miss counts

  /** Counts run from 1 to 59, on candidates only. */
  ghost predicate GoodCounts(s: State) {
    forall d :: d in s.misses ==> d in s.candidates && 1 <= s.misses[d] < BINDING_MISS_LIMIT
  }

  lemma HandlerKeepsCounts(s: State, e: Event)
    requires GoodCounts(s)
    ensures GoodCounts(After(s, e))
  {
  }

  lemma PassKeepsCounts(s: State, w: World)
    requires GoodCounts(s) && Calm(w)
    requires w.found.Some? && w.reply.Some? ==> AnsweredOnce(Answers(w.reply.value), Scanned(s, w).candidates)
    ensures GoodCounts(Pass(s, w))
  {
    if w.found.Some? {
      var s1 := Scanned(s.(dirty := false), w);
      assert s1.candidates == Scanned(s, w).candidates;
      CalmAsk(s1, w);
      if w.reply.Some? {
        forall d | d in Ask(s1, w).state.misses
          ensures d in Ask(s1, w).state.candidates && 1 <= Ask(s1, w).state.misses[d] < BINDING_MISS_LIMIT
        {
          if d in s1.candidates {
            CalmDevice(s1, w, d);
          } else {
            CalmOther(s1, w, d);
          }
        }
      }
    }
  }

  /** The agent's life with passes that nothing interrupts. */
  datatype Turn = Handler(event: Event) | Round(world: World)

  function AfterTurn(s: State, turn: Turn): State {
    if turn.Handler? then After(s, turn.event) else Pass(s, turn.world)
  }

  function AfterTurns(s: State, turns: seq<Turn>): State {
    if turns == [] then s else AfterTurn(AfterTurns(s, turns[..|turns| - 1]), turns[|turns| - 1])
  }

  /** The pass is uninterrupted, and its reply, if one comes, answers each queried device once. */
  ghost predicate Orderly(s: State, turn: Turn) {
    turn.Round? ==>
      && Calm(turn.world)
      && (turn.world.found.Some? && turn.world.reply.Some? ==>
            AnsweredOnce(Answers(turn.world.reply.value), Scanned(s, turn.world).candidates))
  }

  ghost predicate OrderlyLife(s: State, turns: seq<Turn>) {
    forall i :: 0 <= i < |turns| ==> Orderly(AfterTurns(s, turns[..i]), turns[i])
  }

  lemma OrderlyPrefix(s: State, turns: seq<Turn>)
    requires turns != [] && OrderlyLife(s, turns)
    ensures OrderlyLife(s, turns[..|turns| - 1])
    ensures Orderly(AfterTurns(s, turns[..|turns| - 1]), turns[|turns| - 1])
  {
    var rest := turns[..|turns| - 1];
    forall i | 0 <= i < |rest| ensures Orderly(AfterTurns(s, rest[..i]), rest[i]) {
      assert rest[..i] == turns[..i];
      assert Orderly(AfterTurns(s, turns[..i]), turns[i]);
    }
  }

  /** Counts stay from 1 to 59 and on candidates, over every orderly life. */
  lemma {:induction false} CountsStayGood(s: State, turns: seq<Turn>)
    requires GoodCounts(s) && OrderlyLife(s, turns)
    ensures GoodCounts(AfterTurns(s, turns))
  {
    if turns != [] {
      OrderlyPrefix(s, turns);
      var rest, last := turns[..|turns| - 1], turns[|turns| - 1];
      CountsStayGood(s, rest);
      hide GoodCounts, OrderlyLife, After, Pass, AnsweredOnce;
      if last.Handler? {
        HandlerKeepsCounts(AfterTurns(s, rest), last.event);
      } else {
        PassKeepsCounts(AfterTurns(s, rest), last.world);
      }
    }
  }

  // ----------------------------------------------------------------- giving up

  /** A turn that does not help d: a handler that names another port, or a pass whose scan does
      not find it and whose reply, if it is asked about, does not resolve it. */
  ghost predicate Unhelpful(s: State, turn: Turn, d: Device) {
    match turn
    case Handler(e) => !Announces(e, d) && !Deletes(e, d)
    case Round(w) =>
      && Calm(w) && w.found.Some? && d !in w.found.value && w.reply.Some?
      && AnsweredOnce(Answers(w.reply.value), Scanned(s, w).candidates)
      && (d in s.candidates ==> Missed(d) in Answers(w.reply.value))
  }

  ghost predicate NeverHelped(s: State, turns: seq<Turn>, d: Device) {
    forall i :: 0 <= i < |turns| ==> Unhelpful(AfterTurns(s, turns[..i]), turns[i], d)
  }

  function Rounds(turns: seq<Turn>): nat {
    if turns == [] then 0 else Rounds(turns[..|turns| - 1]) + if turns[|turns| - 1].Round? then 1 else 0
  }

  /** Where d stands after n misses in a row. */
  ghost predicate Missing(s: State, d: Device, n: nat) {
    if n < BINDING_MISS_LIMIT then d in s.candidates && CountOf(s, d) == n
    else d !in s.candidates && d !in s.misses
  }

  lemma UnhelpfulTurn(s: State, turn: Turn, d: Device, n: nat)
    requires Unhelpful(s, turn, d) && Missing(s, d, n)
    ensures Missing(AfterTurn(s, turn), d, if turn.Round? then n + 1 else n)
  {
    if turn.Round? {
      var w := turn.world;
      var s1 := Scanned(s.(dirty := false), w);
      assert s1.candidates == Scanned(s, w).candidates;
      assert d in s1.candidates <==> d in s.candidates;
      if d in s1.candidates {
        CalmDevice(s1, w, d);
      } else {
        CalmOther(s1, w, d);
      }
    }
  }

  lemma NeverHelpedPrefix(s: State, turns: seq<Turn>, d: Device)
    requires turns != [] && NeverHelped(s, turns, d)
    ensures NeverHelped(s, turns[..|turns| - 1], d)
    ensures Unhelpful(AfterTurns(s, turns[..|turns| - 1]), turns[|turns| - 1], d)
  {
    var rest := turns[..|turns| - 1];
    forall i | 0 <= i < |rest| ensures Unhelpful(AfterTurns(s, rest[..i]), rest[i], d) {
      assert rest[..i] == turns[..i];
      assert Unhelpful(AfterTurns(s, turns[..i]), turns[i], d);
    }
  }

  /** A device that stays unresolvable outside the service groups is asked about in every pass,
      its count rising by one, and is dropped by the 60th; it stays out until it is announced. */
  lemma {:induction false} DroppedAtTheLimit(s: State, turns: seq<Turn>, d: Device)
    requires d in s.candidates && CountOf(s, d) == 0 && NeverHelped(s, turns, d)
    ensures Missing(AfterTurns(s, turns), d, Rounds(turns))
  {
    if turns != [] {
      NeverHelpedPrefix(s, turns, d);
      hide NeverHelped, Unhelpful, AfterTurn, Missing;
      DroppedAtTheLimit(s, turns[..|turns| - 1], d);
      UnhelpfulTurn(AfterTurns(s, turns[..|turns| - 1]), turns[|turns| - 1], d, Rounds(turns[..|turns| - 1]));
    }
  }
}
