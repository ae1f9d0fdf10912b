/** The agent object (agent.py): its handlers, one pass, and the loop's entry point. */
module AgentLoop {
  import opened Collections
  import opened Reporting
  import opened Candidates

  class Agent {
    var candidates: set<Device>
    var misses: map<Device, nat>
    var devicesUp: set<Device>
    var dirty: bool
    var failures: nat

    function Now(): State
      reads this
    {
      State(candidates, misses, devicesUp, dirty, failures)
    }

    /** Starts from the device file, the kernel's tap descriptions and the service interfaces. */
    constructor (recovered: set<Device>)
      ensures Now() == State(recovered, map[], {}, true, 0)
    {
      candidates, misses, devicesUp, dirty, failures := recovered, map[], {}, true, 0;
    }

    // ---------------------------------------------------------------- handlers

    method PortUpdate(port: Device)
      modifies this
      ensures Now() == After(old(Now()), Event.PortUpdate(port))
    {
      if port != "" {
        candidates := candidates + {port};
      }
      dirty := true;
    }

    method BindingActivate(port: Device)
      modifies this
      ensures Now() == After(old(Now()), Event.BindingActivate(port))
    {
      if port != "" {
        candidates := candidates + {port};
      }
      dirty := true;
    }

    method PortDelete(port: Device)
      modifies this
      ensures Now() == After(old(Now()), Event.PortDelete(port))
    {
      if port != "" {
        candidates := candidates - {port};
        misses := misses - {port};
      }
      dirty := true;
    }

    /** Every notification that only marks the state dirty. */
    method MarkDirty()
      modifies this
      ensures Now() == After(old(Now()), Other)
    {
      dirty := true;
    }

    /** The handlers that run while a pass waits for a call out of the process. */
    method Yield(events: seq<Event>)
      modifies this
      ensures Now() == AfterAll(old(Now()), events)
    {
      for i := 0 to |events|
        invariant Now() == AfterAll(old(Now()), events[..i])
      {
        assert events[..i + 1][..i] == events[..i];
        match events[i] {
          case PortUpdate(p) => PortUpdate(p);
          case BindingActivate(p) => BindingActivate(p);
          case PortDelete(p) => PortDelete(p);
          case Other => MarkDirty();
        }
      }
      assert events[..|events|] == events;
    }

    // ------------------------------------------------------------- the reply

    /** One `Missed` answer taken, as `Take` does. */
    method Miss(device: Device, ghost resolved: seq<Device>, pending: set<Device>) returns (pending': set<Device>)
      modifies this
      ensures Tally(Now(), resolved, pending') == Take(Tally(old(Now()), resolved, pending), Missed(device))
    {
      pending' := pending;
      var count := (if device in misses then misses[device] else 0) + 1;
      if count >= BINDING_MISS_LIMIT {
        candidates := candidates - {device};
        misses := misses - {device};
      } else {
        misses := misses[device := count];
        pending' := pending + {device};
      }
    }

    method TakeEntry(entry: Entry, resolved: seq<Device>, pending: set<Device>) returns (resolved': seq<Device>, pending': set<Device>)
      modifies this
      ensures Tally(Now(), resolved', pending') == TakeAll(Tally(old(Now()), resolved, pending), AnswerOf(entry))
    {
      resolved', pending' := resolved, pending;
      if entry.portId != "" {
        resolved' := resolved + [entry.portId];
        misses := misses - {entry.portId};
        TakeOne(Tally(old(Now()), resolved, pending), Resolved(entry.portId));
      } else if entry.device.Some? {
        pending' := Miss(entry.device.value, resolved, pending);
        TakeOne(Tally(old(Now()), resolved, pending), Missed(entry.device.value));
      }
    }

    /** `TakeAll` of a reply's answers: its entries in order, then its failed devices. */
    method TakeReply(reply: Reply) returns (resolved: seq<Device>, pending: set<Device>)
      modifies this
      ensures Tally(Now(), resolved, pending) == TakeAll(Tally(old(Now()), [], {}), Answers(reply))
    {
      resolved, pending := [], {};
      ghost var start := Tally(Now(), [], {});
      for i := 0 to |reply.entries|
        invariant Tally(Now(), resolved, pending) == TakeAll(start, EntryAnswers(reply.entries[..i]))
      {
        assert reply.entries[..i + 1][..i] == reply.entries[..i];
        TakeConcat(start, EntryAnswers(reply.entries[..i]), AnswerOf(reply.entries[i]));
        resolved, pending := TakeEntry(reply.entries[i], resolved, pending);
      }
      assert reply.entries[..|reply.entries|] == reply.entries;
      pending := TakeFailed(reply.failed, start, EntryAnswers(reply.entries), resolved, pending);
    }

    method TakeFailed(failed: seq<Device>, ghost start: Tally, ghost before: seq<Answer>, resolved: seq<Device>, pending: set<Device>)
        returns (pending': set<Device>)
      requires Tally(Now(), resolved, pending) == TakeAll(start, before)
      modifies this
      ensures Tally(Now(), resolved, pending') == TakeAll(start, before + FailedAnswers(failed))
    {
      pending' := pending;
      assert before + [] == before;
      for i := 0 to |failed|
        invariant Tally(Now(), resolved, pending') == TakeAll(start, before + FailedAnswers(failed[..i]))
      {
        assert failed[..i + 1][..i] == failed[..i];
        var so := before + FailedAnswers(failed[..i]);
        assert before + FailedAnswers(failed[..i + 1]) == so + [Missed(failed[i])];
        TakeConcat(start, so, [Missed(failed[i])]);
        TakeOne(TakeAll(start, so), Missed(failed[i]));
        pending' := Miss(failed[i], resolved, pending');
      }
      assert failed[..|failed|] == failed;
    }

    // ---------------------------------------------------------------- one pass

    /** Fetch, build, reconcile and report; false when something raised. */
    method DoSync(w: World) returns (ok: bool, ghost since: seq<Event>)
      modifies this
      ensures End(Now(), ok, since) == Sync(old(Now()), w)
    {
      since := [];
      Yield(w.scanning);
      if w.found.None? {
        return false, since;
      }
      candidates := candidates + w.found.value;
      var devices := candidates;
      var resolved, pending := [], {};
      if devices != {} {
        Yield(w.asking);
        since := w.asking;
        if w.reply.None? {
          return false, since;
        }
        resolved, pending := TakeReply(w.reply.value);
      }
      ok, since := Finish(w, devices, resolved, pending, since);
    }

    /** From the details on. */
    method Finish(w: World, devices: set<Device>, resolved: seq<Device>, pending: set<Device>, ghost before: seq<Event>)
        returns (ok: bool, ghost since: seq<Event>)
      modifies this
      ensures End(Now(), ok, since) == Group(devices, Tally(old(Now()), resolved, pending), w, before)
    {
      since := before;
      if resolved != [] {
        Yield(w.grouping);
        since := since + w.grouping;
        if !w.groups {
          return false, since;
        }
      }
      Yield(w.applying);
      since := since + w.applying;
      if w.notes.None? || !w.saved {
        return false, since;
      }
      var nowUp := NowUp(Elements(resolved), w.notes.value);
      var down := devicesUp - nowUp;
      // also what was reported before
      if nowUp != {} || down != {} {
        Yield(w.reporting);
        since := since + w.reporting;
        if !w.reported {
          return false, since;
        }
      }
      devicesUp := nowUp;
      // what was announced since the snapshot stays
      var unseen := candidates - devices;
      candidates := Elements(resolved) + candidates * nowUp + pending + unseen;
      var again := exists d :: d in pending && CountOf(Now(), d) <= FAST_RETRY_MISSES;
      if again {
        dirty := true;
      }
      ok := true;
    }

    /** Run a pass when dirty or forced; the seconds to wait before the next chance. */
    method SyncIfNeeded(force: bool, w: World) returns (delay: nat)
      modifies this
      ensures !old(dirty) && !force ==> Now() == old(Now()) && delay == 0
      ensures old(dirty) || force ==>
                Now() == Pass(old(Now()), w) && delay == if Sync(old(Now()).(dirty := false), w).ok then 0 else Delay(failures)
    {
      delay := 0;
      if !dirty && !force {
        return;
      }
      dirty := false;
      var ok, _ := DoSync(w);
      if ok {
        failures := 0;
      } else {
        dirty := true;
        failures := failures + 1;
        delay := Delay(failures);
      }
    }
  }
}
