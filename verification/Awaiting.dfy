/**
 The notes of a plan, in kernel terms, and what the agent makes of them: a port is reported up
 exactly when none of the names it can go by is wanted of other hands and missing.
 */
module Awaiting {
  import opened Collections
  import opened Model
  import opened Ops
  import opened KernelModel
  import opened View
  import opened Planner
  import opened Reading
  import opened PlanContents
  import opened AddsPhase
  import opened Writing
  import opened Names
  import opened PortConfig
  import opened Assembly
  import opened Reporting

  // ------------------------------------------------------------ what is noted

  /** Bridge b's stanza wants x, and others bring it: attached hardware, or the trunk of a flat network. */
  predicate BroughtByOthers(c: Config, b: Name, x: Name) {
    && b in c.bridge.at
    && ((x in c.bridge.at[b].member.at && !c.bridge.at[b].member.at[x].typed)
        || (exists p :: p in c.physnet && c.bridge.at[b].segment == Some(Flat(p)) && x == c.physnet[p]))
  }

  lemma {:induction false} MembersNotesAre(v: KernelInterfaces, b: Name, members: Dict<Member>, j: nat, note: Note)
    requires members.Valid() && j <= |members.keys|
    ensures note in MembersNotes(v, b, members, j) <==>
              note.bridge == b && !v.Has(note.name) && exists i :: 0 <= i < j && members.keys[i] == note.name && !members.at[note.name].typed
  {
    if j > 0 {
      MembersNotesAre(v, b, members, j - 1, note);
      assert members.keys[j - 1] in members.keys;
    }
  }

  lemma UplinkNotesAre(c: Config, k: Kernel, v: KernelInterfaces, pf: PfState, b: Name, note: Note)
    requires Situation(c, k, v, pf) && b in c.bridge.at
    ensures note in UplinkNotes(c, v, b, c.bridge.at[b]) <==>
              && note.bridge == b && note.name !in k.ifs
              && exists p :: p in c.physnet && c.bridge.at[b].segment == Some(Flat(p)) && note.name == c.physnet[p]
  {
    var names := UplinkNames(c, c.bridge.at[b]);
    if names != [] {
      assert names[0] in names;
      assert Claims(c, b, names[0]);
      ClaimedAreSeen(c, k, v, pf, b, names[0]);
      assert names[0] in v.MembersOf(b) ==> names[0] in k.ifs;
    }
    hide Situation, Seen;
    if exists p :: p in c.physnet && c.bridge.at[b].segment == Some(Flat(p)) && note.name == c.physnet[p] {
      assert names == [note.name];
    }
  }

  lemma BridgeNotesAre(c: Config, k: Kernel, v: KernelInterfaces, pf: PfState, b: Name, note: Note)
    requires Situation(c, k, v, pf) && b in c.bridge.at
    ensures note in BridgeNotes(c, v, b) <==> note.bridge == b && note.name !in k.ifs && BroughtByOthers(c, b, note.name)
  {
    var members := c.bridge.at[b].member;
    MembersNotesAre(v, b, members, |members.keys|, note);
    UplinkNotesAre(c, k, v, pf, b, note);
    if note.name in members.at {
      assert note.name in members.keys;
      assert Claims(c, b, note.name);
      assert Claimed(c, note.name);
      assert v.Has(note.name) <==> note.name in k.ifs;
    }
    hide Situation, UplinkNotes;
  }

  lemma {:induction false} NotesUpTo(c: Config, k: Kernel, v: KernelInterfaces, pf: PfState, n: nat, note: Note)
    requires Situation(c, k, v, pf) && n <= |c.bridge.keys|
    ensures note in Notes(c, v, n) <==>
              && note.name !in k.ifs && BroughtByOthers(c, note.bridge, note.name)
              && exists i :: 0 <= i < n && c.bridge.keys[i] == note.bridge
  {
    hide Situation, BridgeNotes, BroughtByOthers;
    if n > 0 {
      NotesUpTo(c, k, v, pf, n - 1, note);
      KeyThere(c, k, v, pf, n - 1);
      BridgeNotesAre(c, k, v, pf, c.bridge.keys[n - 1], note);
    }
  }

  lemma KeyThere(c: Config, k: Kernel, v: KernelInterfaces, pf: PfState, i: nat)
    requires Situation(c, k, v, pf) && i < |c.bridge.keys|
    ensures c.bridge.keys[i] in c.bridge.at
  {
    assert c.bridge.keys[i] in c.bridge.keys;
  }

  /** A plan notes exactly what its bridges want of others and the kernel does not have. */
  lemma NotesExactly(c: Config, k: Kernel, v: KernelInterfaces, pf: PfState, b: Name, x: Name)
    requires Situation(c, k, v, pf)
    ensures AwaitingAttach(x, b) in PlannedPhases(c, v, Some(pf)).notes <==> x !in k.ifs && BroughtByOthers(c, b, x)
  {
    NotesUpTo(c, k, v, pf, |c.bridge.keys|, AwaitingAttach(x, b));
    if b in c.bridge.at {
      assert b in c.bridge.keys;
      var i :| 0 <= i < |c.bridge.keys| && c.bridge.keys[i] == b;
    }
    hide Notes, BroughtByOthers;
  }

  // ------------------------------------------------------------- who is up

  /** Some bridge wants x of others, and it is not there. */
  ghost predicate Missing(c: Config, k: Kernel, x: Name) {
    x !in k.ifs && exists b :: BroughtByOthers(c, b, x)
  }

  lemma WaitingOf(c: Config, k: Kernel, notes: seq<Note>, x: Name)
    requires forall b :: AwaitingAttach(x, b) in notes <==> x !in k.ifs && BroughtByOthers(c, b, x)
    ensures x in Waiting(notes) <==> Missing(c, k, x)
  {
    hide BroughtByOthers;
    if x in Waiting(notes) {
      var i: nat :| i < |notes| && notes[i].name == x;
      assert notes[i] in notes && notes[i] == AwaitingAttach(x, notes[i].bridge);
    }
    if Missing(c, k, x) {
      var b :| BroughtByOthers(c, b, x);
      var i: nat :| i < |notes| && notes[i] == AwaitingAttach(x, b);
    }
  }

  lemma WaitingIsMissing(c: Config, k: Kernel, v: KernelInterfaces, pf: PfState, x: Name)
    requires Situation(c, k, v, pf)
    ensures x in Waiting(PlannedPhases(c, v, Some(pf)).notes) <==> Missing(c, k, x)
  {
    hide PlannedPhases, BroughtByOthers, Waiting, Missing;
    forall b ensures AwaitingAttach(x, b) in PlannedPhases(c, v, Some(pf)).notes <==> x !in k.ifs && BroughtByOthers(c, b, x) {
      NotesExactly(c, k, v, pf, b, x);
    }
    WaitingOf(c, k, PlannedPhases(c, v, Some(pf)).notes, x);
  }

  /** A resolved device is reported up if and only if neither its tap nor either epair name it could have
      is wanted of others and missing. */
  lemma UpExactly(c: Config, k: Kernel, v: KernelInterfaces, pf: PfState, devices: set<string>, d: string)
    requires Situation(c, k, v, pf)
    ensures d in NowUp(devices, PlannedPhases(c, v, Some(pf)).notes) <==>
              d in devices && !Missing(c, k, TapName(d)) && !Missing(c, k, DhcpIfName(d)) && !Missing(c, k, RouterIfName(d))
  {
    WaitingIsMissing(c, k, v, pf, TapName(d));
    WaitingIsMissing(c, k, v, pf, DhcpIfName(d));
    WaitingIsMissing(c, k, v, pf, RouterIfName(d));
    hide Situation, PlannedPhases, Missing, Waiting, TapName, DhcpIfName, RouterIfName;
  }

  /** So a resolved device whose interface names the kernel has is up. */
  lemma PresentMeansUp(c: Config, k: Kernel, v: KernelInterfaces, pf: PfState, devices: set<string>, d: string)
    requires Situation(c, k, v, pf) && d in devices
    requires forall x :: x in {TapName(d), DhcpIfName(d), RouterIfName(d)} && (exists b :: BroughtByOthers(c, b, x)) ==> x in k.ifs
    ensures d in NowUp(devices, PlannedPhases(c, v, Some(pf)).notes)
  {
    UpExactly(c, k, v, pf, devices, d);
    hide Situation, PlannedPhases, NowUp, BroughtByOthers;
  }
}
