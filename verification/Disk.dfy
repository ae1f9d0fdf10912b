/** The state directories an agent keeps on disk. */
module Disk {
  import opened Collections
  import opened Plumbing
  import opened Acting

  type Dirs = map<Name, map<string, string>>

  /** State directories: files by directory. */
  class StateDirs {
    var dirs: Dirs

    constructor (dirs: Dirs)
      ensures this.dirs == dirs
    {
      this.dirs := dirs;
    }

    method MakeDir(id: Name)
      modifies this
      ensures dirs == if id in old(dirs) then old(dirs) else old(dirs)[id := map[]]
    {
      if id !in dirs {
        dirs := dirs[id := map[]];
      }
    }

    /** The file has the text afterwards; `changed` says that it had not. */
    method WriteIfChanged(id: Name, file: string, text: string) returns (changed: bool)
      requires id in dirs
      modifies this
      ensures dirs == old(dirs)[id := old(dirs)[id][file := text]]
      ensures changed <==> !(file in old(dirs)[id] && old(dirs)[id][file] == text)
      ensures !changed ==> dirs == old(dirs)
    {
      changed := !(file in dirs[id] && dirs[id][file] == text);
      if changed {
        dirs := dirs[id := dirs[id][file := text]];
      } else {
        assert dirs == dirs[id := dirs[id][file := text]] by {
          assert dirs[id] == dirs[id][file := text];
        }
      }
    }

    /** Remove the directories of what is not desired; how many there were. */
    method RemoveStale(desired: set<Name>) returns (stale: set<Name>)
      modifies this
      ensures stale == old(dirs).Keys - desired
      ensures dirs == old(dirs) - stale
    {
      stale := dirs.Keys - desired;
      dirs := dirs - stale;
    }
  }

  /** A receipt for each directory removed. */
  function AllNoted(l: Log, names: seq<Name>): Log {
    if names == [] then l else Noted(AllNoted(l, names[..|names| - 1]), "RemoveState", names[|names| - 1])
  }

  lemma {:induction false} StaleAreNoted(l: Log, names: seq<Name>, i: nat)
    requires i < |names|
    ensures var receipts := AllNoted(l, names).receipts;
            l.receipts <= receipts && |receipts| == |l.receipts| + |names| && receipts[|l.receipts| + i] == Wrote("RemoveState", names[i])
  {
    var rest := names[..|names| - 1];
    if i < |rest| {
      StaleAreNoted(l, rest, i);
    } else if rest != [] {
      StaleAreNoted(l, rest, 0);
    }
  }

  lemma {:induction false} AllNotedOk(l: Log, names: seq<Name>)
    ensures AllNoted(l, names).k == l.k && (AllOk(AllNoted(l, names).receipts) <==> AllOk(l.receipts))
  {
    if names != [] {
      AllNotedOk(l, names[..|names| - 1]);
      NotedOk(AllNoted(l, names[..|names| - 1]), "RemoveState", names[|names| - 1]);
    }
  }

  method RecordStale(acts: Actions, stale: set<Name>)
    modifies acts
    ensures acts.Now() == AllNoted(old(acts.Now()), Sorted(stale))
    ensures acts.k == old(acts.k) && (AllOk(acts.receipts) <==> AllOk(old(acts.receipts)))
    ensures stale == {} ==> acts.Now() == old(acts.Now())
  {
    hide Ascending, LeStr, AllOk, Noted;
    var names := SortNames(stale);
    AllNotedOk(acts.Now(), names);
    if stale == {} {
      NoElements(names);
    }
    for i := 0 to |names|
      invariant acts.Now() == AllNoted(old(acts.Now()), names[..i])
    {
      assert names[..i + 1][..i] == names[..i];
      acts.Note("RemoveState", names[i]);
    }
    assert names[..|names|] == names;
  }
}
