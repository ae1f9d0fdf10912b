/**
 The DHCP pass when commands fail. It writes a network's files before it has a dnsmasq to tell,
 and looks at the files again to learn whether it must; what fails in between is forgotten.
 */
module Forgetting {
  import opened Collections
  import opened Model
  import opened Names
  import opened JailPlane
  import opened Plumbing
  import opened Acting
  import opened PortPlane
  import opened Disk
  import opened Dnsmasq

  // ---------------------------------------------------- one network's service

  /** What there is of a network: its directory, and its dnsmasq if that is alive. */
  datatype Sight = Sight(dir: Option<map<string, string>>, proc: Option<Proc>)

  function Seen(s: Service, id: Name): Sight {
    Sight(if id in s.dirs then Some(s.dirs[id]) else None, if Alive(s, id) then Some(s.procs[s.pidFile[id]]) else None)
  }

  /** The dnsmasq runs the stored command line and has read the files as they are. */
  predicate Truthful(v: Sight, id: Name) {
    v.proc.Some? ==>
      var p := v.proc.value;
      && p.jail == DhcpJail(id) && v.dir.Some?
      && "cmd" in v.dir.value && "hosts" in v.dir.value && "opts" in v.dir.value
      && v.dir.value["cmd"] == p.argv && v.dir.value["hosts"] == p.hosts && v.dir.value["opts"] == p.opts
  }

  lemma HonestIsTruthful(s: Service, id: Name)
    ensures Honest(s, id) <==> Truthful(Seen(s, id), id)
  {
  }

  lemma OtherSeen(s: Service, s': Service, id: Name, other: Name)
    requires PidsOk(s) && OnlyNetwork(s, s', id) && other != id
    ensures Seen(s', other) == Seen(s, other)
  {
    if Alive(s', other) {
      assert s.pidFile[other] < s.next;
      assert Alive(s, other);
    }
    if Alive(s, other) && id in s.pidFile && s.pidFile[id] == s.pidFile[other] {
      assert Alive(s, id);
    }
  }

  // ---------------------------------------------------- a network, whatever fails

  /** The pass gets as far as dnsmasq. */
  ghost predicate Reached(f: Faults, t: Stage, n: Network) {
    var l := JailEnsured(f, FilesNoted(t.l, t.s, n), DhcpJail(n.id));
    DhcpJail(n.id) in l.k.jails && Present(f, l, NetSpec(n).pair)
  }

  /** The log when it does. */
  ghost function Ported(f: Faults, t: Stage, n: Network): Log {
    PortEnsured(f, JailEnsured(f, FilesNoted(t.l, t.s, n), DhcpJail(n.id)), NetSpec(n))
  }

  lemma NetworkedService(f: Faults, t: Stage, n: Network)
    ensures Networked(f, t, n).s == if Reached(f, t, n) then ServedBy(f, Ported(f, t, n), Filed(t.s, n), n, FilesDiffer(t.s, n)).1 else Filed(t.s, n)
  {
    hide JailEnsured, FilesNoted, Present, PortEnsured, EnsuredIfs, ServedBy, FilesDiffer;
  }

  lemma StartedPids(f: Faults, l: Log, s: Service, n: Network)
    requires PidsOk(s) && n.id in s.dirs && "hosts" in s.dirs[n.id] && "opts" in s.dirs[n.id]
    ensures PidsOk(Started(f, l, s, n).1)
  {
    hide Works, Try, DhcpJail;
    var s' := Started(f, l, s, n).1;
    forall a, b | Alive(s', a) && Alive(s', b) && s'.pidFile[a] == s'.pidFile[b] ensures a == b {
      if a != n.id && b != n.id {
        assert Alive(s, a) && Alive(s, b);
      }
    }
  }

  lemma StartedOnly(f: Faults, l: Log, s: Service, n: Network)
    requires PidsOk(s) && n.id in s.dirs && "hosts" in s.dirs[n.id] && "opts" in s.dirs[n.id]
    ensures OnlyNetwork(s, Started(f, l, s, n).1, n.id)
  {
    hide Works, Try, DhcpJail;
  }

  /** Whatever fails, only that network's directory, pid file and dnsmasq change. */
  lemma ServedByOnly(f: Faults, l: Log, s: Service, n: Network, dirty: bool)
    requires PidsOk(s) && n.id in s.dirs && "hosts" in s.dirs[n.id] && "opts" in s.dirs[n.id]
    ensures PidsOk(ServedBy(f, l, s, n, dirty).1) && OnlyNetwork(s, ServedBy(f, l, s, n, dirty).1, n.id)
  {
    hide PidsOk, OnlyNetwork, Works, Try, DhcpJail, Started, Reread, Stopped;
    NothingOnly(s, n.id);
    if !Alive(s, n.id) {
      StartedPids(f, l, s, n);
      StartedOnly(f, l, s, n);
    } else if StoredCmd(s, n.id) != n.argv {
      var stop := StopDnsmasq(s.pidFile[n.id]);
      var s1 := if Works(f, l, stop) then Stopped(s, n.id) else s;
      StoppedOnly(s, n.id);
      StoppedFiles(s, n.id);
      StartedPids(f, Try(f, l, stop), s1, n);
      StartedOnly(f, Try(f, l, stop), s1, n);
      OnlyTwice(s, s1, Started(f, Try(f, l, stop), s1, n).1, n.id);
    } else if dirty {
      RereadOnly(s, n);
    }
  }

  lemma StoppedFiles(s: Service, id: Name)
    requires Alive(s, id)
    ensures Stopped(s, id).dirs == s.dirs && Stopped(s, id).pidFile == s.pidFile
  {
  }

  lemma NetworkedOnly(f: Faults, t: Stage, n: Network)
    requires PidsOk(t.s)
    ensures PidsOk(Networked(f, t, n).s) && OnlyNetwork(t.s, Networked(f, t, n).s, n.id)
  {
    hide PidsOk, OnlyNetwork, Reached, Ported, ServedBy, Networked, FilesDiffer, Filed;
    NetworkedService(f, t, n);
    FiledOnly(t.s, n);
    FiledThere(t.s, n);
    FiledPids(t.s, n);
    var s1, s' := Filed(t.s, n), Networked(f, t, n).s;
    if Reached(f, t, n) {
      ServedByOnly(f, Ported(f, t, n), s1, n, FilesDiffer(t.s, n));
      OnlyTwice(t.s, s1, s', n.id);
    }
  }

  /** A live dnsmasq is left that does not run what is stored: files were written that it is not told of,
      or a new command line was stored and neither was the old one stopped nor a new one started. */
  ghost predicate Forgets(f: Faults, t: Stage, n: Network) {
    && Alive(t.s, n.id)
    && if !Reached(f, t, n) then FilesDiffer(t.s, n)
       else
         var l, pid := Ported(f, t, n), t.s.pidFile[n.id];
         if StoredCmd(t.s, n.id) != n.argv then
           !Works(f, l, StopDnsmasq(pid)) && !Works(f, Try(f, l, StopDnsmasq(pid)), StartDnsmasq(DhcpJail(n.id), n.argv))
         else FilesDiffer(t.s, n) && !Works(f, l, ReloadDnsmasq(pid))
  }

  lemma ServedByHonest(f: Faults, l: Log, s: Service, s1: Service, n: Network)
    requires Honest(s, n.id) && s1 == Filed(s, n)
    ensures Honest(ServedBy(f, l, s1, n, FilesDiffer(s, n)).1, n.id) <==>
              !(Alive(s, n.id) &&
                var pid := s.pidFile[n.id];
                if StoredCmd(s, n.id) != n.argv then
                  !Works(f, l, StopDnsmasq(pid)) && !Works(f, Try(f, l, StopDnsmasq(pid)), StartDnsmasq(DhcpJail(n.id), n.argv))
                else FilesDiffer(s, n) && !Works(f, l, ReloadDnsmasq(pid)))
    ensures Alive(s, n.id) && Alive(ServedBy(f, l, s1, n, FilesDiffer(s, n)).1, n.id) ==>
              ServedBy(f, l, s1, n, FilesDiffer(s, n)).1.procs[ServedBy(f, l, s1, n, FilesDiffer(s, n)).1.pidFile[n.id]].jail == DhcpJail(n.id)
  {
    hide Works, Try, DhcpJail;
  }

  /** Whatever fails, a network's dnsmasq is honest afterwards if and only if the pass forgets nothing of it. */
  lemma HonestExactlyUnlessForgotten(f: Faults, t: Stage, n: Network)
    requires Honest(t.s, n.id)
    ensures Honest(Networked(f, t, n).s, n.id) <==> !Forgets(f, t, n)
    ensures Forgets(f, t, n) ==> Seen(Networked(f, t, n).s, n.id).proc.Some? && Seen(Networked(f, t, n).s, n.id).proc.value.jail == DhcpJail(n.id)
  {
    NetworkedService(f, t, n);
    ServedByHonest(f, Ported(f, t, n), t.s, Filed(t.s, n), n);
    FiledHonest(t.s, n);
    hide Reached, Ported, ServedBy, Networked, FilesDiffer, Filed, Works, Try, DhcpJail, HasFiles;
  }

  lemma FiledHonest(s: Service, n: Network)
    requires Honest(s, n.id)
    ensures Honest(Filed(s, n), n.id) <==> !(Alive(s, n.id) && FilesDiffer(s, n))
    ensures Alive(s, n.id) ==> Alive(Filed(s, n), n.id) && Filed(s, n).procs[Filed(s, n).pidFile[n.id]].jail == DhcpJail(n.id)
  {
  }

  lemma NothingTold(g: Faults, t: Stage, n: Network)
    requires Alive(t.s, n.id) && StoredCmd(t.s, n.id) == n.argv && !FilesDiffer(t.s, n)
    ensures Networked(g, t, n).s == t.s
  {
    NetworkedService(g, t, n);
    assert Filed(t.s, n).dirs[n.id] == t.s.dirs[n.id];
    assert Filed(t.s, n) == t.s;
    hide Reached, Ported, Networked;
  }

  /** What the pass has forgotten of a network stays so: once the command line is the stored one, no
      later pass over the same network does anything about its dnsmasq, whatever works. */
  lemma ForgottenForGood(f: Faults, t: Stage, n: Network)
    requires Honest(t.s, n.id) && Forgets(f, t, n) && (Reached(f, t, n) || StoredCmd(t.s, n.id) == n.argv)
    ensures var s' := Networked(f, t, n).s;
            !InForce(s', n) && forall g: Faults, t': Stage :: t'.s == s' ==> Networked(g, t', n).s == s'
  {
    var s' := Networked(f, t, n).s;
    HonestExactlyUnlessForgotten(f, t, n);
    NetworkedService(f, t, n);
    assert Alive(s', n.id) && StoredCmd(s', n.id) == n.argv && !FilesDiffer(s', n) by {
      hide Works, Try, Reached, Ported, Networked;
    }
    forall g: Faults, t': Stage | t'.s == s' ensures Networked(g, t', n).s == s' {
      NothingTold(g, t', n);
    }
    InForceIsHonest(s', n);
  }

  lemma InForceIsHonest(s: Service, n: Network)
    ensures InForce(s, n) ==> Honest(s, n.id)
  {
  }

  // ------------------------------------------------------------- the whole pass

  ghost predicate DifferentIds(desired: seq<Network>) {
    forall i, j :: 0 <= i < j < |desired| ==> desired[i].id != desired[j].id
  }

  /** The pass once n networks are done. */
  ghost function At(f: Faults, t: Stage, desired: seq<Network>, n: nat): Stage
    requires n <= |desired|
  {
    EachNetworked(f, t, desired[..n])
  }

  lemma AtNext(f: Faults, t: Stage, desired: seq<Network>, n: nat)
    requires n < |desired|
    ensures At(f, t, desired, n + 1) == Networked(f, At(f, t, desired, n), desired[n])
    ensures At(f, t, desired, 0) == t
  {
    assert desired[..n + 1][..n] == desired[..n];
  }

  /** Networks other than those done are as they were. */
  lemma {:induction false} SeenAhead(f: Faults, t: Stage, desired: seq<Network>, n: nat, id: Name)
    requires PidsOk(t.s) && n <= |desired| && forall i :: 0 <= i < n ==> desired[i].id != id
    ensures PidsOk(At(f, t, desired, n).s) && Seen(At(f, t, desired, n).s, id) == Seen(t.s, id)
    decreases n
  {
    hide PidsOk, Networked, Seen, OnlyNetwork;
    if n > 0 {
      SeenAhead(f, t, desired, n - 1, id);
      AtNext(f, t, desired, n - 1);
      NetworkedOnly(f, At(f, t, desired, n - 1), desired[n - 1]);
      OtherSeen(At(f, t, desired, n - 1).s, At(f, t, desired, n).s, desired[n - 1].id, id);
    }
  }

  lemma {:induction false} PidsStayOk(f: Faults, t: Stage, desired: seq<Network>, n: nat)
    requires PidsOk(t.s) && n <= |desired|
    ensures PidsOk(At(f, t, desired, n).s)
    decreases n
  {
    hide PidsOk, Networked;
    if n > 0 {
      PidsStayOk(f, t, desired, n - 1);
      AtNext(f, t, desired, n - 1);
      NetworkedOnly(f, At(f, t, desired, n - 1), desired[n - 1]);
    }
  }

  /** A network that is done stays as it was left. */
  lemma {:induction false} SeenBehind(f: Faults, t: Stage, desired: seq<Network>, i: nat, n: nat)
    requires PidsOk(t.s) && DifferentIds(desired) && i < n <= |desired|
    ensures Seen(At(f, t, desired, n).s, desired[i].id) == Seen(At(f, t, desired, i + 1).s, desired[i].id)
    decreases n
  {
    hide PidsOk, Networked, Seen, OnlyNetwork;
    if i + 1 < n {
      SeenBehind(f, t, desired, i, n - 1);
      PidsStayOk(f, t, desired, n - 1);
      AtNext(f, t, desired, n - 1);
      NetworkedOnly(f, At(f, t, desired, n - 1), desired[n - 1]);
      OtherSeen(At(f, t, desired, n - 1).s, At(f, t, desired, n).s, desired[n - 1].id, desired[i].id);
    }
  }

  lemma SeenRetired(s: Service, live: set<Name>, stale: set<Name>, id: Name)
    requires PidsOk(s)
    ensures var v, v' := Seen(s, id), Seen(Pruned(Reaped(s, live), stale), id);
            if id in stale then v' == Sight(None, None)
            else v' == v.(proc := if v.proc.Some? && v.proc.value.jail in live then v.proc else None)
    ensures id !in s.dirs ==> Seen(s, id).proc.None?
  {
  }

  /** How a desired network is seen when the pass is over. */
  lemma DesiredHonest(f: Faults, t: Stage, live: set<Name>, desired: seq<Network>, i: nat)
    requires AllHonest(t.s) && DifferentIds(desired) && i < |desired|
    ensures var s' := At(f, t, desired, |desired|).s;
            Honest(Pruned(Reaped(s', live), StaleIds(s', desired)), desired[i].id) <==>
              (Forgets(f, At(f, t, desired, i), desired[i]) ==> DhcpJail(desired[i].id) !in live)
  {
    hide PidsOk, Networked, Seen, Honest, Forgets, DhcpJail, EachNetworked;
    var id, s', before, after := desired[i].id, At(f, t, desired, |desired|).s, At(f, t, desired, i), At(f, t, desired, i + 1);
    SeenAhead(f, t, desired, i, id);
    HonestIsTruthful(t.s, id);
    HonestIsTruthful(before.s, id);
    HonestExactlyUnlessForgotten(f, before, desired[i]);
    AtNext(f, t, desired, i);
    HonestIsTruthful(after.s, id);
    SeenBehind(f, t, desired, i, |desired|);
    PidsStayOk(f, t, desired, |desired|);
    SeenRetired(s', live, StaleIds(s', desired), id);
    HonestIsTruthful(Pruned(Reaped(s', live), StaleIds(s', desired)), id);
    assert id in Ids(desired);
  }

  lemma OthersHonest(s: Service, live: set<Name>, desired: seq<Network>, id: Name)
    requires PidsOk(s) && id !in Ids(desired)
    ensures Honest(Pruned(Reaped(s, live), StaleIds(s, desired)), id)
  {
    SeenRetired(s, live, StaleIds(s, desired), id);
    HonestIsTruthful(Pruned(Reaped(s, live), StaleIds(s, desired)), id);
    hide PidsOk, Honest, Ids;
  }

  /** Whatever fails, after a pass over an honest plane every live dnsmasq is honest if and only if
      nothing was forgotten of a network whose jail is still there. */
  lemma PassHonestExactly(f: Faults, k: World, s: Service, desired: seq<Network>)
    requires AllHonest(s) && DifferentIds(desired)
    ensures AllHonest(Passed(f, k, s, desired).s) <==>
              forall i :: 0 <= i < |desired| && Forgets(f, At(f, Begun(k, s), desired, i), desired[i]) ==>
                  DhcpJail(desired[i].id) !in Passed(f, k, s, desired).l.k.jails
  {
    var t := At(f, Begun(k, s), desired, |desired|);
    assert desired[..|desired|] == desired;
    var live := Living(f, t, desired);
    var s' := Pruned(Reaped(t.s, live), StaleIds(t.s, desired));
    PassedIs(f, k, s, desired);
    PidsStayOk(f, Begun(k, s), desired, |desired|);
    PrunedPids(t.s, live, StaleIds(t.s, desired));
    DesiredLive(f, t, desired);
    hide PidsOk, Honest, Forgets, DhcpJail, Passed, At, Torn, Pruned, Reaped, Begun, Living;
    forall i | 0 <= i < |desired|
      ensures Honest(s', desired[i].id) <==> (Forgets(f, At(f, Begun(k, s), desired, i), desired[i]) ==> DhcpJail(desired[i].id) !in live)
    {
      BegunIs(k, s);
      DesiredHonest(f, Begun(k, s), live, desired, i);
      assert DhcpJail(desired[i].id) in Jails(desired);
    }
    forall id | id !in Ids(desired) ensures Honest(s', id) {
      OthersHonest(t.s, live, desired, id);
    }
  }

  lemma PassedIs(f: Faults, k: World, s: Service, desired: seq<Network>)
    ensures var t := At(f, Begun(k, s), desired, |desired|);
            && Passed(f, k, s, desired).l.k == Torn(f, t.l, t.l.k.jails.Keys - Jails(desired), t.ifs - Hosts(desired)).k
            && Passed(f, k, s, desired).s == Pruned(Reaped(t.s, Living(f, t, desired)), StaleIds(t.s, desired))
  {
    assert desired[..|desired|] == desired;
    var t := At(f, Begun(k, s), desired, |desired|);
    AllNotedOk(Torn(f, t.l, t.l.k.jails.Keys - Jails(desired), t.ifs - Hosts(desired)), Sorted(StaleIds(t.s, desired)));
  }

  // ----------------------------------------------------------------- processes

  lemma {:induction false} KillsReach(f: Faults, l: Log, jails: seq<Name>, j: Name)
    requires forall n: nat, c: Cmd :: c.KillJailProcs? ==> !f(n, c)
    requires j in jails && j in l.k.jails
    ensures j in Killed(f, l, jails)
  {
    var rest, last := jails[..|jails| - 1], jails[|jails| - 1];
    KillsKill(f, l, rest);
    if j != last {
      assert jails == rest + [last];
      KillsReach(f, l, rest, j);
    }
  }

  /** Whatever else fails, if killing works, no process of a jail that is not wanted outlives the pass, even
      where the jail itself does. */
  lemma UndesiredProcessesGo(f: Faults, t: Stage, desired: seq<Network>)
    requires forall n: nat, c: Cmd :: c.KillJailProcs? ==> !f(n, c)
    ensures forall pid :: pid in Retired(f, t, desired).s.procs ==> Retired(f, t, desired).s.procs[pid].jail in Jails(desired)
  {
    var doomed := t.l.k.jails.Keys - Jails(desired);
    hide Jails, Hosts, Killed, Torn, AllNoted;
    forall j | j in doomed ensures j in Killed(f, t.l, Sorted(doomed)) {
      KillsReach(f, t.l, Sorted(doomed), j);
    }
    JailsOnlyGo(f, t.l, doomed, t.ifs - Hosts(desired));
  }

  lemma {:induction false} TriedJails(f: Faults, l: Log, cmds: seq<Cmd>)
    requires forall i :: 0 <= i < |cmds| ==> !cmds[i].CreateJail?
    ensures Tried(f, l, cmds).k.jails.Keys <= l.k.jails.Keys
  {
    if cmds != [] {
      TriedJails(f, l, cmds[..|cmds| - 1]);
    }
  }

  lemma JailsOnlyGo(f: Faults, l: Log, jails: set<Name>, hosts: set<Name>)
    ensures Torn(f, l, jails, hosts).k.jails.Keys <= l.k.jails.Keys
  {
    KillsKill(f, l, Sorted(jails));
    var l1 := Tried(f, l, KillCmds(l.k, Sorted(jails)));
    TriedJails(f, l1, DestroyCmds(Sorted(hosts)));
    TriedJails(f, Tried(f, l1, DestroyCmds(Sorted(hosts))), RemoveCmds(Sorted(jails)));
  }
}
