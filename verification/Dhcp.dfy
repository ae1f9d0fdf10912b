/**
 The DHCP reconciler (dhcp_agent/reconcile.py): per network a jail, an epair, its files and
 one dnsmasq, restarted on a changed command line and told to re-read on changed files.

 dnsmasq reads its hosts and opts when it starts and when it gets SIGHUP, and writes its pid
 file when it starts. Process ids are not reused. A jail's processes go with it.
 */
module Dnsmasq {
  import opened Collections
  import opened Model
  import opened Names
  import opened JailPlane
  import opened Plumbing
  import opened Acting
  import opened PortPlane
  import opened Disk

  /** A running dnsmasq: its jail, its command line, and the files as it last read them. */
  datatype Proc = Proc(jail: Name, argv: string, hosts: string, opts: string)

  /** One network's desired service; hosts, opts and argv are rendered. */
  datatype Network = Network(id: string, port: string, mac: Mac, ips: seq<Inet>, hosts: string, opts: string, argv: string)

  function NetSpec(n: Network): Spec {
    Spec(Pair(DhcpJail(n.id), DhcpIfName(n.port), "dhcp0", "neutron port " + n.port), n.mac, n.ips)
  }

  /** Processes, pid files and state directories. */
  datatype Service = Service(procs: map<nat, Proc>, next: nat, pidFile: map<Name, nat>, dirs: map<Name, map<string, string>>)

  predicate Alive(s: Service, id: Name) {
    id in s.pidFile && s.pidFile[id] in s.procs
  }

  predicate HasFiles(s: Service, id: Name, argv: string, hosts: string, opts: string) {
    && id in s.dirs && "cmd" in s.dirs[id] && "hosts" in s.dirs[id] && "opts" in s.dirs[id]
    && s.dirs[id]["cmd"] == argv && s.dirs[id]["hosts"] == hosts && s.dirs[id]["opts"] == opts
  }

  /** A live dnsmasq runs the stored command line and has read the files as they are. */
  predicate Honest(s: Service, id: Name) {
    Alive(s, id) ==> var p := s.procs[s.pidFile[id]];
                     p.jail == DhcpJail(id) && HasFiles(s, id, p.argv, p.hosts, p.opts)
  }

  ghost predicate PidsOk(s: Service) {
    && (forall pid :: pid in s.procs ==> pid < s.next)
    && (forall id :: id in s.pidFile ==> s.pidFile[id] < s.next && id in s.dirs)
    && (forall a, b :: Alive(s, a) && Alive(s, b) && s.pidFile[a] == s.pidFile[b] ==> a == b)
  }

  ghost predicate AllHonest(s: Service) {
    PidsOk(s) && forall id :: Honest(s, id)
  }

  /** The desired configuration is in force: dnsmasq runs with it, and it is what is stored. */
  predicate InForce(s: Service, n: Network) {
    Alive(s, n.id) && s.procs[s.pidFile[n.id]] == Proc(DhcpJail(n.id), n.argv, n.hosts, n.opts) && HasFiles(s, n.id, n.argv, n.hosts, n.opts)
  }

  /** Nothing is different but the directory, pid file and dnsmasq of one network. */
  ghost predicate OnlyNetwork(s: Service, s': Service, id: Name) {
    && s.next <= s'.next
    && (forall pid :: pid in s'.procs && pid < s.next ==> pid in s.procs)
    && (forall d :: d != id ==> (d in s'.dirs <==> d in s.dirs) && (d in s.dirs ==> s'.dirs[d] == s.dirs[d]))
    && (forall d :: d != id ==> (d in s'.pidFile <==> d in s.pidFile) && (d in s.pidFile ==> s'.pidFile[d] == s.pidFile[d]))
    && (forall pid :: pid < s.next && !(id in s.pidFile && s.pidFile[id] == pid) ==>
          (pid in s'.procs <==> pid in s.procs) && (pid in s.procs ==> s'.procs[pid] == s.procs[pid]))
  }

  /** What holds of another network holds still. */
  lemma OtherNetwork(s: Service, s': Service, id: Name, n: Network)
    requires PidsOk(s) && OnlyNetwork(s, s', id) && n.id != id
    ensures InForce(s, n) ==> InForce(s', n)
    ensures Honest(s, n.id) ==> Honest(s', n.id)
  {
    if Alive(s', n.id) {
      assert s.pidFile[n.id] < s.next;
      assert Alive(s, n.id);
    }
  }

  /** dnsmasq dying leaves no lie behind. */
  lemma DeathsAreHonest(s: Service, dead: set<nat>)
    requires AllHonest(s)
    ensures AllHonest(s.(procs := s.procs - dead))
  {
    var s' := s.(procs := s.procs - dead);
    forall id ensures Honest(s', id) {
      assert Honest(s, id);
    }
  }

  /** The pass has got as far as dnsmasq: hosts and opts are written, and `dirty` says whether they
      differ from what a live dnsmasq has read. */
  predicate Written(s: Service, n: Network, dirty: bool) {
    && n.id in s.dirs && "hosts" in s.dirs[n.id] && "opts" in s.dirs[n.id]
    && s.dirs[n.id]["hosts"] == n.hosts && s.dirs[n.id]["opts"] == n.opts
    && (Alive(s, n.id) ==>
          var p := s.procs[s.pidFile[n.id]];
          && p.jail == DhcpJail(n.id) && "cmd" in s.dirs[n.id] && s.dirs[n.id]["cmd"] == p.argv
          && (!dirty ==> p.hosts == n.hosts && p.opts == n.opts))
  }

  // ------------------------------------------------------ what a pass does to it

  function Stopped(s: Service, id: Name): Service
    requires Alive(s, id)
  {
    s.(procs := s.procs - {s.pidFile[id]})
  }

  /** The command line is stored and dnsmasq started: it reads its files and writes its pid. */
  function Launched(s: Service, n: Network): Service
    requires n.id in s.dirs && "hosts" in s.dirs[n.id] && "opts" in s.dirs[n.id]
  {
    s.(dirs := s.dirs[n.id := s.dirs[n.id]["cmd" := n.argv]],
    procs := s.procs[s.next := Proc(DhcpJail(n.id), n.argv, s.dirs[n.id]["hosts"], s.dirs[n.id]["opts"])],
    pidFile := s.pidFile[n.id := s.next],
    next := s.next + 1)
  }

  function Reread(s: Service, n: Network): Service
    requires Alive(s, n.id) && n.id in s.dirs && "hosts" in s.dirs[n.id] && "opts" in s.dirs[n.id]
  {
    var pid := s.pidFile[n.id];
    s.(procs := s.procs[pid := s.procs[pid].(hosts := s.dirs[n.id]["hosts"], opts := s.dirs[n.id]["opts"])])
  }

  function StoredCmd(s: Service, id: Name): string {
    if id in s.dirs && "cmd" in s.dirs[id] then s.dirs[id]["cmd"] else ""
  }

  /** Restart on a changed command line, HUP on changed files, otherwise nothing. */
  function Served(s: Service, n: Network, dirty: bool): Service
    requires n.id in s.dirs && "hosts" in s.dirs[n.id] && "opts" in s.dirs[n.id]
  {
    if !Alive(s, n.id) then Launched(s, n)
    else if StoredCmd(s, n.id) != n.argv then Launched(Stopped(s, n.id), n)
    else if dirty then Reread(s, n)
    else s
  }

  function FileOf(s: Service, id: Name, file: string): Option<string> {
    if id in s.dirs && file in s.dirs[id] then Some(s.dirs[id][file]) else None
  }

  /** With the network's hosts and opts files written. */
  function Filed(s: Service, n: Network): Service {
    var dir := if n.id in s.dirs then s.dirs[n.id] else map[];
    s.(dirs := s.dirs[n.id := dir["hosts" := n.hosts]["opts" := n.opts]])
  }

  predicate FilesDiffer(s: Service, n: Network) {
    FileOf(s, n.id, "hosts") != Some(n.hosts) || FileOf(s, n.id, "opts") != Some(n.opts)
  }

  lemma FiledOnly(s: Service, n: Network)
    requires PidsOk(s)
    ensures PidsOk(Filed(s, n)) && OnlyNetwork(s, Filed(s, n), n.id)
  {
    var s' := Filed(s, n);
    forall id ensures Alive(s', id) <==> Alive(s, id) {}
  }

  lemma FiledIsWritten(s: Service, n: Network)
    requires Honest(s, n.id)
    ensures Written(Filed(s, n), n, FilesDiffer(s, n))
    ensures InForce(s, n) ==> Filed(s, n) == s && !FilesDiffer(s, n)
  {
    if InForce(s, n) {
      assert s.dirs[n.id] == s.dirs[n.id]["hosts" := n.hosts]["opts" := n.opts];
    }
  }

  lemma StoppedOnly(s: Service, id: Name)
    requires PidsOk(s) && Alive(s, id)
    ensures PidsOk(Stopped(s, id)) && OnlyNetwork(s, Stopped(s, id), id)
  {
  }

  lemma LaunchedOnly(s: Service, n: Network)
    requires PidsOk(s) && !Alive(s, n.id) && n.id in s.dirs && "hosts" in s.dirs[n.id] && "opts" in s.dirs[n.id]
    ensures PidsOk(Launched(s, n)) && OnlyNetwork(s, Launched(s, n), n.id)
  {
    var s' := Launched(s, n);
    forall a, b | Alive(s', a) && Alive(s', b) && s'.pidFile[a] == s'.pidFile[b] ensures a == b {
      if a != n.id && b != n.id {
        assert Alive(s, a) && Alive(s, b);
      }
    }
  }

  lemma RereadOnly(s: Service, n: Network)
    requires PidsOk(s) && Alive(s, n.id) && n.id in s.dirs && "hosts" in s.dirs[n.id] && "opts" in s.dirs[n.id]
    ensures PidsOk(Reread(s, n)) && OnlyNetwork(s, Reread(s, n), n.id)
  {
    var s' := Reread(s, n);
    forall id ensures Alive(s', id) <==> Alive(s, id) {}
  }

  lemma OnlyTwice(s: Service, s1: Service, s2: Service, id: Name)
    requires OnlyNetwork(s, s1, id) && OnlyNetwork(s1, s2, id) && s1.pidFile == s.pidFile
    ensures OnlyNetwork(s, s2, id)
  {
  }

  lemma LaunchedInForce(s: Service, n: Network)
    requires n.id in s.dirs && "hosts" in s.dirs[n.id] && "opts" in s.dirs[n.id]
    requires s.dirs[n.id]["hosts"] == n.hosts && s.dirs[n.id]["opts"] == n.opts
    ensures InForce(Launched(s, n), n)
  {
  }

  lemma KeptInForce(s: Service, n: Network, dirty: bool)
    requires Written(s, n, dirty) && Alive(s, n.id) && StoredCmd(s, n.id) == n.argv
    ensures InForce(if dirty then Reread(s, n) else s, n)
  {
  }

  lemma NothingOnly(s: Service, id: Name)
    ensures OnlyNetwork(s, s, id)
  {
  }

  /** Restart, HUP or nothing, the desired configuration is in force, and no other network is touched. */
  lemma ServedInForce(s: Service, n: Network, dirty: bool)
    requires PidsOk(s) && Written(s, n, dirty)
    ensures PidsOk(Served(s, n, dirty)) && OnlyNetwork(s, Served(s, n, dirty), n.id) && InForce(Served(s, n, dirty), n)
    ensures Alive(s, n.id) && StoredCmd(s, n.id) == n.argv ==> Served(s, n, dirty).pidFile == s.pidFile
    ensures InForce(s, n) && !dirty ==> Served(s, n, dirty) == s
  {
    hide PidsOk, OnlyNetwork, HasFiles, DhcpJail;
    if !Alive(s, n.id) {
      LaunchedOnly(s, n);
      LaunchedInForce(s, n);
    } else if StoredCmd(s, n.id) != n.argv {
      StoppedOnly(s, n.id);
      LaunchedOnly(Stopped(s, n.id), n);
      LaunchedInForce(Stopped(s, n.id), n);
      OnlyTwice(s, Stopped(s, n.id), Launched(Stopped(s, n.id), n), n.id);
      CmdInForce(s, n);
    } else {
      KeptInForce(s, n, dirty);
      RereadOnly(s, n);
      NothingOnly(s, n.id);
    }
  }

  lemma CmdInForce(s: Service, n: Network)
    ensures InForce(s, n) ==> StoredCmd(s, n.id) == n.argv && Alive(s, n.id)
  {
  }

  // ------------------------------------------------------------- all networks

  function NetSpecs(desired: seq<Network>): (r: seq<Spec>)
    ensures |r| == |desired|
    ensures forall i :: 0 <= i < |r| ==> r[i] == NetSpec(desired[i])
  {
    seq(|desired|, i requires 0 <= i < |desired| => NetSpec(desired[i]))
  }

  /** Networks with ids, jails and host interfaces of their own. */
  ghost predicate DistinctNetworks(desired: seq<Network>) {
    && Apart(NetSpecs(desired)) && AllFunctional(NetSpecs(desired))
    && (forall i, j :: 0 <= i < j < |desired| ==> desired[i].id != desired[j].id)
  }

  function Jails(desired: seq<Network>): set<Name> {
    set i | 0 <= i < |desired| :: DhcpJail(desired[i].id)
  }

  function Hosts(desired: seq<Network>): set<Name> {
    set i | 0 <= i < |desired| :: DhcpIfName(desired[i].port)
  }

  function Ids(desired: seq<Network>): set<Name> {
    set i | 0 <= i < |desired| :: desired[i].id
  }

  ghost predicate AllInForce(s: Service, desired: seq<Network>, n: nat)
    requires n <= |desired|
  {
    forall i :: 0 <= i < n ==> InForce(s, desired[i])
  }

  ghost predicate HonestFrom(s: Service, desired: seq<Network>, n: nat)
    requires n <= |desired|
  {
    forall i :: n <= i < |desired| ==> Honest(s, desired[i].id)
  }

  lemma ServiceStep(s: Service, s': Service, desired: seq<Network>, n: nat)
    requires DistinctNetworks(desired) && n < |desired|
    requires PidsOk(s) && OnlyNetwork(s, s', desired[n].id) && InForce(s', desired[n])
    requires AllInForce(s, desired, n) && HonestFrom(s, desired, n)
    ensures AllInForce(s', desired, n + 1) && HonestFrom(s', desired, n + 1)
  {
    hide PidsOk, OnlyNetwork, Honest, InForce, Apart, AllFunctional;
    forall i | 0 <= i < |desired| && i != n
      ensures InForce(s, desired[i]) ==> InForce(s', desired[i])
      ensures Honest(s, desired[i].id) ==> Honest(s', desired[i].id)
    {
      assert desired[i].id != desired[n].id;
      OtherNetwork(s, s', desired[n].id, desired[i]);
    }
  }

  /** Without the processes of jails other than these. */
  function Reaped(s: Service, jails: set<Name>): Service {
    s.(procs := map pid | pid in s.procs && s.procs[pid].jail in jails :: s.procs[pid])
  }

  /** Without the state directories of some networks. */
  function Pruned(s: Service, stale: set<Name>): Service {
    s.(dirs := s.dirs - stale, pidFile := s.pidFile - stale)
  }

  lemma OneRetired(s: Service, live: set<Name>, desired: seq<Network>, n: Network)
    requires InForce(s, n) && n.id in Ids(desired) && DhcpJail(n.id) in live
    ensures InForce(Pruned(Reaped(s, live), s.dirs.Keys - Ids(desired)), n) && n.id in s.dirs
  {
  }

  /** Garbage collection leaves what is in force in force, and nothing else to be honest about. */
  lemma RetiredInForce(s: Service, live: set<Name>, desired: seq<Network>)
    requires PidsOk(s) && AllInForce(s, desired, |desired|) && Jails(desired) <= live
    ensures var s' := Pruned(Reaped(s, live), s.dirs.Keys - Ids(desired));
            AllHonest(s') && AllInForce(s', desired, |desired|) && s'.dirs.Keys == Ids(desired)
  {
    var s' := Pruned(Reaped(s, live), s.dirs.Keys - Ids(desired));
    forall i | 0 <= i < |desired| ensures InForce(s', desired[i]) && desired[i].id in s.dirs {
      assert desired[i].id in Ids(desired) && DhcpJail(desired[i].id) in Jails(desired);
      OneRetired(s, live, desired, desired[i]);
    }
    PrunedPids(s, live, s.dirs.Keys - Ids(desired));
    hide PidsOk, HasFiles, DhcpJail;
    forall id ensures Honest(s', id) {
      if Alive(s', id) {
        AliveIsDesired(s, live, desired, id);
        var i :| 0 <= i < |desired| && desired[i].id == id;
        assert InForce(s', desired[i]);
      }
    }
  }

  lemma PrunedPids(s: Service, live: set<Name>, stale: set<Name>)
    requires PidsOk(s)
    ensures PidsOk(Pruned(Reaped(s, live), stale))
  {
    var s' := Pruned(Reaped(s, live), stale);
    forall id | Alive(s', id) ensures Alive(s, id) {}
  }

  lemma AliveIsDesired(s: Service, live: set<Name>, desired: seq<Network>, id: Name)
    requires PidsOk(s) && Alive(Pruned(Reaped(s, live), s.dirs.Keys - Ids(desired)), id)
    ensures exists i :: 0 <= i < |desired| && desired[i].id == id
  {
    assert id in s.dirs && id in Ids(desired);
  }

  lemma DnsmasqCommand(f: Faults, l: Log, c: Cmd)
    requires c.StartDnsmasq? || c.StopDnsmasq? || c.ReloadDnsmasq?
    ensures Try(f, l, c).k == l.k
    ensures FaultFree(f) && (c.StartDnsmasq? ==> c.jail in l.k.jails) ==> Works(f, l, c) && (AllOk(l.receipts) ==> AllOk(Try(f, l, c).receipts))
  {
    OneOk(f, l, c);
  }

  // ---------------------------------------------------------- a pass, step by step

  /** A pass under way: the kernel and receipts, the processes and files, the local set of interfaces. */
  datatype Stage = Stage(l: Log, s: Service, ifs: set<Name>)

  /** The command line is stored and dnsmasq started. */
  function Started(f: Faults, l: Log, s: Service, n: Network): (r: (Log, Service))
    requires n.id in s.dirs && "hosts" in s.dirs[n.id] && "opts" in s.dirs[n.id]
  {
    var c := StartDnsmasq(DhcpJail(n.id), n.argv);
    (Try(f, l, c), if Works(f, l, c) then Launched(s, n) else s.(dirs := s.dirs[n.id := s.dirs[n.id]["cmd" := n.argv]]))
  }

  /** Restart on a changed command line, HUP on changed files, otherwise nothing; whatever works. */
  function ServedBy(f: Faults, l: Log, s: Service, n: Network, dirty: bool): (r: (Log, Service))
    requires n.id in s.dirs && "hosts" in s.dirs[n.id] && "opts" in s.dirs[n.id]
  {
    if !Alive(s, n.id) then Started(f, l, s, n)
    else if StoredCmd(s, n.id) != n.argv then
      var c := StopDnsmasq(s.pidFile[n.id]);
      Started(f, Try(f, l, c), if Works(f, l, c) then Stopped(s, n.id) else s, n)
    else if dirty then
      var c := ReloadDnsmasq(s.pidFile[n.id]);
      (Try(f, l, c), if Works(f, l, c) then Reread(s, n) else s)
    else (l, s)
  }

  /** A receipt for each file that is written. */
  function FilesNoted(l: Log, s: Service, n: Network): Log {
    var l1 := if FileOf(s, n.id, "hosts") != Some(n.hosts) then Noted(l, "WriteHosts", n.id) else l;
    if FileOf(s, n.id, "opts") != Some(n.opts) then Noted(l1, "WriteOpts", n.id) else l1
  }

  /** A receipt tells of each file that the pass changes, and of no other. */
  lemma WritesAreNoted(l: Log, s: Service, n: Network, file: string)
    requires file in {"hosts", "opts"}
    ensures var receipts := FilesNoted(l, s, n).receipts;
            && l.receipts <= receipts
            && (Wrote(if file == "hosts" then "WriteHosts" else "WriteOpts", n.id) in receipts[|l.receipts|..] <==>
                  FileOf(s, n.id, file) != FileOf(Filed(s, n), n.id, file))
  {
    var hosts := if FileOf(s, n.id, "hosts") != Some(n.hosts) then [Wrote("WriteHosts", n.id)] else [];
    var opts := if FileOf(s, n.id, "opts") != Some(n.opts) then [Wrote("WriteOpts", n.id)] else [];
    assert FilesNoted(l, s, n).receipts == l.receipts + (hosts + opts);
    assert Wrote("WriteHosts", n.id) != Wrote("WriteOpts", n.id) by {
      assert |"WriteHosts"| != |"WriteOpts"|;
    }
    assert FileOf(Filed(s, n), n.id, "hosts") == Some(n.hosts) && FileOf(Filed(s, n), n.id, "opts") == Some(n.opts) by {
      assert |"hosts"| != |"opts"|;
    }
  }

  /** One network: files, jail, epair, addresses, dnsmasq. */
  ghost function Networked(f: Faults, t: Stage, n: Network): Stage {
    var l1, s1, p := JailEnsured(f, FilesNoted(t.l, t.s, n), DhcpJail(n.id)), Filed(t.s, n), NetSpec(n).pair;
    if DhcpJail(n.id) !in l1.k.jails then Stage(l1, s1, t.ifs)
    else
      var l2, ifs := PortEnsured(f, l1, NetSpec(n)), EnsuredIfs(f, l1, p, t.ifs);
      if !Present(f, l1, p) then Stage(l2, s1, ifs)
      else
        var served := ServedBy(f, l2, s1, n, FilesDiffer(t.s, n));
        Stage(served.0, served.1, ifs)
  }

  ghost function EachNetworked(f: Faults, t: Stage, desired: seq<Network>): Stage {
    if desired == [] then t else Networked(f, EachNetworked(f, t, desired[..|desired| - 1]), desired[|desired| - 1])
  }

  function StaleIds(s: Service, desired: seq<Network>): set<Name> {
    s.dirs.Keys - Ids(desired)
  }

  /** The jails that still have processes after teardown: those there whose processes were not killed. */
  ghost function Living(f: Faults, t: Stage, desired: seq<Network>): set<Name> {
    var doomed := t.l.k.jails.Keys - Jails(desired);
    Torn(f, t.l, doomed, t.ifs - Hosts(desired)).k.jails.Keys - Killed(f, t.l, Sorted(doomed))
  }

  /** The end of a pass: teardown of what is not desired, and stale directories removed. */
  ghost function Retired(f: Faults, t: Stage, desired: seq<Network>): Stage {
    var l := Torn(f, t.l, t.l.k.jails.Keys - Jails(desired), t.ifs - Hosts(desired));
    Stage(AllNoted(l, Sorted(StaleIds(t.s, desired))), Pruned(Reaped(t.s, Living(f, t, desired)), StaleIds(t.s, desired)), t.ifs)
  }

  ghost function Begun(k: World, s: Service): Stage {
    Stage(Log(k, []), s, Grouped(k.nics))
  }

  /** The whole pass. */
  ghost function Passed(f: Faults, k: World, s: Service, desired: seq<Network>): Stage {
    Retired(f, EachNetworked(f, Begun(k, s), desired), desired)
  }

  // ---------------------------------------------------------- what one network gets

  /** With no faults the configuration is in force; what is in force is left alone. */
  lemma ServedByInForce(f: Faults, l: Log, s: Service, n: Network, dirty: bool)
    requires n.id in s.dirs && "hosts" in s.dirs[n.id] && "opts" in s.dirs[n.id]
    ensures ServedBy(f, l, s, n, dirty).0.k == l.k
    ensures FaultFree(f) && DhcpJail(n.id) in l.k.jails ==>
              && ServedBy(f, l, s, n, dirty).1 == Served(s, n, dirty)
              && (AllOk(l.receipts) ==> AllOk(ServedBy(f, l, s, n, dirty).0.receipts))
    ensures InForce(s, n) && !dirty ==> ServedBy(f, l, s, n, dirty) == (l, s)
  {
    var start := StartDnsmasq(DhcpJail(n.id), n.argv);
    DnsmasqCommand(f, l, start);
    if Alive(s, n.id) {
      var stop := StopDnsmasq(s.pidFile[n.id]);
      DnsmasqCommand(f, l, stop);
      DnsmasqCommand(f, Try(f, l, stop), start);
      DnsmasqCommand(f, l, ReloadDnsmasq(s.pidFile[n.id]));
    }
    hide Try, Works, AllOk, DhcpJail;
  }

  lemma FilesNotedIs(l: Log, s: Service, n: Network)
    ensures FilesNoted(l, s, n).k == l.k && (AllOk(FilesNoted(l, s, n).receipts) <==> AllOk(l.receipts))
    ensures !FilesDiffer(s, n) ==> FilesNoted(l, s, n) == l
  {
    NotedOk(l, "WriteHosts", n.id);
    NotedOk(l, "WriteOpts", n.id);
    NotedOk(Noted(l, "WriteHosts", n.id), "WriteOpts", n.id);
  }

  /** The kernel's side of one network, whatever fails. */
  lemma NetworkedKernel(f: Faults, t: Stage, n: Network)
    requires Sound(t.l.k)
    ensures var l := JailEnsured(f, FilesNoted(t.l, t.s, n), DhcpJail(n.id));
            var k' := Networked(f, t, n).l.k;
            && Sound(k') && Sound(l.k) && l.k.nics == t.l.k.nics && t.l.k.jails.Keys <= l.k.jails.Keys == k'.jails.Keys
            && (k'.nics == t.l.k.nics || k'.nics == PortEnsured(f, l, NetSpec(n)).k.nics)
  {
    hide Sound, PortEnsured, Present, EnsuredIfs, ServedBy, JailEnsured, FilesNoted;
    FilesNotedIs(t.l, t.s, n);
    var l0 := FilesNoted(t.l, t.s, n);
    JailEnsuredIs(f, l0, DhcpJail(n.id));
    var l1 := JailEnsured(f, l0, DhcpJail(n.id));
    PortOnly(f, l1, NetSpec(n));
    ServedByInForce(f, PortEnsured(f, l1, NetSpec(n)), Filed(t.s, n), n, FilesDiffer(t.s, n));
  }

  /** With no faults: the port, the jail, the configuration, and no failed receipt. */
  lemma NetworkedFine(f: Faults, nics0: Nics, t: Stage, all: seq<Spec>, m: nat, n: Network)
    requires Sound(t.l.k) && Tourable(nics0, all) && Underway(f, nics0, t.l.k.nics, all, m, t.ifs) && m < |all| && all[m] == NetSpec(n)
    requires PidsOk(t.s) && Honest(t.s, n.id)
    ensures var t' := Networked(f, t, n);
            && Underway(f, nics0, t'.l.k.nics, all, m + 1, t'.ifs) && DhcpJail(n.id) in t'.l.k.jails
            && PidsOk(t'.s) && OnlyNetwork(t.s, t'.s, n.id) && InForce(t'.s, n)
            && (AllOk(t.l.receipts) ==> AllOk(t'.l.receipts))
  {
    IsFaultFree(f, nics0, t.l.k.nics, all, m, t.ifs);
    hide Sound, PortEnsured, Present, EnsuredIfs, ServedBy, JailEnsured, FilesNoted, Tourable, Underway, AllOk, PidsOk, Honest,
      OnlyNetwork, Served, InForce, Filed, FilesDiffer, Written, FaultFree, NetSpec, DhcpJail;
    FilesNotedIs(t.l, t.s, n);
    var l0 := FilesNoted(t.l, t.s, n);
    JailEnsuredIs(f, l0, DhcpJail(n.id));
    var l1 := JailEnsured(f, l0, DhcpJail(n.id));
    NetSpecJail(n);
    OneTours(f, nics0, l1, all, m, t.ifs);
    PortOnly(f, l1, NetSpec(n));
    var l2, s1, dirty := PortEnsured(f, l1, NetSpec(n)), Filed(t.s, n), FilesDiffer(t.s, n);
    FiledOnly(t.s, n);
    FiledIsWritten(t.s, n);
    WrittenThere(s1, n, dirty);
    ServedByInForce(f, l2, s1, n, dirty);
    ServedInForce(s1, n, dirty);
    FiledPids(t.s, n);
    OnlyTwice(t.s, s1, Served(s1, n, dirty), n.id);
  }

  lemma NetSpecJail(n: Network)
    ensures NetSpec(n).pair.jail == DhcpJail(n.id)
  {
  }

  lemma FiledPids(s: Service, n: Network)
    ensures Filed(s, n).pidFile == s.pidFile
  {
  }

  lemma WrittenThere(s: Service, n: Network, dirty: bool)
    requires Written(s, n, dirty)
    ensures n.id in s.dirs && "hosts" in s.dirs[n.id] && "opts" in s.dirs[n.id]
  {
  }

  /** A network that is served is left alone. */
  lemma NetworkedQuiet(f: Faults, t: Stage, n: Network)
    requires InForce(t.s, n) && SpecDone(t.l.k.nics, NetSpec(n)) && DhcpJail(n.id) in t.l.k.jails && Functional(n.ips)
    ensures Networked(f, t, n) == t
  {
    FiledIsWritten(t.s, n);
    FilesNotedIs(t.l, t.s, n);
    PortQuiet(f, t.l, NetSpec(n));
    ServedByInForce(f, t.l, t.s, n, false);
    assert Both(t.l.k.nics, NetSpec(n).pair);
    hide ServedBy, PortEnsured, FilesNoted, InForce, Filed, FilesDiffer, SpecDone, Functional;
  }

  // ------------------------------------------------------------------ the whole pass

  /** What the loop over the networks has made of the plane, with no faults. */
  ghost predicate NetsReached(f: Faults, k0: World, t: Stage, desired: seq<Network>, n: nat)
    requires n <= |desired|
  {
    && Sound(t.l.k) && Underway(f, k0.nics, t.l.k.nics, NetSpecs(desired), n, t.ifs) && AllOk(t.l.receipts)
    && PidsOk(t.s) && AllInForce(t.s, desired, n) && HonestFrom(t.s, desired, n)
    && (forall i :: 0 <= i < n ==> DhcpJail(desired[i].id) in t.l.k.jails)
  }

  lemma NetsReachedFirst(f: Faults, k: World, s: Service, desired: seq<Network>)
    requires FaultFree(f) && Sound(k) && AllHonest(s)
    ensures NetsReached(f, k, Begun(k, s), desired, 0)
  {
    TourBegins(k.nics, NetSpecs(desired));
    assert Grouped(k.nics) + HostsOf(NetSpecs(desired), 0) == Grouped(k.nics);
  }

  lemma NetsReachMore(f: Faults, k0: World, t: Stage, desired: seq<Network>, n: nat)
    requires DistinctNetworks(desired) && AllKin(k0.nics, NetSpecs(desired)) && n < |desired| && NetsReached(f, k0, t, desired, n)
    ensures NetsReached(f, k0, Networked(f, t, desired[n]), desired, n + 1)
  {
    var t' := Networked(f, t, desired[n]);
    assert Tourable(k0.nics, NetSpecs(desired));
    hide Sound, Underway, Tourable, AllKin, Apart, AllFunctional, AllOk, PidsOk, Honest, InForce, OnlyNetwork, Networked,
      NetSpec, DhcpJail, PortEnsured, FaultFree;
    NetworkedFine(f, k0.nics, t, NetSpecs(desired), n, desired[n]);
    NetworkedKernel(f, t, desired[n]);
    ServiceStep(t.s, t'.s, desired, n);
    hide AllInForce, HonestFrom;
    forall i | 0 <= i < n + 1 ensures DhcpJail(desired[i].id) in t'.l.k.jails {}
  }

  lemma {:induction false} NetsReach(f: Faults, k0: World, t: Stage, desired: seq<Network>, n: nat)
    requires DistinctNetworks(desired) && AllKin(k0.nics, NetSpecs(desired)) && n <= |desired| && NetsReached(f, k0, t, desired, 0)
    ensures NetsReached(f, k0, EachNetworked(f, t, desired[..n]), desired, n)
    decreases n
  {
    hide DistinctNetworks, AllKin, NetsReached, Networked;
    if n > 0 {
      assert desired[..n][..n - 1] == desired[..n - 1];
      NetsReach(f, k0, t, desired, n - 1);
      NetsReachMore(f, k0, EachNetworked(f, t, desired[..n - 1]), desired, n - 1);
    }
  }

  /** What a pass that began with k0 provides: every desired network has its jail, its epair up and a
      dnsmasq in force; no other jail, host interface or directory is left; nothing lies. */
  ghost predicate Provided(k0: World, k: World, s: Service, desired: seq<Network>) {
    && AllHonest(s) && AllInForce(s, desired, |desired|)
    && k.jails.Keys == Jails(desired) && Grouped(k.nics) == Hosts(desired) && s.dirs.Keys == Ids(desired)
    && PortsAs(k0.nics, k.nics, NetSpecs(desired), |desired|)
  }

  lemma HostsAre(desired: seq<Network>)
    ensures HostsOf(NetSpecs(desired), |desired|) == Hosts(desired)
    ensures forall a :: 0 <= a < |desired| ==> NetSpecs(desired)[a].pair.jail in Jails(desired)
  {
  }

  lemma RetiredProvides(f: Faults, k0: World, t: Stage, desired: seq<Network>)
    requires NetsReached(f, k0, t, desired, |desired|) && AllKin(k0.nics, NetSpecs(desired))
    ensures var t' := Retired(f, t, desired);
            && Sound(t'.l.k) && Provided(k0, t'.l.k, t'.s, desired) && Remains(k0.nics, t'.l.k.nics, NetSpecs(desired), t'.l.k.jails.Keys)
            && (AllOk(t'.l.receipts) <==> !SomeUsurped(k0.nics, NetSpecs(desired)))
  {
    var doomed := t.l.k.jails.Keys - Jails(desired);
    var l := Torn(f, t.l, doomed, t.ifs - Hosts(desired));
    HostsAre(desired);
    AllNotedOk(l, Sorted(StaleIds(t.s, desired)));
    hide AllNoted, Sound, Toured, AllKin, Torn, AllOk, SomeUsurped, PortsAs, FaultFree, PidsOk, AllInForce, HonestFrom,
      AllHonest, Jails, Hosts, Ids, Grouped, HostsOf, JailsLess, DhcpJail;
    TourEnds(f, k0.nics, t.l, NetSpecs(desired), doomed);
    DesiredAreThere(t.l.k, desired);
    DesiredLive(f, t, desired);
    RetiredInForce(t.s, Living(f, t, desired), desired);
  }

  /** No process of a desired jail is killed. */
  lemma DesiredLive(f: Faults, t: Stage, desired: seq<Network>)
    ensures forall j :: j in Jails(desired) ==>
              (j in Living(f, t, desired) <==> j in Torn(f, t.l, t.l.k.jails.Keys - Jails(desired), t.ifs - Hosts(desired)).k.jails)
  {
    hide Killed, Torn, Jails;
  }

  lemma DesiredAreThere(k: World, desired: seq<Network>)
    requires forall i :: 0 <= i < |desired| ==> DhcpJail(desired[i].id) in k.jails
    ensures Jails(desired) <= k.jails.Keys
  {
  }

  /** A fault-free pass over an honest plane, from any half-states, provides what is desired. Its
      receipts are all ok if and only if no undesired interface of the group had its peer under the
      name of a desired one. */
  lemma PassProvides(f: Faults, k: World, s: Service, desired: seq<Network>)
    requires FaultFree(f) && Sound(k) && DistinctNetworks(desired) && AllKin(k.nics, NetSpecs(desired)) && AllHonest(s)
    ensures var t := Passed(f, k, s, desired);
            && Sound(t.l.k) && Provided(k, t.l.k, t.s, desired) && Remains(k.nics, t.l.k.nics, NetSpecs(desired), t.l.k.jails.Keys)
            && (AllOk(t.l.receipts) <==> !SomeUsurped(k.nics, NetSpecs(desired)))
  {
    hide Sound, DistinctNetworks, AllKin, AllHonest, NetsReached, EachNetworked, Retired, Begun, Provided, Remains, AllOk,
      SomeUsurped, FaultFree;
    NetsReachedFirst(f, k, s, desired);
    NetsReach(f, k, Begun(k, s), desired, |desired|);
    assert desired[..|desired|] == desired;
    RetiredProvides(f, k, EachNetworked(f, Begun(k, s), desired), desired);
  }

  // ------------------------------------------------------------ whatever fails

  lemma {:induction false} NetsKin(f: Faults, t: Stage, desired: seq<Network>, n: nat)
    requires Sound(t.l.k) && n <= |desired| && Apart(NetSpecs(desired))
    ensures Sound(EachNetworked(f, t, desired[..n]).l.k)
    ensures HalvesGo(f, NetSpecs(desired)) && AllKin(t.l.k.nics, NetSpecs(desired)) ==>
        AllKin(EachNetworked(f, t, desired[..n]).l.k.nics, NetSpecs(desired))
    decreases n
  {
    hide Sound, AllKin, HalvesGo, Apart, Networked, PortEnsured, JailEnsured, FilesNoted;
    if n > 0 {
      assert desired[..n][..n - 1] == desired[..n - 1];
      NetsKin(f, t, desired, n - 1);
      var t1 := EachNetworked(f, t, desired[..n - 1]);
      NetworkedKernel(f, t1, desired[n - 1]);
      var l := JailEnsured(f, FilesNoted(t1.l, t1.s, desired[n - 1]), DhcpJail(desired[n - 1].id));
      assert NetSpecs(desired)[n - 1] == NetSpec(desired[n - 1]);
      if HalvesGo(f, NetSpecs(desired)) && AllKin(t.l.k.nics, NetSpecs(desired)) {
        KinStep(f, l, NetSpecs(desired), n - 1);
      }
    }
  }

  /** Whatever fails, the plane stays sound; and if the broken halves of desired epairs can be
      destroyed, a later pass can still provide the networks. */
  lemma PassKin(f: Faults, k: World, s: Service, desired: seq<Network>)
    requires Sound(k) && Apart(NetSpecs(desired)) && AllKin(k.nics, NetSpecs(desired))
    ensures var t := Passed(f, k, s, desired);
            Sound(t.l.k) && (HalvesGo(f, NetSpecs(desired)) ==> AllKin(t.l.k.nics, NetSpecs(desired)))
  {
    hide Sound, AllKin, HalvesGo, Apart, EachNetworked, Torn, AllNoted;
    var t, specs := EachNetworked(f, Begun(k, s), desired), NetSpecs(desired);
    NetsKin(f, Begun(k, s), desired, |desired|);
    assert desired[..|desired|] == desired;
    var doomed := t.l.k.jails.Keys - Jails(desired);
    HostsAre(desired);
    TornIs(f, t.l, doomed, t.ifs - Hosts(desired));
    AllNotedOk(Torn(f, t.l, doomed, t.ifs - Hosts(desired)), Sorted(StaleIds(t.s, desired)));
    if AllKin(t.l.k.nics, specs) {
      KinEnds(f, t.l, specs, doomed, t.ifs);
    }
  }

  // -------------------------------------------------------------------- at rest

  /** Everything desired is there and in force, and nothing else. */
  ghost predicate Rested(k: World, s: Service, desired: seq<Network>) {
    && k.jails.Keys == Jails(desired) && Grouped(k.nics) == Hosts(desired) && s.dirs.Keys == Ids(desired)
    && AllInForce(s, desired, |desired|) && AllDone(k.nics, NetSpecs(desired))
    && (forall pid :: pid in s.procs ==> s.procs[pid].jail in k.jails)
  }

  lemma NetworkRests(k: World, s: Service, desired: seq<Network>, i: nat)
    requires Rested(k, s, desired) && AllFunctional(NetSpecs(desired)) && i < |desired|
    ensures InForce(s, desired[i]) && SpecDone(k.nics, NetSpec(desired[i])) && DhcpJail(desired[i].id) in k.jails && Functional(desired[i].ips)
  {
    hide InForce, SpecDone, Functional, DhcpJail, Grouped;
    assert NetSpecs(desired)[i].ips == desired[i].ips;
    assert DhcpJail(desired[i].id) in Jails(desired);
  }

  lemma {:induction false} NetsQuiet(f: Faults, t: Stage, desired: seq<Network>, n: nat)
    requires n <= |desired| && AllFunctional(NetSpecs(desired)) && Rested(t.l.k, t.s, desired)
    ensures EachNetworked(f, t, desired[..n]) == t
    decreases n
  {
    hide Rested, AllFunctional, Networked, InForce, SpecDone, Functional, DhcpJail;
    if n > 0 {
      assert desired[..n][..n - 1] == desired[..n - 1];
      NetsQuiet(f, t, desired, n - 1);
      NetworkRests(t.l.k, t.s, desired, n - 1);
      NetworkedQuiet(f, t, desired[n - 1]);
    }
  }

  lemma RestedRetires(f: Faults, k: World, s: Service, desired: seq<Network>)
    requires Rested(k, s, desired)
    ensures Retired(f, Begun(k, s), desired) == Begun(k, s)
  {
    hide AllDone, AllInForce, Torn, Jails, Hosts, Ids, Grouped;
    TornNothing(f, Log(k, []));
    assert k.jails.Keys - Jails(desired) == {} && Grouped(k.nics) - Hosts(desired) == {};
    assert StaleIds(s, desired) == {};
    NoElements(Sorted(StaleIds(s, desired)));
    assert Reaped(s, k.jails.Keys).procs == s.procs;
    NoKills(f, Log(k, []));
  }

  /** A plane at rest is left alone, without a command or a receipt. */
  lemma PassQuiet(f: Faults, k: World, s: Service, desired: seq<Network>)
    requires AllFunctional(NetSpecs(desired)) && Rested(k, s, desired)
    ensures Passed(f, k, s, desired) == Begun(k, s)
  {
    hide EachNetworked, Rested, Retired, AllFunctional, Begun;
    assert desired[..|desired|] == desired;
    BegunIs(k, s);
    NetsQuiet(f, Begun(k, s), desired, |desired|);
    RestedRetires(f, k, s, desired);
  }

  lemma BegunIs(k: World, s: Service)
    ensures Begun(k, s).l.k == k && Begun(k, s).s == s
  {
  }

  // ------------------------------------------------------------ a replaced port

  /** A network served before keeps its jail, but no desired port has its host interface's name. */
  ghost predicate PortReplaced(before: seq<Network>, desired: seq<Network>) {
    exists a :: 0 <= a < |before| && DhcpJail(before[a].id) in Jails(desired) && DhcpIfName(before[a].port) !in Hosts(desired)
  }

  lemma OneUsurped(k0: World, k: World, before: seq<Network>, desired: seq<Network>, a: nat)
    requires PortsAs(k0.nics, k.nics, NetSpecs(before), |before|) && a < |before|
    ensures Usurped(k.nics, HostAt(DhcpIfName(before[a].port)), NetSpecs(desired), |desired|) <==> DhcpJail(before[a].id) in Jails(desired)
  {
    hide DhcpJail, DhcpIfName, Renumbered;
    var specs := NetSpecs(desired);
    assert NetSpecs(before)[a] == NetSpec(before[a]) && PortAs(k0.nics, k.nics, NetSpecs(before)[a]);
    if DhcpJail(before[a].id) in Jails(desired) {
      var i :| 0 <= i < |desired| && DhcpJail(desired[i].id) == DhcpJail(before[a].id);
      assert specs[i] == NetSpec(desired[i]);
    }
  }

  lemma UsurpedIffReplaced(k0: World, k: World, s: Service, before: seq<Network>, desired: seq<Network>)
    requires Provided(k0, k, s, before)
    ensures SomeUsurped(k.nics, NetSpecs(desired)) <==> PortReplaced(before, desired)
  {
    hide AllHonest, AllInForce, DhcpJail, DhcpIfName, Renumbered, HostsOf, Usurped, PortsAs, Grouped, Jails;
    var specs := NetSpecs(desired);
    HostsAre(desired);
    forall a | 0 <= a < |before|
      ensures DhcpIfName(before[a].port) in Grouped(k.nics)
      ensures Usurped(k.nics, HostAt(DhcpIfName(before[a].port)), specs, |specs|) <==> DhcpJail(before[a].id) in Jails(desired)
    {
      OneUsurped(k0, k, before, desired, a);
    }
  }

  /** After a pass that provided some networks, the receipts of the next are all ok if and only if no
      network it keeps has had its port replaced. When one has, the new epair takes the old one along,
      and the destroy of the old host interface finds nothing. */
  lemma ReceiptsTellReplacedPorts(f: Faults, k0: World, k: World, s: Service, before: seq<Network>, desired: seq<Network>)
    requires FaultFree(f) && Sound(k) && Provided(k0, k, s, before)
    requires DistinctNetworks(desired) && AllKin(k.nics, NetSpecs(desired))
    ensures AllOk(Passed(f, k, s, desired).l.receipts) <==> !PortReplaced(before, desired)
  {
    hide Sound, DistinctNetworks, AllKin, Passed, AllOk, PortReplaced, SomeUsurped, FaultFree, Provided;
    ProvidedHonest(k0, k, s, before);
    PassProvides(f, k, s, desired);
    UsurpedIffReplaced(k0, k, s, before, desired);
  }

  // ------------------------------------------------------- passes, deaths, and time

  /** What happens in the life of a host: a pass over the networks desired then, or deaths. */
  datatype Turn = Pass(desired: seq<Network>) | Deaths(dead: set<nat>)

  datatype Life = Life(k: World, s: Service)

  function Died(s: Service, dead: set<nat>): Service {
    s.(procs := s.procs - dead)
  }

  ghost function Turned(f: Faults, life: Life, turn: Turn): Life {
    match turn
    case Pass(desired) => var t := Passed(f, life.k, life.s, desired); Life(t.l.k, t.s)
    case Deaths(dead) => Life(life.k, Died(life.s, dead))
  }

  ghost function Lived(f: Faults, life: Life, turns: seq<Turn>): Life {
    if turns == [] then life else Turned(f, Lived(f, life, turns[..|turns| - 1]), turns[|turns| - 1])
  }

  /** n is desired by some pass of the run. */
  ghost predicate Concerns(turns: seq<Turn>, n: Network) {
    exists i, a :: 0 <= i < |turns| && turns[i].Pass? && 0 <= a < |turns[i].desired| && turns[i].desired[a] == n
  }

  /** Each pass has networks that can be told apart, and a port never changes its network. */
  ghost predicate Orderly(turns: seq<Turn>) {
    && (forall i :: 0 <= i < |turns| && turns[i].Pass? ==> DistinctNetworks(turns[i].desired))
    && (forall n, m :: Concerns(turns, n) && Concerns(turns, m) && DhcpIfName(n.port) == DhcpIfName(m.port) ==> DhcpJail(n.id) == DhcpJail(m.id))
  }

  /** A host interface under the name of some port of the run is in the group, and its mate is the
      port's jail end if that is there. */
  ghost predicate Fit(k: World, turns: seq<Turn>) {
    forall n :: Concerns(turns, n) ==>
                  Kin(k.nics, NetSpec(n).pair) && (HostAt(DhcpIfName(n.port)) in k.nics ==> k.nics[HostAt(DhcpIfName(n.port))].grouped)
  }

  lemma FitKin(k: World, turns: seq<Turn>, i: nat)
    requires Fit(k, turns) && i < |turns| && turns[i].Pass?
    ensures AllKin(k.nics, NetSpecs(turns[i].desired))
  {
    var desired := turns[i].desired;
    forall a | 0 <= a < |desired| ensures Kin(k.nics, NetSpecs(desired)[a].pair) {
      assert Concerns(turns, desired[a]);
    }
  }

  /** A fault-free pass leaves a plane fit for every pass to come, whatever networks have gone and
      whichever ports were replaced. */
  lemma PassFits(k0: World, k: World, s: Service, turns: seq<Turn>, i: nat)
    requires Orderly(turns) && Fit(k0, turns) && i < |turns| && turns[i].Pass?
    requires Provided(k0, k, s, turns[i].desired) && Remains(k0.nics, k.nics, NetSpecs(turns[i].desired), k.jails.Keys)
    ensures Fit(k, turns)
  {
    var desired := turns[i].desired;
    hide AllHonest, AllInForce, DhcpJail, DhcpIfName, DistinctNetworks, Renumbered, EndOf, HostsOf;
    forall n | Concerns(turns, n)
      ensures Kin(k.nics, NetSpec(n).pair) && (HostAt(DhcpIfName(n.port)) in k.nics ==> k.nics[HostAt(DhcpIfName(n.port))].grouped)
    {
      if HostAt(DhcpIfName(n.port)) in k.nics {
        HostEnds(DhcpIfName(n.port), NetSpecs(desired), |desired|);
        if !EndOf(HostAt(DhcpIfName(n.port)), NetSpecs(desired), |desired|) {
          RemainsOld(k0.nics, k.nics, NetSpecs(desired), k.jails.Keys, HostAt(DhcpIfName(n.port)));
        }
        HostsAre(desired);
        assert DhcpIfName(n.port) in Hosts(desired);
        var a :| 0 <= a < |desired| && DhcpIfName(desired[a].port) == DhcpIfName(n.port);
        assert Concerns(turns, desired[a]) && NetSpecs(desired)[a] == NetSpec(desired[a]);
        assert PortAs(k0.nics, k.nics, NetSpecs(desired)[a]);
      }
    }
  }

  /** How a turn leaves things: nothing lies, and after a pass what it wanted is provided. */
  ghost predicate TurnedOut(before: Life, after: Life, turn: Turn) {
    && AllHonest(after.s)
    && (turn.Pass? ==> Provided(before.k, after.k, after.s, turn.desired))
  }

  lemma {:induction false} LifeStaysFit(f: Faults, life: Life, turns: seq<Turn>, n: nat)
    requires FaultFree(f) && Sound(life.k) && AllHonest(life.s) && Orderly(turns) && Fit(life.k, turns) && n <= |turns|
    ensures var now := Lived(f, life, turns[..n]); Sound(now.k) && AllHonest(now.s) && Fit(now.k, turns)
    ensures n > 0 ==> TurnedOut(Lived(f, life, turns[..n - 1]), Lived(f, life, turns[..n]), turns[n - 1])
    decreases n
  {
    hide FaultFree, Sound, AllHonest, Orderly, Fit, Passed, Provided, Remains, DistinctNetworks;
    if n > 0 {
      assert turns[..n][..n - 1] == turns[..n - 1];
      LifeStaysFit(f, life, turns, n - 1);
      var before := Lived(f, life, turns[..n - 1]);
      match turns[n - 1]
      case Pass(desired) =>
        FitKin(before.k, turns, n - 1);
        OrderlyPass(turns, n - 1);
        PassProvides(f, before.k, before.s, desired);
        var t := Passed(f, before.k, before.s, desired);
        PassFits(before.k, t.l.k, t.s, turns, n - 1);
        ProvidedHonest(before.k, t.l.k, t.s, desired);
      case Deaths(dead) => DeathsAreHonest(before.s, dead);
    }
  }

  lemma OrderlyPass(turns: seq<Turn>, i: nat)
    requires Orderly(turns) && i < |turns| && turns[i].Pass?
    ensures DistinctNetworks(turns[i].desired)
  {
  }

  lemma ProvidedHonest(k0: World, k: World, s: Service, desired: seq<Network>)
    requires Provided(k0, k, s, desired)
    ensures AllHonest(s)
  {
  }

  /** Over every run of fault-free passes, each with networks of its own, and of deaths of any dnsmasq
      in between: a live dnsmasq always runs the stored command line with the files as they are, and
      after each pass exactly the networks it wanted are provided. */
  lemma EveryPassProvides(f: Faults, life: Life, turns: seq<Turn>)
    requires FaultFree(f) && Sound(life.k) && AllHonest(life.s) && Orderly(turns) && Fit(life.k, turns)
    ensures forall n :: 0 < n <= |turns| ==> TurnedOut(Lived(f, life, turns[..n - 1]), Lived(f, life, turns[..n]), turns[n - 1])
  {
    forall n | 0 < n <= |turns| ensures TurnedOut(Lived(f, life, turns[..n - 1]), Lived(f, life, turns[..n]), turns[n - 1]) {
      LifeStaysFit(f, life, turns, n);
    }
  }

  // ------------------------------------------------------------------- the object

  class DhcpHost {
    const acts: Actions
    const disk: StateDirs
    var procs: map<nat, Proc>
    var next: nat
    var pidFile: map<Name, nat>

    constructor (acts: Actions, disk: StateDirs, procs: map<nat, Proc>, next: nat, pidFile: map<Name, nat>)
      ensures this.acts == acts && this.disk == disk && Now() == Service(procs, next, pidFile, disk.dirs)
    {
      this.acts, this.disk, this.procs, this.next, this.pidFile := acts, disk, procs, next, pidFile;
    }

    function Now(): Service
      reads this, disk
    {
      Service(procs, next, pidFile, disk.dirs)
    }

    /** Restart on a changed command line, HUP on changed files, otherwise nothing. */
    method Serve(n: Network, dirty: bool)
      requires n.id in disk.dirs && "hosts" in disk.dirs[n.id] && "opts" in disk.dirs[n.id]
      modifies this, acts, disk
      ensures (acts.Now(), Now()) == ServedBy(acts.faults, old(acts.Now()), old(Now()), n, dirty)
    {
      hide Try, Works, DhcpJail;
      var stored := if "cmd" in disk.dirs[n.id] then disk.dirs[n.id]["cmd"] else "";
      var alive := n.id in pidFile && pidFile[n.id] in procs;
      if alive && stored != n.argv {
        var ok := acts.Do(StopDnsmasq(pidFile[n.id]));
        if ok {
          procs := procs - {pidFile[n.id]};
        }
        alive := false;
      }
      if !alive {
        Launch(n);
      } else if dirty {
        var ok := acts.Do(ReloadDnsmasq(pidFile[n.id]));
        if ok {
          procs := procs[pidFile[n.id] := procs[pidFile[n.id]].(hosts := disk.dirs[n.id]["hosts"], opts := disk.dirs[n.id]["opts"])];
        }
      }
    }

    /** Store the command line and start dnsmasq. */
    method Launch(n: Network)
      requires n.id in disk.dirs && "hosts" in disk.dirs[n.id] && "opts" in disk.dirs[n.id]
      modifies this, acts, disk
      ensures (acts.Now(), Now()) == Started(acts.faults, old(acts.Now()), old(Now()), n)
    {
      hide Try, Works, DhcpJail;
      var _ := disk.WriteIfChanged(n.id, "cmd", n.argv);
      var ok := acts.Do(StartDnsmasq(DhcpJail(n.id), n.argv));
      if ok {
        // dnsmasq reads its files and writes its pid
        procs := procs[next := Proc(DhcpJail(n.id), n.argv, disk.dirs[n.id]["hosts"], disk.dirs[n.id]["opts"])];
        pidFile := pidFile[n.id := next];
        next := next + 1;
      }
    }

    /** Write the hosts and opts files; whether either changed. */
    method WriteFiles(n: Network) returns (dirty: bool)
      modifies acts, disk
      ensures acts.Now() == FilesNoted(old(acts.Now()), old(Now()), n) && Now() == Filed(old(Now()), n) && dirty == FilesDiffer(old(Now()), n)
      ensures acts.k == old(acts.k)
    {
      hide Noted, AllOk;
      disk.MakeDir(n.id);
      dirty := disk.WriteIfChanged(n.id, "hosts", n.hosts);
      if dirty {
        acts.Note("WriteHosts", n.id);
      }
      var changed := disk.WriteIfChanged(n.id, "opts", n.opts);
      if changed {
        dirty := true;
        acts.Note("WriteOpts", n.id);
      }
    }

    /** One network: files, jail, epair, addresses, dnsmasq. */
    method OneNetwork(n: Network, jails: set<Name>, dhcpIfs: set<Name>) returns (jails': set<Name>, dhcpIfs': set<Name>)
      requires jails == acts.k.jails.Keys
      modifies this, acts, disk
      ensures Stage(acts.Now(), Now(), dhcpIfs') == Networked(acts.faults, Stage(old(acts.Now()), old(Now()), dhcpIfs), n)
      ensures jails' == acts.k.jails.Keys
    {
      hide FilesNoted, Filed, FilesDiffer, JailEnsured, PortEnsured, Present, EnsuredIfs, ServedBy, DhcpJail, NetSpec;
      dhcpIfs' := dhcpIfs;
      ghost var t := Stage(acts.Now(), Now(), dhcpIfs);
      FiledThere(Now(), n);
      var dirty := WriteFiles(n);
      var ok;
      ok, jails' := acts.EnsureJail(DhcpJail(n.id), jails);
      if !ok {
        return;
      }
      ghost var l := acts.Now();
      PortJails(acts.faults, l, NetSpec(n));
      var present;
      present, dhcpIfs' := OnePort(acts, NetSpec(n), dhcpIfs);
      if present {
        ServedJails(acts.faults, acts.Now(), Now(), n, dirty);
        Serve(n, dirty);
      }
    }

    method EachNetwork(desired: seq<Network>) returns (jails: set<Name>, dhcpIfs: set<Name>)
      modifies this, acts, disk
      ensures Stage(acts.Now(), Now(), dhcpIfs) == EachNetworked(acts.faults, Stage(old(acts.Now()), old(Now()), Grouped(old(acts.k).nics)), desired)
      ensures jails == acts.k.jails.Keys
    {
      hide Networked, Grouped;
      jails, dhcpIfs := acts.k.jails.Keys, Grouped(acts.k.nics);
      ghost var t := Stage(acts.Now(), Now(), dhcpIfs);
      for n := 0 to |desired|
        invariant Stage(acts.Now(), Now(), dhcpIfs) == EachNetworked(acts.faults, t, desired[..n])
        invariant jails == acts.k.jails.Keys
      {
        assert desired[..n + 1][..n] == desired[..n];
        jails, dhcpIfs := OneNetwork(desired[n], jails, dhcpIfs);
      }
      assert desired[..|desired|] == desired;
    }

    /** The functional `Retired`. */
    method Retire(desired: seq<Network>, jails: set<Name>, dhcpIfs: set<Name>)
      requires jails == acts.k.jails.Keys
      modifies this, acts, disk
      ensures Stage(acts.Now(), Now(), dhcpIfs) == Retired(acts.faults, Stage(old(acts.Now()), old(Now()), dhcpIfs), desired)
    {
      hide Torn, AllNoted, Jails, Hosts, Ids;
      ghost var l, s := acts.Now(), Now();
      var killed := acts.Collect(jails, Jails(desired), dhcpIfs, Hosts(desired));
      // a jail's processes go when they are killed, and with it
      procs := map pid | pid in procs && procs[pid].jail in acts.k.jails.Keys - killed :: procs[pid];
      var stale := disk.RemoveStale(Ids(desired));
      pidFile := pidFile - stale;
      RecordStale(acts, stale);
    }

    /** The functional pass, `Passed`, from whatever there is. */
    method Reconcile(desired: seq<Network>)
      requires acts.receipts == []
      modifies this, acts, disk
      ensures acts.Now() == Passed(acts.faults, old(acts.k), old(Now()), desired).l
      ensures Now() == Passed(acts.faults, old(acts.k), old(Now()), desired).s
    {
      hide EachNetworked, Retired;
      ghost var k, s := acts.k, Now();
      assert Begun(k, s) == Stage(acts.Now(), s, Grouped(acts.k.nics));
      var jails, dhcpIfs := EachNetwork(desired);
      Retire(desired, jails, dhcpIfs);
    }
  }

  lemma FiledThere(s: Service, n: Network)
    ensures n.id in Filed(s, n).dirs && "hosts" in Filed(s, n).dirs[n.id] && "opts" in Filed(s, n).dirs[n.id]
  {
  }

  lemma ServedJails(f: Faults, l: Log, s: Service, n: Network, dirty: bool)
    requires n.id in s.dirs && "hosts" in s.dirs[n.id] && "opts" in s.dirs[n.id]
    ensures ServedBy(f, l, s, n, dirty).0.k.jails == l.k.jails
  {
    ServedByInForce(f, l, s, n, dirty);
  }
}
