/**
 Jail and epair plumbing (jail.py). Every command is tried and recorded; `Faults` says which
 ones fail for no reason of the kernel's.
 */
module Plumbing {
  import opened Collections
  import opened Model
  import opened JailPlane

  datatype Done = Did(cmd: Cmd, ok: bool) | Wrote(file: string, text: string)

  datatype Log = Log(k: World, receipts: seq<Done>)

  type Faults = (nat, Cmd) -> bool

  predicate Works(f: Faults, l: Log, c: Cmd) {
    Enabled(c, l.k) && !f(|l.receipts|, c)
  }

  function Try(f: Faults, l: Log, c: Cmd): Log {
    Log(if Works(f, l, c) then Effect(c, l.k) else l.k, l.receipts + [Did(c, Works(f, l, c))])
  }

  predicate WentWell(d: Done) {
    d.Did? ==> d.ok
  }

  predicate AllOk(receipts: seq<Done>) {
    forall i :: 0 <= i < |receipts| ==> WentWell(receipts[i])
  }

  /** A file action leaves an ok receipt. */
  function Noted(l: Log, file: string, text: string): Log {
    l.(receipts := l.receipts + [Wrote(file, text)])
  }

  lemma NotedOk(l: Log, file: string, text: string)
    ensures AllOk(Noted(l, file, text).receipts) <==> AllOk(l.receipts)
  {
    if AllOk(Noted(l, file, text).receipts) {
      forall i | 0 <= i < |l.receipts| ensures WentWell(l.receipts[i]) {
        assert l.receipts[i] == Noted(l, file, text).receipts[i];
      }
    }
  }

  ghost predicate FaultFree(f: Faults) {
    forall n: nat, c: Cmd :: !f(n, c)
  }

  // ------------------------------------------------------------------ one epair

  /** One desired epair: its jail, its two names, the description the L2 agent looks for. */
  datatype Pair = Pair(jail: Name, host: Name, inner: Name, descr: string) {
    function H(): Place {
      HostAt(host)
    }

    function I(): Place {
      InnerAt(jail, inner)
    }
  }

  /** The log once a half, if there is one, has been destroyed, or a whole epair's description corrected. */
  function Repaired(f: Faults, l: Log, p: Pair): Log {
    if p.H() in l.k.nics then
      if p.I() !in l.k.nics then Try(f, l, DestroyNic(p.H()))
      else if l.k.nics[p.H()].descr != p.descr then Try(f, l, FixDescr(p.host, p.descr))
      else l
    else if p.I() in l.k.nics then Try(f, l, DestroyNic(p.I()))
    else l
  }

  function Made(f: Faults, l: Log, p: Pair): Log {
    var n, l1 := l.k.next, Try(f, l, CreateEpair);
    if !Works(f, l, CreateEpair) then l1
    else Try(f, Try(f, Try(f, l1, NameHostIf(n, p.host, p.descr)), MoveJailIf(n, p.jail)), NameJailIf(n, p.jail, p.inner))
  }

  /** The log of one `ensure_epair`. */
  function Ensured(f: Faults, l: Log, p: Pair): Log {
    if p.H() in l.k.nics && p.I() in l.k.nics then Repaired(f, l, p) else Made(f, Repaired(f, l, p), p)
  }

  // -------------------------------------------------------------- two ends

  predicate IsUnit(x: NicName) {
    x.UnitA? || x.UnitB?
  }

  predicate Both(nics: Nics, p: Pair) {
    p.H() in nics && p.I() in nics
  }

  /** Where both ends of a desired epair are there, they are each other's and the host end is in
      the group. Of a half-state nothing is asked. */
  predicate Kin(nics: Nics, p: Pair) {
    Both(nics, p) ==> nics[p.H()].peer == Some(p.I()) && nics[p.H()].grouped
  }

  predicate PairUp(nics: Nics, p: Pair) {
    Both(nics, p) && nics[p.H()].peer == Some(p.I()) && nics[p.H()].grouped && nics[p.H()].descr == p.descr
  }

  /** Ends of two different epairs under the names of one. */
  predicate Crossed(nics: Nics, p: Pair) {
    Both(nics, p) && nics[p.H()].peer != Some(p.I())
  }

  function NicAt(nics: Nics, x: Place): Option<Nic> {
    if x in nics then Some(nics[x]) else None
  }

  predicate SameEnds(nics: Nics, nics': Nics, p: Pair) {
    NicAt(nics', p.H()) == NicAt(nics, p.H()) && NicAt(nics', p.I()) == NicAt(nics, p.I())
  }

  /** A whole epair is as it was; one that lacks an end still does. */
  predicate Spared(nics: Nics, nics': Nics, p: Pair) {
    if Both(nics, p) then SameEnds(nics, nics', p) else !Both(nics', p)
  }

  /** The end of p that is there without the other. */
  function Half(nics: Nics, p: Pair): (r: Option<Place>)
    ensures r.Some? ==> r.value in nics && r.value in {p.H(), p.I()}
  {
    if Both(nics, p) then None
    else if p.H() in nics then Some(p.H())
    else if p.I() in nics then Some(p.I())
    else None
  }

  /** What goes with the half when it is destroyed. */
  function Casualty(nics: Nics, p: Pair): Option<Place> {
    match Half(nics, p)
    case None => None
    case Some(h) => nics[h].peer
  }

  /** The addresses an existing jail end has when its port is reached. */
  function Before(nics: Nics, p: Pair): map<Addr, nat> {
    if Both(nics, p) then nics[p.I()].inets else map[]
  }

  /** The half that is there is destroyed. */
  predicate Mends(f: Faults, l: Log, p: Pair) {
    Half(l.k.nics, p).Some? && !f(|l.receipts|, DestroyNic(Half(l.k.nics, p).value))
  }

  // ------------------------------------------------------------------ soundness

  lemma TrySound(f: Faults, l: Log, c: Cmd)
    requires Sound(l.k)
    ensures Sound(Try(f, l, c).k)
  {
    if Works(f, l, c) {
      EffectSound(c, l.k);
    }
  }

  lemma EnsuredSound(f: Faults, l: Log, p: Pair)
    requires Sound(l.k)
    ensures Sound(Repaired(f, l, p).k) && Sound(Ensured(f, l, p).k)
  {
    hide Sound;
    forall l: Log, c: Cmd | Sound(l.k) ensures Sound(Try(f, l, c).k) {
      TrySound(f, l, c);
    }
    hide Works, Try;
  }

  // ------------------------------------------------------------- making an epair

  /** A pair numbered n is in the making: end A at pa, end B at pb, and nothing else changed. */
  ghost predicate Halves(base: Nics, nics: Nics, p: Pair, n: nat, pa: Place, pb: Place) {
    && pa in {Place(Host, UnitA(n)), p.H()}
    && pb in {Place(Host, UnitB(n)), Place(Inside(p.jail), UnitB(n)), p.I()}
    && pa !in base && pb !in base
    && nics == base[pa := Nic(Some(pb), pa == p.H(), if pa == p.H() then p.descr else "", "", map[])]
                   [pb := Nic(Some(pa), false, "", "", map[])]
  }

  ghost predicate Fresh(base: Nics, n: nat) {
    forall x :: x in base && IsUnit(x.name) ==> x.name.number < n
  }

  lemma CreateStep(l: Log, f: Faults, p: Pair)
    requires Sound(l.k) && Works(f, l, CreateEpair)
    ensures Fresh(l.k.nics, l.k.next) && Try(f, l, CreateEpair).k.jails == l.k.jails
    ensures Halves(l.k.nics, Try(f, l, CreateEpair).k.nics, p, l.k.next, Place(Host, UnitA(l.k.next)), Place(Host, UnitB(l.k.next)))
  {
  }

  lemma NameStep(f: Faults, l: Log, p: Pair, base: Nics, n: nat)
    requires Fresh(base, n)
    requires Halves(base, l.k.nics, p, n, Place(Host, UnitA(n)), Place(Host, UnitB(n)))
    ensures var c := NameHostIf(n, p.host, p.descr);
            && Halves(base, Try(f, l, c).k.nics, p, n, if Works(f, l, c) then p.H() else Place(Host, UnitA(n)), Place(Host, UnitB(n)))
            && Try(f, l, c).k.jails == l.k.jails
            && (Works(f, l, c) <==> p.H() !in base && !f(|l.receipts|, c))
  {
  }

  lemma MoveStep(f: Faults, l: Log, p: Pair, base: Nics, n: nat, pa: Place)
    requires Fresh(base, n) && Halves(base, l.k.nics, p, n, pa, Place(Host, UnitB(n)))
    ensures var c := MoveJailIf(n, p.jail);
            && Halves(base, Try(f, l, c).k.nics, p, n, pa, if Works(f, l, c) then Place(Inside(p.jail), UnitB(n)) else Place(Host, UnitB(n)))
            && Try(f, l, c).k.jails == l.k.jails
            && (Works(f, l, c) <==> p.jail in l.k.jails && !f(|l.receipts|, c))
  {
  }

  lemma InnerStep(f: Faults, l: Log, p: Pair, base: Nics, n: nat, pa: Place, pb: Place)
    requires Fresh(base, n) && Halves(base, l.k.nics, p, n, pa, pb) && pb != p.I()
    ensures var c := NameJailIf(n, p.jail, p.inner);
            && Halves(base, Try(f, l, c).k.nics, p, n, pa, if Works(f, l, c) then p.I() else pb)
            && Try(f, l, c).k.jails == l.k.jails
            && (Works(f, l, c) <==> pb == Place(Inside(p.jail), UnitB(n)) && p.I() !in base && !f(|l.receipts|, c))
  {
  }

  /** However making an epair goes, its two ends are each other's, wherever they got to. */
  lemma MadeHalves(f: Faults, l: Log, p: Pair) returns (pa: Place, pb: Place)
    requires Sound(l.k) && Works(f, l, CreateEpair)
    ensures Halves(l.k.nics, Made(f, l, p).k.nics, p, l.k.next, pa, pb)
    ensures var i := |l.receipts|;
            && (pa == p.H() <==> p.H() !in l.k.nics && !f(i + 1, NameHostIf(l.k.next, p.host, p.descr)))
            && (pb == p.I() <==> && p.I() !in l.k.nics && p.jail in l.k.jails
                                 && !f(i + 2, MoveJailIf(l.k.next, p.jail)) && !f(i + 3, NameJailIf(l.k.next, p.jail, p.inner)))
            && (pa == p.H() && pb == p.I() && AllOk(l.receipts) ==> AllOk(Made(f, l, p).receipts))
    ensures Made(f, l, p).k.jails == l.k.jails
  {
    hide Effect, Enabled, Works, Halves, Fresh, Sound;
    var n, base, a, b, inside := l.k.next, l.k.nics, Place(Host, UnitA(l.k.next)), Place(Host, UnitB(l.k.next)), Place(Inside(p.jail),
        UnitB(l.k.next));
    var name, move, rename := NameHostIf(n, p.host, p.descr), MoveJailIf(n, p.jail), NameJailIf(n, p.jail, p.inner);
    var l1 := Try(f, l, CreateEpair);
    CreateStep(l, f, p);
    var l2 := Try(f, l1, name);
    NameStep(f, l1, p, base, n);
    pa := if Works(f, l1, name) then p.H() else a;
    var l3 := Try(f, l2, move);
    MoveStep(f, l2, p, base, n, pa);
    pb := if Works(f, l2, move) then inside else b;
    InnerStep(f, l3, p, base, n, pa, pb);
    pb := if Works(f, l3, rename) then p.I() else pb;
    assert Made(f, l, p).receipts == l.receipts + [Did(CreateEpair, true), Did(name, Works(f, l1, name)), Did(move, Works(f, l2,
        move)), Did(rename, Works(f, l3, rename))];
  }

  lemma HalvesElsewhere(base: Nics, nics: Nics, p: Pair, n: nat, pa: Place, pb: Place, x: Place)
    requires Halves(base, nics, p, n, pa, pb) && x.name.Given? && x != p.H() && x != p.I()
    ensures NicAt(nics, x) == NicAt(base, x)
  {
  }

  /** The ends of p once its making is over, by which of them were there before. */
  lemma HalvesEnds(base: Nics, nics: Nics, p: Pair, n: nat, pa: Place, pb: Place)
    requires PeersMatch(base) && Halves(base, nics, p, n, pa, pb)
    ensures p.H() !in base && p.I() !in base ==> Kin(nics, p)
    ensures pa == p.H() && pb == p.I() ==> PairUp(nics, p) && nics[p.I()].inets == map[]
    ensures p.H() in base && p.I() !in base ==> (if pb == p.I() then Crossed(nics, p) else !Both(nics, p))
    ensures p.I() in base && p.H() !in base ==> (if pa == p.H() then Crossed(nics, p) else !Both(nics, p))
    ensures p.H() in base ==> nics[p.H()] == base[p.H()]
    ensures pa == p.H() ==> nics[p.H()].descr == p.descr
  {
  }

  // ------------------------------------------------------------------ one epair

  /** A repair destroys the half and what goes with it, or corrects a description, or does nothing. */
  lemma RepairedIs(f: Faults, l: Log, p: Pair)
    ensures var nics, nics' := l.k.nics, Repaired(f, l, p).k.nics;
            && Repaired(f, l, p).k.jails == l.k.jails && Repaired(f, l, p).k.next == l.k.next
            && (Mends(f, l, p) ==> nics' == Destroyed(nics, Half(nics, p).value))
            && (!Mends(f, l, p) && !Both(nics, p) ==> nics' == nics)
            && (Both(nics, p) ==> && nics'.Keys == nics.Keys && (forall x :: x in nics && x != p.H() ==> nics'[x] == nics[x])
                                  && nics'[p.H()] == nics[p.H()].(descr := nics'[p.H()].descr)
                                  && (FaultFree(f) ==> nics'[p.H()].descr == p.descr))
    ensures Half(l.k.nics, p).Some? ==> |Repaired(f, l, p).receipts| == |l.receipts| + 1
    ensures FaultFree(f) && AllOk(l.receipts) ==> AllOk(Repaired(f, l, p).receipts)
    ensures Half(l.k.nics, p).None? && !Both(l.k.nics, p) ==> Repaired(f, l, p) == l
  {
  }

  /** What `ensure_epair` does to every other named interface, whatever fails: nothing, unless it is
      the other end of a half that is destroyed. */
  lemma EnsuredOther(f: Faults, l: Log, p: Pair, x: Place)
    requires Sound(l.k) && x.name.Given? && x != p.H() && x != p.I()
    ensures NicAt(Ensured(f, l, p).k.nics, x) ==
            if Mends(f, l, p) && Casualty(l.k.nics, p) == Some(x) then None else NicAt(l.k.nics, x)
  {
    RepairedIs(f, l, p);
    EnsuredSound(f, l, p);
    var l1 := Repaired(f, l, p);
    if !Both(l.k.nics, p) && Works(f, l1, CreateEpair) {
      var pa, pb := MadeHalves(f, l1, p);
      HalvesElsewhere(l1.k.nics, Made(f, l1, p).k.nics, p, l1.k.next, pa, pb, x);
    }
  }

  /** Whatever fails, a kin epair of other ends is spared. */
  lemma EnsuredSpares(f: Faults, l: Log, p: Pair, q: Pair)
    requires Sound(l.k) && Kin(l.k.nics, q) && p.H() != q.H() && p.I() != q.I()
    ensures Spared(l.k.nics, Ensured(f, l, p).k.nics, q)
  {
    EnsuredOther(f, l, p, q.H());
    EnsuredOther(f, l, p, q.I());
    hide Ensured;
  }

  /** The one way two ends of different epairs come to be under p's names: the destroy of the half
      that is there fails, and the new epair's other end takes the name that was free. */
  predicate Mispairs(f: Faults, l: Log, p: Pair) {
    var i, n := |l.receipts|, l.k.next;
    match Half(l.k.nics, p)
    case None => false
    case Some(h) =>
      && f(i, DestroyNic(h)) && !f(i + 1, CreateEpair)
      && if h == p.H()
         then p.jail in l.k.jails && !f(i + 3, MoveJailIf(n, p.jail)) && !f(i + 4, NameJailIf(n, p.jail, p.inner))
         else !f(i + 2, NameHostIf(n, p.host, p.descr))
  }

  lemma MadeJails(f: Faults, l: Log, p: Pair)
    ensures Made(f, l, p).k.jails == l.k.jails
  {
  }

  lemma MadeNothing(f: Faults, l: Log, p: Pair)
    requires !Works(f, l, CreateEpair)
    ensures Made(f, l, p).k == l.k
  {
  }

  /** Whatever fails, the two names are kin afterwards if and only if the call does not mispair
      them; when it does, they are crossed. */
  lemma KinExactlyUnlessMispaired(f: Faults, l: Log, p: Pair)
    requires Sound(l.k) && Kin(l.k.nics, p)
    ensures Kin(Ensured(f, l, p).k.nics, p) <==> !Mispairs(f, l, p)
    ensures Crossed(Ensured(f, l, p).k.nics, p) <==> Mispairs(f, l, p)
    ensures Mispairs(f, l, p) && (p.H() in l.k.nics ==> l.k.nics[p.H()].descr == p.descr) ==> Ensured(f, l, p).k.nics[p.H()].descr == p.descr
  {
    RepairedIs(f, l, p);
    EnsuredSound(f, l, p);
    var l1 := Repaired(f, l, p);
    assert PeersMatch(l.k.nics) && PeersMatch(l1.k.nics);
    hide Repaired, Sound, Made;
    if !Both(l.k.nics, p) {
      if Works(f, l1, CreateEpair) {
        var pa, pb := MadeHalves(f, l1, p);
        HalvesEnds(l1.k.nics, Made(f, l1, p).k.nics, p, l1.k.next, pa, pb);
      } else {
        MadeNothing(f, l1, p);
      }
    }
  }

  /** Nothing repairs crossed ends: every call finds both names there and keeps them. */
  lemma CrossedStays(f: Faults, l: Log, p: Pair)
    requires Crossed(l.k.nics, p)
    ensures Crossed(Ensured(f, l, p).k.nics, p)
  {
  }

  /** If only the destroy of a host half fails, both names end up on ends of different epairs, and
      every later call leaves them so. */
  lemma FailedRepairMispairs(f: Faults, l: Log, p: Pair)
    requires Sound(l.k) && p.jail in l.k.jails
    requires p.H() in l.k.nics && p.I() !in l.k.nics && l.k.nics[p.H()].descr == p.descr
    requires forall n: nat, c: Cmd :: f(n, c) <==> c == DestroyNic(p.H())
    ensures var l' := Ensured(f, l, p);
            Crossed(l'.k.nics, p) && forall g: Faults :: Ensured(g, l', p) == l'
  {
    KinExactlyUnlessMispaired(f, l, p);
    CrossedIsKept(Ensured(f, l, p), p);
  }

  /** So it goes with a jail end whose destroy fails. */
  lemma FailedInnerRepairMispairs(f: Faults, l: Log, p: Pair)
    requires Sound(l.k)
    requires p.I() in l.k.nics && p.H() !in l.k.nics
    requires forall n: nat, c: Cmd :: f(n, c) <==> c == DestroyNic(p.I())
    ensures var l' := Ensured(f, l, p);
            Crossed(l'.k.nics, p) && forall g: Faults :: Ensured(g, l', p) == l'
  {
    KinExactlyUnlessMispaired(f, l, p);
    CrossedIsKept(Ensured(f, l, p), p);
  }

  lemma CrossedIsKept(l: Log, p: Pair)
    requires Crossed(l.k.nics, p) && l.k.nics[p.H()].descr == p.descr
    ensures forall g: Faults :: Ensured(g, l, p) == l
  {
  }

  /** From any half-state a fault-free `ensure_epair` leaves the epair up and no failed receipt; the
      jail end keeps its addresses if the epair was whole and is bare if it was not. */
  lemma EnsuredUp(f: Faults, l: Log, p: Pair)
    requires Sound(l.k) && Kin(l.k.nics, p) && FaultFree(f) && p.jail in l.k.jails
    ensures PairUp(Ensured(f, l, p).k.nics, p)
    ensures Ensured(f, l, p).k.nics[p.I()].inets == Before(l.k.nics, p)
    ensures AllOk(l.receipts) ==> AllOk(Ensured(f, l, p).receipts)
  {
    RepairedIs(f, l, p);
    EnsuredSound(f, l, p);
    var l1 := Repaired(f, l, p);
    assert PeersMatch(l1.k.nics);
    if !Both(l.k.nics, p) {
      assert Works(f, l1, CreateEpair);
      hide Repaired, Sound, Made;
      var pa, pb := MadeHalves(f, l1, p);
      HalvesEnds(l1.k.nics, Made(f, l1, p).k.nics, p, l1.k.next, pa, pb);
    }
  }

  /** An epair that is up is left alone. */
  lemma EnsuredQuiet(f: Faults, l: Log, p: Pair)
    requires PairUp(l.k.nics, p)
    ensures Ensured(f, l, p) == l
  {
  }
}
