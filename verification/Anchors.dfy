/** What any member's anchor does to a packet, said of the filter and the binding it is rendered from. */
module Anchors {
  import opened Collections
  import opened Model
  import opened Pf
  import opened PfSemantics
  import opened Compiler

  // ------------------------------------------------------------- one rule

  predicate RefHolds(r: Ref, ip: Ip, tables: map<Name, set<Addr>>, inNet: Matcher) {
    match r
    case AnyRef => true
    case CidrRef(cidr) => inNet(cidr, ip)
    case TableRef(t) => t in tables && exists a :: a in tables[t] && inNet(a, ip)
  }

  /** The rule speaks of the packet. A protocol decides the family. */
  predicate Admits(r: Rule, p: Packet, tables: map<Name, set<Addr>>, inNet: Matcher) {
    && (r.proto.Some? ==> p.proto == r.proto && (p.v6 <==> r.proto == Some(ICMP6)))
    && RefHolds(r.from_, p.src, tables, inNet) && RefHolds(r.to, p.dst, tables, inNet)
    && (r.port.Some? ==> p.dport.Some? && match r.port.value
                                          case Single(n) => p.dport.value == n
                                          case Range(lo, hi) => lo <= p.dport.value <= hi)
  }

  /** In and out are the workload's: pf sees what goes into it going out of the interface. */
  predicate IsFor(dir: Direction, p: Packet) {
    if dir.In? then p.dir.Out? else p.dir.In?
  }

  lemma RuleSpeaks(dir: Direction, r: Rule, p: Packet, tables: map<Name, set<Addr>>, inNet: Matcher)
    ensures RuleMatches(RenderRule(dir, r), p, tables, inNet) <==> IsFor(dir, p) && Admits(r, p, tables, inNet)
    ensures RenderRule(dir, r).pass <==> r.action.Pass?
  {
    RefSpeaks(r.from_, p.src, tables, inNet);
    RefSpeaks(r.to, p.dst, tables, inNet);
    hide AddrMatches, RefHolds, PfRef;
  }

  lemma RefSpeaks(r: Ref, ip: Ip, tables: map<Name, set<Addr>>, inNet: Matcher)
    ensures AddrMatches(PfRef(r), ip, tables, inNet) <==> RefHolds(r, ip, tables, inNet)
  {
  }

  // ------------------------------------------------------------ one direction

  /** n is the lowest number of a rule that speaks of the packet. */
  ghost predicate DecidedBy(rules: map<nat, Rule>, n: nat, p: Packet, tables: map<Name, set<Addr>>, inNet: Matcher) {
    n in rules && Admits(rules[n], p, tables, inNet) && forall m :: m in rules && m < n ==> !Admits(rules[m], p, tables, inNet)
  }

  ghost predicate AmongFirst(rules: map<nat, Rule>, nums: seq<nat>, n: nat,
                             p: Packet, tables: map<Name, set<Addr>>, inNet: Matcher) {
    n in nums && n in rules && Admits(rules[n], p, tables, inNet)
    && forall m :: m in nums && m < n ==> m in rules && !Admits(rules[m], p, tables, inNet)
  }

  lemma FirstStays(rules: map<nat, Rule>, rest: seq<nat>, last: nat, n: nat,
                   p: Packet, tables: map<Name, set<Addr>>, inNet: Matcher)
    requires AmongFirst(rules, rest, n, p, tables, inNet) && last in rules && forall m :: m in rest ==> m < last
    ensures AmongFirst(rules, rest + [last], n, p, tables, inNet)
  {
    hide Admits;
  }

  lemma LastIsFirst(rules: map<nat, Rule>, rest: seq<nat>, last: nat, p: Packet, tables: map<Name, set<Addr>>, inNet: Matcher)
    requires forall m :: m in rest ==> m in rules && !Admits(rules[m], p, tables, inNet)
    requires last in rules && Admits(rules[last], p, tables, inNet)
    ensures AmongFirst(rules, rest + [last], last, p, tables, inNet)
  {
    hide Admits;
  }

  /** What the lines of some rules, in their order, do with a packet. */
  ghost predicate Decided(d: Option<bool>, dir: Direction, rules: map<nat, Rule>, nums: seq<nat>,
                          p: Packet, tables: map<Name, set<Addr>>, inNet: Matcher) {
    match d
    case None => !IsFor(dir, p) || forall m :: m in nums ==> m in rules && !Admits(rules[m], p, tables, inNet)
    case Some(passed) => IsFor(dir, p) && exists n :: AmongFirst(rules, nums, n, p, tables, inNet) && (passed <==> rules[n].action.Pass?)
  }

  lemma DecidedMore(d: Option<bool>, dir: Direction, rules: map<nat, Rule>, rest: seq<nat>, last: nat,
                    p: Packet, tables: map<Name, set<Addr>>, inNet: Matcher)
    requires Decided(d, dir, rules, rest, p, tables, inNet) && last in rules && forall m :: m in rest ==> m < last
    ensures var speaks := IsFor(dir, p) && Admits(rules[last], p, tables, inNet);
            Decided(if d.Some? then d else if speaks then Some(rules[last].action.Pass?) else None, dir, rules, rest + [last], p, tables, inNet)
  {
    hide Admits, IsFor;
    if d.Some? {
      var n :| AmongFirst(rules, rest, n, p, tables, inNet) && (d.value <==> rules[n].action.Pass?);
      FirstStays(rules, rest, last, n, p, tables, inNet);
    } else if IsFor(dir, p) && Admits(rules[last], p, tables, inNet) {
      LastIsFirst(rules, rest, last, p, tables, inNet);
    }
  }

  lemma {:induction false} LinesDecide(dir: Direction, rules: map<nat, Rule>, nums: seq<nat>,
                                       p: Packet, tables: map<Name, set<Addr>>, inNet: Matcher)
    requires AscendingNums(nums) && forall i :: 0 <= i < |nums| ==> nums[i] in rules
    ensures Decided(Decide(LinesFor(dir, rules, nums), p, tables, inNet), dir, rules, nums, p, tables, inNet)
  {
    if nums != [] {
      hide Admits, RuleMatches, RenderRule, IsFor, Decide, Decided;
      var rest, last := nums[..|nums| - 1], nums[|nums| - 1];
      LinesDecide(dir, rules, rest, p, tables, inNet);
      RuleSpeaks(dir, rules[last], p, tables, inNet);
      DecideConcat(LinesFor(dir, rules, rest), [RenderRule(dir, rules[last])], p, tables, inNet);
      DecideOne(RenderRule(dir, rules[last]), p, tables, inNet);
      DecidedMore(Decide(LinesFor(dir, rules, rest), p, tables, inNet), dir, rules, rest, last, p, tables, inNet);
      assert nums == rest + [last];
    }
  }

  lemma DirectionDecides(dir: Direction, rules: map<nat, Rule>, p: Packet, tables: map<Name, set<Addr>>, inNet: Matcher)
    ensures match Decide(RuleLines(dir, rules), p, tables, inNet)
            case None => !IsFor(dir, p) || forall m :: m in rules ==> !Admits(rules[m], p, tables, inNet)
            case Some(passed) => IsFor(dir, p) && exists n :: DecidedBy(rules, n, p, tables, inNet) && (passed <==> rules[n].action.Pass?)
  {
    hide Admits, RuleMatches, RenderRule, IsFor, Decide, LinesFor;
    var nums := SortedNums(rules.Keys);
    LinesDecide(dir, rules, nums, p, tables, inNet);
    assert forall m :: m in rules ==> m in nums;
    forall n | AmongFirst(rules, nums, n, p, tables, inNet) ensures DecidedBy(rules, n, p, tables, inNet) {
    }
  }

  // ------------------------------------------------------------ a whole anchor

  /** A DHCP client's broadcast, section 4.1 of RFC 2131. */
  predicate Discovers(p: Packet, inNet: Matcher) {
    p.dir.In? && !p.v6 && p.proto == Some(UDP) && p.dport == Some(67) && inNet("0.0.0.0", p.src) && inNet("255.255.255.255", p.dst)
  }

  predicate Spoofs(bind: Bind, p: Packet, inNet: Matcher) {
    p.dir.In? && !p.v6 && !inNet(bind.address, p.src)
  }

  function RulesFor(filt: Filter, p: Packet): map<nat, Rule> {
    if p.dir.Out? then filt.in_ else filt.out
  }

  ghost predicate FilterPasses(filt: Option<Filter>, p: Packet, tables: map<Name, set<Addr>>, inNet: Matcher) {
    filt.Some? && exists n :: DecidedBy(RulesFor(filt.value, p), n, p, tables, inNet) && RulesFor(filt.value, p)[n].action.Pass?
  }

  lemma OneDecides(rules: map<nat, Rule>, n: nat, m: nat, p: Packet, tables: map<Name, set<Addr>>, inNet: Matcher)
    requires DecidedBy(rules, n, p, tables, inNet) && DecidedBy(rules, m, p, tables, inNet)
    ensures n == m
  {
    hide Admits;
  }

  lemma FilterIs(filt: Option<Filter>, p: Packet, tables: map<Name, set<Addr>>, inNet: Matcher)
    ensures Decide(FilterLines(filt) + [DenyAll(Out), DenyAll(In)], p, tables, inNet) == Some(FilterPasses(filt, p, tables, inNet))
  {
    TailBlocks(p, tables, inNet);
    var tail := [DenyAll(Out), DenyAll(In)];
    hide Decide, RuleLines, DenyAll, DecidedBy, Admits;
    DecideConcat(FilterLines(filt), tail, p, tables, inNet);
    if filt.Some? {
      DecideConcat(RuleLines(In, filt.value.in_), RuleLines(Out, filt.value.out), p, tables, inNet);
      DirectionDecides(In, filt.value.in_, p, tables, inNet);
      DirectionDecides(Out, filt.value.out, p, tables, inNet);
      var rules := RulesFor(filt.value, p);
      forall n, m | DecidedBy(rules, n, p, tables, inNet) && DecidedBy(rules, m, p, tables, inNet) ensures n == m {
        OneDecides(rules, n, m, p, tables, inNet);
      }
      DecidedAdmits(rules, p, tables, inNet);
    } else {
      assert FilterLines(filt) + tail == tail;
    }
  }

  lemma DecidedAdmits(rules: map<nat, Rule>, p: Packet, tables: map<Name, set<Addr>>, inNet: Matcher)
    ensures forall n :: DecidedBy(rules, n, p, tables, inNet) ==> n in rules && Admits(rules[n], p, tables, inNet)
  {
    hide Admits;
  }

  /** Any anchor decides any packet: a bound member's DHCP broadcast passes, what is sent under another IPv4
      address is blocked, and of the rest passes what the lowest numbered rule that speaks of it passes. */
  lemma AnchorDecides(filt: Option<Filter>, bind: Option<Bind>, p: Packet, tables: map<Name, set<Addr>>, inNet: Matcher)
    ensures Decide(Rendered(filt, bind), p, tables, inNet) ==
            Some(if bind.Some? && Discovers(p, inNet) then true
                 else if bind.Some? && Spoofs(bind.value, p, inNet) then false
                 else FilterPasses(filt, p, tables, inNet))
  {
    FilterIs(filt, p, tables, inNet);
    BoundDecides(bind, p, tables, inNet);
    hide Decide, FilterLines, DenyAll, FilterPasses, BindLines;
    var first, rest := BindLines(bind), FilterLines(filt) + [DenyAll(Out), DenyAll(In)];
    DecideConcat(first, rest, p, tables, inNet);
    assert Rendered(filt, bind) == first + rest;
  }

  lemma BoundDecides(bind: Option<Bind>, p: Packet, tables: map<Name, set<Addr>>, inNet: Matcher)
    ensures Decide(BindLines(bind), p, tables, inNet) ==
            if bind.Some? && Discovers(p, inNet) then Some(true)
            else if bind.Some? && Spoofs(bind.value, p, inNet) then Some(false)
            else None
  {
    if bind.Some? {
      DecideTwo(DHCP_DISCOVER, SourceLock(bind.value), p, tables, inNet);
      assert RuleMatches(DHCP_DISCOVER, p, tables, inNet) <==> Discovers(p, inNet);
      assert RuleMatches(SourceLock(bind.value), p, tables, inNet) <==> Spoofs(bind.value, p, inNet);
    }
  }
}
