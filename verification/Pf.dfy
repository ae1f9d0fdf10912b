/**
 The pf plane (l2_agent/pf.py) on rule syntax trees.

 `cfg_hash` is the truncated SHA-256 of the rule lines above the last one. Two
 rule lists are taken to have equal hashes only when they are equal, so the model
 uses the list itself; the closing line only repeats the hash.
 */
module Pf {
  import opened Collections
  import opened Model

  datatype Direction = In | Out

  datatype Family = Inet | Inet6

  datatype PfAddr = AnyAddr | Net(cidr: Addr) | NotNet(cidr: Addr) | Table(name: Name)

  datatype PfRule = PfRule(pass: bool, dir: Direction, family: Option<Family>, proto: Option<Proto>,
                           src: PfAddr, dst: PfAddr, port: Option<PortSpec>)

  type Ruleset = seq<PfRule>

  /** One member's anchor as pfctl reports it; `hash` is None without a cfg label. */
  datatype AnchorState = AnchorState(exists_: bool, hash: Option<Ruleset>, tables: map<Name, set<Addr>>)

  // ------------------------------------------------------------ sorted numbers

  predicate AscendingNums(s: seq<nat>) {
    forall i, j :: 0 <= i < j < |s| ==> s[i] < s[j]
  }

  function InsertNum(x: nat, s: seq<nat>): (r: seq<nat>)
    requires AscendingNums(s) && x !in s
    ensures AscendingNums(r) && |r| == |s| + 1
    ensures forall y :: y in r <==> y == x || y in s
  {
    if s == [] then [x]
    else if x < s[0] then [x] + s
    else
      var rest := InsertNum(x, s[1..]);
      assert s == [s[0]] + s[1..];
      assert forall j :: 0 <= j < |rest| ==> s[0] < rest[j] by {
        forall j | 0 <= j < |rest| ensures s[0] < rest[j] {
          assert rest[j] in rest;
        }
      }
      [s[0]] + rest
  }

  ghost function SortedNums(s: set<nat>): (r: seq<nat>)
    ensures AscendingNums(r) && |r| == |s|
    ensures forall x :: x in r <==> x in s
    ensures forall i :: 0 <= i < |r| ==> r[i] in s
  {
    if s == {} then [] else
      var x :| x in s;
      InsertNum(x, SortedNums(s - {x}))
  }

  lemma {:induction false} AscendingNumsUnique(a: seq<nat>, b: seq<nat>)
    requires AscendingNums(a) && AscendingNums(b)
    requires |a| == |b|
    requires forall x :: x in a <==> x in b
    ensures a == b
  {
    if a != [] {
      assert a[0] in b;
      assert b[0] in a;
      assert a == [a[0]] + a[1..] && b == [b[0]] + b[1..];
      forall x ensures x in a[1..] <==> x in b[1..] {
        assert x in a <==> x == a[0] || x in a[1..];
        assert x in b <==> x == b[0] || x in b[1..];
        assert a[0] !in a[1..] && b[0] !in b[1..];
      }
      AscendingNumsUnique(a[1..], b[1..]);
    }
  }

  method SortNums(s: set<nat>) returns (r: seq<nat>)
    ensures r == SortedNums(s)
  {
    r := [];
    var rest := s;
    while rest != {}
      invariant rest <= s
      invariant AscendingNums(r) && |r| == |s - rest|
      invariant forall x :: x in r <==> x in s - rest
    {
      var x :| x in rest;
      r := InsertNum(x, r);
      rest := rest - {x};
    }
    AscendingNumsUnique(r, SortedNums(s));
  }

  // --------------------------------------------------------------- rendering

  /** What is in for the workload is out for pf. */
  function Flip(d: Direction): Direction {
    if d.In? then Out else In
  }

  function PfRef(r: Ref): PfAddr {
    match r
    case AnyRef => AnyAddr
    case CidrRef(cidr) => Net(cidr)
    case TableRef(t) => Table(t)
  }

  /** One filter rule as a pf rule; a protocol decides the family. */
  function RenderRule(dir: Direction, rule: Rule): PfRule {
    PfRule(
      rule.action.Pass?,
      Flip(dir),
      if rule.proto.None? then None else if rule.proto.value.ICMP6? then Some(Inet6) else Some(Inet),
      rule.proto,
      PfRef(rule.from_),
      PfRef(rule.to),
      rule.port)
  }

  const DHCP_DISCOVER := PfRule(true, In, Some(Inet), Some(UDP), Net("0.0.0.0"), Net("255.255.255.255"), Some(Single(67)))

  function SourceLock(bind: Bind): PfRule {
    PfRule(false, In, Some(Inet), None, NotNet(bind.address), AnyAddr, None)
  }

  function DenyAll(dir: Direction): PfRule {
    PfRule(false, dir, None, None, AnyAddr, AnyAddr, None)
  }

  function LinesFor(dir: Direction, rules: map<nat, Rule>, nums: seq<nat>): (r: Ruleset)
    requires forall i :: 0 <= i < |nums| ==> nums[i] in rules
    ensures |r| == |nums|
    ensures forall i :: 0 <= i < |nums| ==> r[i] == RenderRule(dir, rules[nums[i]])
  {
    if nums == [] then []
    else LinesFor(dir, rules, nums[..|nums| - 1]) + [RenderRule(dir, rules[nums[|nums| - 1]])]
  }

  ghost function RuleLines(dir: Direction, rules: map<nat, Rule>): (r: Ruleset) {
    var nums := SortedNums(rules.Keys);
    LinesFor(dir, rules, nums)
  }

  function BindLines(bind: Option<Bind>): Ruleset {
    if bind.Some? then [DHCP_DISCOVER, SourceLock(bind.value)] else []
  }

  ghost function FilterLines(filt: Option<Filter>): Ruleset {
    if filt.Some? then RuleLines(In, filt.value.in_) + RuleLines(Out, filt.value.out) else []
  }

  /** The rule list of one member's anchor, which is also its cfg hash. */
  ghost function Rendered(filt: Option<Filter>, bind: Option<Bind>): Ruleset {
    BindLines(bind) + FilterLines(filt) + [DenyAll(Out), DenyAll(In)]
  }

  method Render(filt: Option<Filter>, bind: Option<Bind>) returns (lines: Ruleset)
    ensures lines == Rendered(filt, bind)
  {
    lines := [];
    if bind.Some? {
      lines := [DHCP_DISCOVER] + [SourceLock(bind.value)];
    }
    assert lines == BindLines(bind);
    var body := RenderFilter(filt);
    lines := lines + body;
    lines := lines + [DenyAll(Out), DenyAll(In)];
  }

  method RenderFilter(filt: Option<Filter>) returns (lines: Ruleset)
    ensures lines == FilterLines(filt)
  {
    lines := [];
    if filt.Some? {
      var inLines := RenderDirection(In, filt.value.in_);
      var outLines := RenderDirection(Out, filt.value.out);
      lines := inLines + outLines;
    }
  }

  method RenderDirection(dir: Direction, rules: map<nat, Rule>) returns (lines: Ruleset)
    ensures lines == RuleLines(dir, rules)
  {
    var nums := SortNums(rules.Keys);
    lines := RenderNumbered(dir, rules, nums);
  }

  method RenderNumbered(dir: Direction, rules: map<nat, Rule>, nums: seq<nat>) returns (lines: Ruleset)
    requires forall i :: 0 <= i < |nums| ==> nums[i] in rules
    ensures lines == LinesFor(dir, rules, nums)
  {
    lines := [];
    for i := 0 to |nums|
      invariant lines == LinesFor(dir, rules, nums[..i])
    {
      assert nums[..i + 1][..i] == nums[..i];
      lines := lines + [RenderRule(dir, rules[nums[i]])];
    }
    assert nums[..|nums|] == nums;
  }

  // ------------------------------------------------------------------ tables

  function RuleTables(rules: map<nat, Rule>): set<Name> {
    (set n | n in rules && rules[n].from_.TableRef? :: rules[n].from_.table)
    + (set n | n in rules && rules[n].to.TableRef? :: rules[n].to.table)
  }

  function TablesReferenced(filt: Option<Filter>): set<Name> {
    if filt.Some? then RuleTables(filt.value.in_) + RuleTables(filt.value.out) else {}
  }

  function WantedTables(filt: Option<Filter>, c: Config): map<Name, set<Addr>>
    requires TablesReferenced(filt) <= c.table.Keys
  {
    map t | t in TablesReferenced(filt) :: c.table[t]
  }

  /** A table's contents; one that was never loaded holds nothing. */
  function Lookup(tables: map<Name, set<Addr>>, t: Name): set<Addr> {
    if t in tables then tables[t] else {}
  }

  lemma ResolvedTables(c: Config, f: Name)
    requires Resolved(c) && f in c.filter
    ensures TablesReferenced(Some(c.filter[f])) <= c.table.Keys
  {
    assert FilterResolved(c, c.filter[f]);
  }
}
