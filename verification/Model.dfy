/**
 The desired-state document of the L2 agent (l2_agent/model.py), plus the derived
 vlan uplink name of l2_agent/plan.py.

 A Python `None` and an empty filter name behave alike everywhere they are read,
 so `filter == ""` stands for both. An address table, which the source keeps sorted
 and duplicate-free, is a set. vxlan segments are not modelled.
 */
module Model {
  import opened Collections

  type Addr = string
  type Mac = string

  datatype Proto = TCP | UDP | ICMP | ICMP6

  /** One port, or a range of them whose bounds differ. */
  datatype PortSpec = Single(port: int) | Range(lo: int, hi: int)

  datatype Action = Pass | Block

  /** What a rule's from/to names: any address, a CIDR, or a table. */
  datatype Ref = AnyRef | CidrRef(cidr: Addr) | TableRef(table: Name)

  datatype Rule = Rule(action: Action, proto: Option<Proto>, port: Option<PortSpec>, from_: Ref, to: Ref)

  datatype Filter = Filter(in_: map<nat, Rule>, out: map<nat, Rule>)

  datatype Bind = Bind(mac: Mac, address: Addr)

  datatype Member = Member(typed: bool, filter: Name, description: string, bind: Option<Bind>)

  datatype Segment = Vlan(physnet: Name, vid: nat) | Flat(physnet: Name)

  datatype Bridge = Bridge(maxAddresses: nat, segment: Option<Segment>, member: Dict<Member>)

  datatype Config = Config(physnet: map<Name, Name>, bridge: Dict<Bridge>, table: map<Name, set<Addr>>, filter: map<Name, Filter>)

  // ------------------------------------------------- cross-reference checks

  predicate RefResolved(c: Config, r: Ref) {
    r.TableRef? ==> r.table in c.table
  }

  predicate RulesResolved(c: Config, rules: map<nat, Rule>) {
    forall n :: n in rules ==> RefResolved(c, rules[n].from_) && RefResolved(c, rules[n].to)
  }

  predicate FilterResolved(c: Config, f: Filter) {
    RulesResolved(c, f.in_) && RulesResolved(c, f.out)
  }

  predicate BridgeResolved(c: Config, b: Bridge) {
    && (b.segment.Some? ==> b.segment.value.physnet in c.physnet)
    && (forall m :: m in b.member.at ==>
          b.member.at[m].filter != "" ==> b.member.at[m].filter in c.filter)
  }

  /** None of `Config.__post_init__`'s dangling-reference checks fires. */
  predicate Resolved(c: Config) {
    && (forall b :: b in c.bridge.at ==> BridgeResolved(c, c.bridge.at[b]))
    && (forall f :: f in c.filter ==> FilterResolved(c, c.filter[f]))
  }

  /** A document `Config.from_tree` accepts. */
  ghost predicate Valid(c: Config) {
    && c.bridge.Valid()
    && (forall b :: b in c.bridge.at ==> c.bridge.at[b].member.Valid())
    && Resolved(c)
  }

  // ------------------------------------------------------- vlan uplink names

  const IFNAME_MAX := 15

  function Digit(d: nat): (r: char)
    requires d < 10
    ensures r != '.'
  {
    "0123456789"[d]
  }

  function Decimal(n: nat): (r: string)
    ensures '.' !in r
  {
    if n < 10 then [Digit(n)] else Decimal(n / 10) + [Digit(n % 10)]
  }

  function VlanName(trunk: Name, vid: nat): Name {
    trunk + "." + Decimal(vid)
  }

  /** `name.rsplit(".", 1)[0]`: everything before the last dot. */
  function BeforeLastDot(name: Name): Name {
    if name == "" then ""
    else if name[|name| - 1] == '.' then name[..|name| - 1]
    else if '.' !in name then name
    else BeforeLastDot(name[..|name| - 1])
  }

  /** The parent the planner recovers from a vlan name is the trunk it came from. */
  lemma ParentOfVlanName(trunk: Name, vid: nat)
    ensures BeforeLastDot(VlanName(trunk, vid)) == trunk
  {
    BeforeLastDotOf(trunk, Decimal(vid));
  }

  lemma {:induction false} BeforeLastDotOf(trunk: Name, tail: string)
    requires '.' !in tail
    ensures BeforeLastDot(trunk + "." + tail) == trunk
  {
    var name := trunk + "." + tail;
    if tail == "" {
      assert name[..|name| - 1] == trunk;
    } else {
      assert name[|name| - 1] == tail[|tail| - 1];
      assert name[|trunk|] == '.';
      assert name[..|name| - 1] == trunk + "." + tail[..|tail| - 1];
      BeforeLastDotOf(trunk, tail[..|tail| - 1]);
    }
  }
}
