/** Replacing drifted tables does to a loaded anchor what reloading its whole text would. */
module Incremental {
  import opened Collections
  import opened Model
  import opened Pf
  import opened Ops
  import opened KernelModel
  import opened Planner
  import opened AddsPhase
  import opened PfSemantics

  /** The same kernel, but for tables that are absent in one and empty in the other. */
  ghost predicate SameButForEmptyTables(k1: Kernel, k2: Kernel, x: Name) {
    && k1.ifs == k2.ifs && k1.master == k2.master && k1.lock == k2.lock
    && x in k1.anchors && x in k2.anchors
    && k1.anchors == k2.anchors[x := k1.anchors[x]]
    && k1.anchors[x].rules == k2.anchors[x].rules
    && (forall t :: Lookup(k1.anchors[x].tables, t) == Lookup(k2.anchors[x].tables, t))
  }

  /** On an anchor that carries the wanted hash, the incremental ops and the full load agree. */
  lemma IncrementalEqualsFull(c: Config, k: Kernel, pf: PfState, x: Name, m: Member)
    requires Valid(c) && SameAnchor(k, pf, x)
    requires HasPolicy(c, m) && AnchorCurrent(c, m, pf, x)
    ensures Executable(TableOps(c, x, m, Some(pf)), k)
    ensures SameButForEmptyTables(
              Apply(TableOps(c, x, m, Some(pf)), k),
              Effect(LoadAnchor(x, m.filter, WantedRules(c, m), MemberTables(c, m)), k),
              x)
  {
    var wanted := MemberTables(c, m);
    var names := Sorted(wanted.Keys);
    assert NoDup(names);
    assert TableOps(c, x, m, Some(pf)) == TableDrift(x, names, wanted, pf[x]);
    assert k.anchors[x].rules == Some(WantedRules(c, m));
    hide Valid, Resolved, Executable, Apply, MemberTables, WantedRules, TableDrift, TableOps, Sorted, HasPolicy, AnchorCurrent;
    RunTableDrift(x, names, wanted, pf[x], k);
    DriftIsReload(k, Apply(TableDrift(x, names, wanted, pf[x]), k), x, names, wanted, m.filter, WantedRules(c, m));
  }

  lemma DriftIsReload(k: Kernel, k1: Kernel, x: Name, names: seq<Name>, wanted: map<Name, set<Addr>>, f: Name, rules: Ruleset)
    requires forall t :: t in names <==> t in wanted
    requires Drifted(k, k1, x, names, wanted) && k.anchors[x].rules == Some(rules)
    ensures SameButForEmptyTables(k1, Effect(LoadAnchor(x, f, rules, wanted), k), x)
  {
    forall t ensures Lookup(k1.anchors[x].tables, t) == Lookup(k.anchors[x].tables + wanted, t) {
      if t in names {
        var i :| 0 <= i < |names| && names[i] == t;
      }
    }
  }

  /** Rules that see the same tables decide every packet alike. */
  lemma {:induction false} SameTablesDecideAlike(rules: Ruleset, p: Packet, tables: map<Name, set<Addr>>, tables': map<Name, set<Addr>>, inNet: Matcher)
    requires forall t :: Lookup(tables, t) == Lookup(tables', t)
    ensures Decide(rules, p, tables, inNet) == Decide(rules, p, tables', inNet)
  {
    if rules != [] {
      SameTablesDecideAlike(rules[1..], p, tables, tables', inNet);
      assert RuleMatches(rules[0], p, tables, inNet) <==> RuleMatches(rules[0], p, tables', inNet);
    }
  }

  /** So traffic cannot tell whether an anchor was patched or reloaded. */
  lemma TrafficCannotTell(c: Config, k: Kernel, pf: PfState, x: Name, m: Member, p: Packet, inNet: Matcher)
    requires Valid(c) && SameAnchor(k, pf, x)
    requires HasPolicy(c, m) && AnchorCurrent(c, m, pf, x)
    ensures Executable(TableOps(c, x, m, Some(pf)), k)
    ensures var k1, k2 := Apply(TableOps(c, x, m, Some(pf)), k), Effect(LoadAnchor(x, m.filter, WantedRules(c, m), MemberTables(c, m)), k);
            && x in k1.anchors && x in k2.anchors
            && k1.anchors[x].rules == k2.anchors[x].rules == Some(WantedRules(c, m))
            && Decide(WantedRules(c, m), p, k1.anchors[x].tables, inNet) == Decide(WantedRules(c, m), p, k2.anchors[x].tables, inNet)
  {
    IncrementalEqualsFull(c, k, pf, x, m);
    var k1, k2 := Apply(TableOps(c, x, m, Some(pf)), k), Effect(LoadAnchor(x, m.filter, WantedRules(c, m), MemberTables(c, m)), k);
    SameTablesDecideAlike(WantedRules(c, m), p, k1.anchors[x].tables, k2.anchors[x].tables, inNet);
  }
}
