/**
 The canonical order of security-group rule bodies (`numbered` in
 l2_agent/port_config.py): bodies compare as their sorted (key, is-string, value) items.
 */
module SgOrder {
  import opened Collections
  import opened Model

  /** One flattened rule before it is validated; "any" is the absent from/to. */
  datatype Body = Body(proto: Option<Proto>, port: Option<PortSpec>, from_: string, to: string)

  datatype Value = IntValue(n: nat) | TextValue(s: string)

  datatype Item = Item(key: string, value: Value)

  // ---------------------------------------------------- how bodies turn to items

  function ProtoText(p: Proto): string {
    match p
    case TCP => "tcp"
    case UDP => "udp"
    case ICMP => "icmp"
    case ICMP6 => "icmp6"
  }

  function RangeText(lo: nat, hi: nat): string {
    Decimal(lo) + "-" + Decimal(hi)
  }

  /** Ports a body can carry. */
  predicate Natural(p: PortSpec) {
    match p
    case Single(n) => n >= 0
    case Range(lo, hi) => lo >= 0 && hi >= 0
  }

  function PortItemValue(p: PortSpec): Value
    requires Natural(p)
  {
    match p
    case Single(n) => IntValue(n)
    case Range(lo, hi) => TextValue(RangeText(lo, hi))
  }

  function Items(b: Body): seq<Item>
    requires b.port.Some? ==> Natural(b.port.value)
  {
    [Item("action", TextValue("pass"))]
    + (if b.from_ != "any" then [Item("from", TextValue(b.from_))] else [])
    + (if b.port.Some? then [Item("port", PortItemValue(b.port.value))] else [])
    + (if b.proto.Some? then [Item("proto", TextValue(ProtoText(b.proto.value)))] else [])
    + (if b.to != "any" then [Item("to", TextValue(b.to))] else [])
  }

  // ------------------------------------------------------------------- order

  /** An int sorts before a string, by the is-string flag. */
  predicate LtValue(a: Value, b: Value) {
    match (a, b)
    case (IntValue(m), IntValue(n)) => m < n
    case (IntValue(_), TextValue(_)) => true
    case (TextValue(_), IntValue(_)) => false
    case (TextValue(s), TextValue(t)) => s != t && LeStr(s, t)
  }

  predicate LtItem(a: Item, b: Item) {
    if a.key != b.key then LeStr(a.key, b.key) else LtValue(a.value, b.value)
  }

  predicate LeItems(a: seq<Item>, b: seq<Item>) {
    if a == [] then true
    else if b == [] then false
    else if a[0] != b[0] then LtItem(a[0], b[0])
    else LeItems(a[1..], b[1..])
  }

  lemma LtItemTotal(a: Item, b: Item)
    requires a != b
    ensures LtItem(a, b) <==> !LtItem(b, a)
  {
    LeStrTotal(a.key, b.key);
    if a.value.TextValue? && b.value.TextValue? {
      LeStrTotal(a.value.s, b.value.s);
    }
  }

  lemma LtItemTransitive(a: Item, b: Item, c: Item)
    requires LtItem(a, b) && LtItem(b, c) && a != b && b != c
    ensures LtItem(a, c) && a != c
  {
    if a.key != b.key && b.key != c.key {
      LeStrTransitive(a.key, b.key, c.key);
    }
    LeStrTotal(a.key, b.key);
    LeStrTotal(b.key, c.key);
    if a.value.TextValue? && b.value.TextValue? && c.value.TextValue? {
      LeStrTotal(a.value.s, b.value.s);
      LeStrTotal(b.value.s, c.value.s);
      if LeStr(a.value.s, b.value.s) && LeStr(b.value.s, c.value.s) {
        LeStrTransitive(a.value.s, b.value.s, c.value.s);
      }
    }
  }

  lemma {:induction false} LeItemsTotal(a: seq<Item>, b: seq<Item>)
    ensures LeItems(a, b) || LeItems(b, a)
    ensures LeItems(a, b) && LeItems(b, a) ==> a == b
  {
    if a != [] && b != [] {
      if a[0] == b[0] {
        LeItemsTotal(a[1..], b[1..]);
        assert a == [a[0]] + a[1..] && b == [b[0]] + b[1..];
      } else {
        LtItemTotal(a[0], b[0]);
      }
    }
  }

  lemma {:induction false} LeItemsTransitive(a: seq<Item>, b: seq<Item>, c: seq<Item>)
    requires LeItems(a, b) && LeItems(b, c)
    ensures LeItems(a, c)
  {
    if a != [] && b != [] && c != [] {
      if a[0] == b[0] == c[0] {
        LeItemsTransitive(a[1..], b[1..], c[1..]);
      } else if a[0] != b[0] && b[0] != c[0] {
        LtItemTransitive(a[0], b[0], c[0]);
      }
    }
  }

  // ---------------------------------------------- different bodies, different items

  lemma {:induction false} DecimalInjective(a: nat, b: nat)
    requires Decimal(a) == Decimal(b)
    ensures a == b
  {
    DecimalNonempty(a / 10);
    DecimalNonempty(b / 10);
    if a >= 10 && b >= 10 {
      var s, t := Decimal(a), Decimal(b);
      assert s[|s| - 1] == Digit(a % 10) && t[|t| - 1] == Digit(b % 10);
      assert s[..|s| - 1] == Decimal(a / 10) && t[..|t| - 1] == Decimal(b / 10);
      DecimalInjective(a / 10, b / 10);
    }
  }

  lemma {:induction false} DecimalNonempty(n: nat)
    ensures |Decimal(n)| > 0 && '-' !in Decimal(n)
  {
    if n >= 10 {
      DecimalNonempty(n / 10);
    }
  }

  lemma RangeTextInjective(lo: nat, hi: nat, lo': nat, hi': nat)
    requires RangeText(lo, hi) == RangeText(lo', hi')
    ensures lo == lo' && hi == hi'
  {
    var a, b, a', b' := Decimal(lo), Decimal(hi), Decimal(lo'), Decimal(hi');
    var s := RangeText(lo, hi);
    DecimalNonempty(lo);
    DecimalNonempty(lo');
    assert s[|a|] == '-' && s[|a'|] == '-';
    assert forall j :: 0 <= j < |a| ==> s[j] == a[j];
    assert forall j :: 0 <= j < |a'| ==> s[j] == a'[j];
    assert |a| == |a'|;
    assert a == s[..|a|] && a' == s[..|a|];
    assert b == s[|a| + 1..] && b' == s[|a| + 1..];
    DecimalInjective(lo, lo');
    DecimalInjective(hi, hi');
  }

  predicate NaturalBody(b: Body) {
    b.port.Some? ==> Natural(b.port.value)
  }

  /** The value an item list holds under a key. */
  function Find(items: seq<Item>, key: string): Option<Value> {
    if items == [] then None
    else if items[0].key == key then Some(items[0].value)
    else Find(items[1..], key)
  }

  lemma {:induction false} FindConcat(a: seq<Item>, b: seq<Item>, key: string)
    ensures Find(a + b, key) == if Find(a, key).Some? then Find(a, key) else Find(b, key)
  {
    if a == [] {
      assert a + b == b;
    } else {
      assert (a + b)[1..] == a[1..] + b;
      FindConcat(a[1..], b, key);
    }
  }

  lemma FindIn(b: Body)
    requires NaturalBody(b)
    ensures Find(Items(b), "from") == if b.from_ != "any" then Some(TextValue(b.from_)) else None
    ensures Find(Items(b), "port") == if b.port.Some? then Some(PortItemValue(b.port.value)) else None
    ensures Find(Items(b), "proto") == if b.proto.Some? then Some(TextValue(ProtoText(b.proto.value))) else None
    ensures Find(Items(b), "to") == if b.to != "any" then Some(TextValue(b.to)) else None
  {
    DistinctKeys();
    FindFive(b, "from");
    FindFive(b, "port");
    FindFive(b, "proto");
    FindFive(b, "to");
  }

  function First(a: Option<Value>, b: Option<Value>): Option<Value> {
    if a.Some? then a else b
  }

  lemma FindFive(b: Body, key: string)
    requires NaturalBody(b)
    ensures Find(Items(b), key) ==
            First(First(First(First(
                    if key == "action" then Some(TextValue("pass")) else None,
                    if key == "from" && b.from_ != "any" then Some(TextValue(b.from_)) else None),
                    if key == "port" && b.port.Some? then Some(PortItemValue(b.port.value)) else None),
                    if key == "proto" && b.proto.Some? then Some(TextValue(ProtoText(b.proto.value))) else None),
                    if key == "to" && b.to != "any" then Some(TextValue(b.to)) else None)
  {
    var action := [Item("action", TextValue("pass"))];
    var from_ := if b.from_ != "any" then [Item("from", TextValue(b.from_))] else [];
    var port := if b.port.Some? then [Item("port", PortItemValue(b.port.value))] else [];
    var proto := if b.proto.Some? then [Item("proto", TextValue(ProtoText(b.proto.value)))] else [];
    var to := if b.to != "any" then [Item("to", TextValue(b.to))] else [];
    FindConcat(action, from_, key);
    FindConcat(action + from_, port, key);
    FindConcat(action + from_ + port, proto, key);
    FindConcat(action + from_ + port + proto, to, key);
    FindOne(action, key);
    FindOne(from_, key);
    FindOne(port, key);
    FindOne(proto, key);
    FindOne(to, key);
  }

  lemma FindOne(items: seq<Item>, key: string)
    requires |items| <= 1
    ensures Find(items, key) == if |items| == 1 && items[0].key == key then Some(items[0].value) else None
  {
  }

  lemma DistinctKeys()
    ensures "action" != "from" && "action" != "port" && "action" != "proto" && "action" != "to"
    ensures "from" != "port" && "from" != "proto" && "from" != "to"
    ensures "port" != "proto" && "port" != "to" && "proto" != "to"
  {
    assert "action"[0] == 'a' && "from"[0] == 'f' && "port"[0] == 'p' && "to"[0] == 't' && "proto"[0] == 'p';
    assert |"port"| == 4 && |"proto"| == 5;
  }

  lemma ProtoTextInjective(p: Proto, q: Proto)
    requires ProtoText(p) == ProtoText(q)
    ensures p == q
  {
    assert "tcp"[0] == 't' && "udp"[0] == 'u' && "icmp"[0] == 'i' && "icmp6"[0] == 'i';
    assert |"icmp"| == 4 && |"icmp6"| == 5;
  }

  /** Bodies with equal items are equal, so the order is total on bodies. */
  lemma ItemsInjective(b: Body, b': Body)
    requires NaturalBody(b) && NaturalBody(b') && Items(b) == Items(b')
    ensures b == b'
  {
    FindIn(b);
    FindIn(b');
    if b.proto.Some? && b'.proto.Some? {
      ProtoTextInjective(b.proto.value, b'.proto.value);
    }
    if b.port.Some? && b'.port.Some? && b.port.value.Range? && b'.port.value.Range? {
      RangeTextInjective(b.port.value.lo, b.port.value.hi, b'.port.value.lo, b'.port.value.hi);
    }
  }

  // ----------------------------------------------------------------- sorting

  predicate Naturals(s: seq<Body>) {
    forall i :: 0 <= i < |s| ==> NaturalBody(s[i])
  }

  predicate LeBody(a: Body, b: Body)
    requires NaturalBody(a) && NaturalBody(b)
  {
    LeItems(Items(a), Items(b))
  }

  predicate SortedBodies(s: seq<Body>)
    requires Naturals(s)
  {
    forall i, j :: 0 <= i < j < |s| ==> LeBody(s[i], s[j])
  }

  lemma BelowAll(x: Body, s: seq<Body>)
    requires NaturalBody(x) && Naturals(s) && SortedBodies(s) && s != [] && LeBody(x, s[0])
    ensures forall j :: 0 <= j < |s| ==> LeBody(x, s[j])
  {
    forall j | 0 <= j < |s| ensures LeBody(x, s[j]) {
      if j > 0 { LeItemsTransitive(Items(x), Items(s[0]), Items(s[j])); }
    }
  }

  lemma BelowInserted(x: Body, s: seq<Body>, rest: seq<Body>)
    requires NaturalBody(x) && Naturals(s) && SortedBodies(s) && s != [] && !LeBody(x, s[0])
    requires Naturals(rest) && multiset(rest) == multiset{x} + multiset(s[1..])
    ensures forall j :: 0 <= j < |rest| ==> LeBody(s[0], rest[j])
  {
    LeItemsTotal(Items(x), Items(s[0]));
    forall j | 0 <= j < |rest| ensures LeBody(s[0], rest[j]) {
      assert rest[j] in multiset(rest);
    }
  }

  function InsertBody(x: Body, s: seq<Body>): (r: seq<Body>)
    requires NaturalBody(x) && Naturals(s) && SortedBodies(s)
    ensures Naturals(r) && SortedBodies(r)
    ensures multiset(r) == multiset{x} + multiset(s)
  {
    if s == [] then [x]
    else if LeBody(x, s[0]) then
      BelowAll(x, s);
      [x] + s
    else
      assert s == [s[0]] + s[1..];
      var rest := InsertBody(x, s[1..]);
      BelowInserted(x, s, rest);
      [s[0]] + rest
  }

  /** Python's `sorted` of a list of bodies. */
  function SortBodies(s: seq<Body>): (r: seq<Body>)
    requires Naturals(s)
    ensures Naturals(r) && SortedBodies(r)
    ensures multiset(r) == multiset(s)
  {
    if s == [] then [] else
      assert s == s[..|s| - 1] + [s[|s| - 1]];
      InsertBody(s[|s| - 1], SortBodies(s[..|s| - 1]))
  }

  lemma LeastFirst(a: seq<Body>, x: Body)
    requires Naturals(a) && SortedBodies(a) && x in a
    ensures NaturalBody(x) && LeBody(a[0], x)
  {
    var i :| 0 <= i < |a| && a[i] == x;
    if i == 0 {
      LeItemsTotal(Items(x), Items(x));
    }
  }

  lemma SameHead(a: seq<Body>, b: seq<Body>)
    requires Naturals(a) && Naturals(b) && SortedBodies(a) && SortedBodies(b)
    requires multiset(a) == multiset(b) && |a| > 0 && |b| > 0
    ensures a[0] == b[0]
  {
    assert a[0] in multiset(a) && b[0] in multiset(b);
    LeastFirst(a, b[0]);
    LeastFirst(b, a[0]);
    LeItemsTotal(Items(a[0]), Items(b[0]));
    ItemsInjective(a[0], b[0]);
  }

  lemma Tail(a: seq<Body>)
    requires Naturals(a) && SortedBodies(a) && |a| > 0
    ensures a == [a[0]] + a[1..] && Naturals(a[1..]) && SortedBodies(a[1..])
    ensures multiset(a[1..]) == multiset(a) - multiset{a[0]}
  {
    assert a == [a[0]] + a[1..];
    forall i, j | 0 <= i < j < |a[1..]| ensures LeBody(a[1..][i], a[1..][j]) {
      assert LeBody(a[i + 1], a[j + 1]);
    }
  }

  /** Sorted lists of the same bodies are the same list. */
  lemma {:induction false} SortedUnique(a: seq<Body>, b: seq<Body>)
    requires Naturals(a) && Naturals(b) && SortedBodies(a) && SortedBodies(b)
    requires multiset(a) == multiset(b)
    ensures a == b
  {
    assert |multiset(a)| == |a| && |multiset(b)| == |b|;
    if |a| > 0 {
      SameHead(a, b);
      Tail(a);
      Tail(b);
      SortedUnique(a[1..], b[1..]);
    }
  }

  /** Sorting forgets the order its input came in. */
  lemma SortForgetsOrder(s: seq<Body>, s': seq<Body>)
    requires Naturals(s) && Naturals(s') && multiset(s) == multiset(s')
    ensures SortBodies(s) == SortBodies(s')
  {
    SortedUnique(SortBodies(s), SortBodies(s'));
  }
}
