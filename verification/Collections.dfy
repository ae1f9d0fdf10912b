/**
 Vocabulary shared by every module: optional values, results, Python's ordered
 dictionaries, and the order in which Python's `sorted` lists a set of strings.
 */
module Collections {

  datatype Option<+T> = None | Some(value: T)

  datatype Result<+T, +E> = Ok(value: T) | Err(error: E)

  type Name = string

  predicate NoDup<T(==)>(s: seq<T>) {
    forall i, j :: 0 <= i < j < |s| ==> s[i] != s[j]
  }

  function Elements<T(==,!new)>(s: seq<T>): (r: set<T>)
    ensures forall x :: x in r <==> x in s
  {
    set x | x in s
  }

  /** A dictionary that remembers insertion order. */
  datatype Dict<+V> = Dict(keys: seq<Name>, at: map<Name, V>) {
    ghost predicate Valid() {
      NoDup(keys) && (forall x :: x in keys <==> x in at)
    }
  }

  lemma HasElement<T>(s: seq<T>)
    requires s != []
    ensures exists x :: x in s
  {
    assert s[0] in s;
  }

  lemma NoElements<T>(s: seq<T>)
    requires forall x :: x !in s
    ensures s == []
  {
    if s != [] {
      HasElement(s);
    }
  }

  lemma NoDupAppend<T>(a: seq<T>, b: seq<T>)
    requires NoDup(a) && NoDup(b)
    requires forall x :: x in a ==> x !in b
    ensures NoDup(a + b)
  {
    var c := a + b;
    forall i, j | 0 <= i < j < |c| ensures c[i] != c[j] {
      if i < |a| && |a| <= j {
        assert c[i] in a && c[j] in b;
      }
    }
  }

  /** Two duplicate-free lists of the same elements are permutations of each other. */
  lemma SameElementsSameMultiset<T>(a: seq<T>, b: seq<T>)
    requires NoDup(a) && NoDup(b)
    requires forall x :: x in a <==> x in b
    ensures multiset(a) == multiset(b)
  {
    forall x ensures multiset(a)[x] == multiset(b)[x] {
      CountNoDup(a, x);
      CountNoDup(b, x);
    }
  }

  lemma {:induction false} CountNoDup<T>(a: seq<T>, x: T)
    requires NoDup(a)
    ensures multiset(a)[x] == if x in a then 1 else 0
  {
    if a != [] {
      assert a == [a[0]] + a[1..];
      CountNoDup(a[1..], x);
    }
  }

  // ---------------------------------------------------------------- strings

  /** Code-point lexicographic order, Python's `<=` on str. */
  predicate LeStr(a: string, b: string) {
    if a == [] then true
    else if b == [] then false
    else if a[0] != b[0] then a[0] < b[0]
    else LeStr(a[1..], b[1..])
  }

  lemma {:induction false} LeStrTotal(a: string, b: string)
    ensures LeStr(a, b) || LeStr(b, a)
    ensures LeStr(a, b) && LeStr(b, a) ==> a == b
  {
    if a != [] && b != [] && a[0] == b[0] {
      LeStrTotal(a[1..], b[1..]);
      assert a == [a[0]] + a[1..] && b == [b[0]] + b[1..];
    }
  }

  lemma {:induction false} LeStrTransitive(a: string, b: string, c: string)
    requires LeStr(a, b) && LeStr(b, c)
    ensures LeStr(a, c)
  {
    if a != [] && b != [] && c != [] && a[0] == b[0] == c[0] {
      LeStrTransitive(a[1..], b[1..], c[1..]);
    }
  }

  predicate Ascending(s: seq<string>) {
    forall i, j :: 0 <= i < j < |s| ==> s[i] != s[j] && LeStr(s[i], s[j])
  }

  function Insert(x: string, s: seq<string>): (r: seq<string>)
    requires Ascending(s) && x !in s
    ensures Ascending(r)
    ensures forall y :: y in r <==> y == x || y in s
  {
    if s == [] then [x]
    else if LeStr(x, s[0]) then
      assert forall j :: 0 <= j < |s| ==> LeStr(x, s[j]) by {
        forall j | 0 <= j < |s| ensures LeStr(x, s[j]) {
          if j > 0 { LeStrTransitive(x, s[0], s[j]); }
        }
      }
      [x] + s
    else
      var rest := Insert(x, s[1..]);
      LeStrTotal(x, s[0]);
      assert s == [s[0]] + s[1..];
      assert forall j :: 0 <= j < |rest| ==> s[0] != rest[j] && LeStr(s[0], rest[j]) by {
        forall j | 0 <= j < |rest| ensures s[0] != rest[j] && LeStr(s[0], rest[j]) {
          assert rest[j] in rest;
        }
      }
      [s[0]] + rest
  }

  /** Python's `sorted` of a set of strings. */
  ghost function Sorted(s: set<string>): (r: seq<string>)
    ensures Ascending(r)
    ensures forall x :: x in r <==> x in s
  {
    if s == {} then [] else
      var x :| x in s;
      Insert(x, Sorted(s - {x}))
  }

  lemma {:induction false} AscendingUnique(a: seq<string>, b: seq<string>)
    requires Ascending(a) && Ascending(b)
    requires forall x :: x in a <==> x in b
    ensures a == b
  {
    if a == [] {
      NoElements(b);
    } else {
      assert a[0] in b;
      assert b[0] in a;
      var i :| 0 <= i < |a| && a[i] == b[0];
      var j :| 0 <= j < |b| && b[j] == a[0];
      LeStrTotal(a[0], b[0]);
      assert a[0] == b[0];
      assert a == [a[0]] + a[1..] && b == [b[0]] + b[1..];
      forall x ensures x in a[1..] <==> x in b[1..] {
        assert x in a <==> x == a[0] || x in a[1..];
        assert x in b <==> x == b[0] || x in b[1..];
        assert a[0] !in a[1..] && b[0] !in b[1..];
      }
      AscendingUnique(a[1..], b[1..]);
    }
  }

  lemma AscendingLast(s: seq<string>)
    requires Ascending(s) && s != []
    ensures var rest, last := s[..|s| - 1], s[|s| - 1];
            s == rest + [last] && Ascending(rest) && last !in rest && Elements(s) == Elements(rest) + {last}
  {
    var rest, last := s[..|s| - 1], s[|s| - 1];
    forall x ensures x in s <==> x in rest || x == last {
      assert s == rest + [last];
    }
  }

  method SortNames(s: set<string>) returns (r: seq<string>)
    ensures r == Sorted(s)
  {
    r := [];
    var rest := s;
    while rest != {}
      invariant rest <= s
      invariant Ascending(r)
      invariant forall x :: x in r <==> x in s - rest
    {
      var x :| x in rest;
      r := Insert(x, r);
      rest := rest - {x};
    }
    AscendingUnique(r, Sorted(s));
  }
}
