/** The order of strings, and the one sorted list of a set of names. */
module Order {

  predicate StringLess(a: string, b: string) {
    b != [] && (a == [] || a[0] < b[0] || (a[0] == b[0] && StringLess(a[1..], b[1..])))
  }

  lemma {:induction false} StringTotal(a: string, b: string)
    ensures StringLess(a, b) || StringLess(b, a) || a == b
    ensures !(StringLess(a, b) && StringLess(b, a)) && (a == b ==> !StringLess(a, b))
  {
    if a != [] && b != [] {
      StringTotal(a[1..], b[1..]);
      if a[0] == b[0] && a[1..] == b[1..] { assert a == [a[0]] + a[1..] == b; }
    }
  }

  lemma {:induction false} StringTransitive(a: string, b: string, c: string)
    requires StringLess(a, b) && StringLess(b, c)
    ensures StringLess(a, c)
  {
    if a != [] && a[0] == b[0] && b[0] == c[0] {
      StringTransitive(a[1..], b[1..], c[1..]);
    }
  }

  predicate Ascending(names: seq<string>) {
    forall i, j :: 0 <= i < j < |names| ==> StringLess(names[i], names[j])
  }

  ghost predicate Lists(names: seq<string>, s: set<string>) {
    forall x :: x in names <==> x in s
  }

  /** A set has one ascending list, so the order in which a map is walked does not matter after sorting. */
  lemma {:induction false} OneAscendingList(a: seq<string>, b: seq<string>, s: set<string>)
    requires Ascending(a) && Ascending(b) && Lists(a, s) && Lists(b, s)
    ensures a == b
  {
    hide StringLess;
    if b != [] { assert b[0] in s && b[0] in a; }
    if a != [] {
      assert a[0] in s && a[0] in b;
      SameHead(a, b, s);
      ListsTail(a, s);
      ListsTail(b, s);
      OneAscendingList(a[1..], b[1..], s - {a[0]});
      assert a == [a[0]] + a[1..] == b;
    }
  }

  lemma SameHead(a: seq<string>, b: seq<string>, s: set<string>)
    requires Ascending(a) && Ascending(b) && Lists(a, s) && Lists(b, s) && a != [] && b != []
    ensures a[0] == b[0]
  {
    hide StringLess;
    assert a[0] in b && b[0] in a;
    var i :| 0 <= i < |b| && b[i] == a[0];
    var j :| 0 <= j < |a| && a[j] == b[0];
    StringTotal(a[0], b[0]);
  }

  lemma ListsTail(a: seq<string>, s: set<string>)
    requires Ascending(a) && Lists(a, s) && a != []
    ensures Ascending(a[1..]) && Lists(a[1..], s - {a[0]})
  {
    hide StringLess;
    StringTotal(a[0], a[0]);
    forall x ensures x in a[1..] <==> x in s - {a[0]} {
      if x in s - {a[0]} {
        var i :| 0 <= i < |a| && a[i] == x;
        assert a[1..][i - 1] == x;
      }
      if x in a[1..] {
        var i :| 0 <= i < |a[1..]| && a[1..][i] == x;
        assert a[i + 1] == x && StringLess(a[0], a[i + 1]);
      }
    }
  }

  /** Puts a new name where it belongs. */
  method Insert(names: seq<string>, x: string) returns (r: seq<string>)
    requires Ascending(names) && x !in names
    ensures Ascending(r) && forall y :: y in r <==> y in names || y == x
  {
    hide StringLess;
    var p := |names|;
    while p > 0 && StringLess(x, names[p - 1])
      invariant 0 <= p <= |names|
      invariant forall j :: p <= j < |names| ==> StringLess(x, names[j])
    {
      p := p - 1;
    }
    if p > 0 { StringTotal(x, names[p - 1]); }
    r := names[..p] + [x] + names[p..];
    BelowAll(names, x, p);
    assert names == names[..p] + names[p..];
  }

  lemma BelowAll(names: seq<string>, x: string, p: nat)
    requires Ascending(names) && p <= |names| && (p > 0 ==> StringLess(names[p - 1], x))
    ensures forall j :: 0 <= j < p ==> StringLess(names[j], x)
  {
    hide StringLess;
    forall j | 0 <= j < p ensures StringLess(names[j], x) {
      if j < p - 1 { StringTransitive(names[j], names[p - 1], x); }
    }
  }

  /** The names in ascending order, whatever order they are met in. */
  method SortedNames(s: set<string>) returns (names: seq<string>)
    ensures Ascending(names) && Lists(names, s)
  {
    names := [];
    hide StringLess;
    var left := s;
    while left != {}
      invariant left <= s && Ascending(names) && Lists(names, s - left)
      decreases left
    {
      var x :| x in left;
      names := Insert(names, x);
      left := left - {x};
    }
  }
}
