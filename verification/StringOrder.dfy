/** Go's order on strings and `sort.Strings`. */
module StringOrder {
  predicate Le(a: string, b: string) {
    a == [] || (b != [] && (a[0] < b[0] || (a[0] == b[0] && Le(a[1..], b[1..]))))
  }

  lemma {:induction false} LeTotal(a: string, b: string)
    ensures Le(a, b) || Le(b, a)
  {
    if a != [] && b != [] { LeTotal(a[1..], b[1..]); }
  }

  lemma {:induction false} LeAntisymmetric(a: string, b: string)
    requires Le(a, b) && Le(b, a)
    ensures a == b
  {
    if a != [] && b != [] {
      LeAntisymmetric(a[1..], b[1..]);
      assert a == [a[0]] + a[1..] && b == [b[0]] + b[1..];
    }
  }

  lemma {:induction false} LeTransitive(a: string, b: string, c: string)
    requires Le(a, b) && Le(b, c)
    ensures Le(a, c)
  {
    if a != [] && a[0] == b[0] && b[0] == c[0] { LeTransitive(a[1..], b[1..], c[1..]); }
  }

  predicate Sorted(s: seq<string>) {
    forall i, j :: 0 <= i < j < |s| ==> Le(s[i], s[j])
  }

  function Insert(x: string, s: seq<string>): seq<string> {
    if s == [] then [x]
    else if Le(x, s[0]) then [x] + s
    else [s[0]] + Insert(x, s[1..])
  }

  function Sort(s: seq<string>): seq<string> {
    if s == [] then [] else Insert(s[0], Sort(s[1..]))
  }

  lemma {:induction false} InsertContents(x: string, s: seq<string>)
    ensures multiset(Insert(x, s)) == multiset(s) + multiset{x} && |Insert(x, s)| == |s| + 1
    ensures forall n :: n in Insert(x, s) ==> n == x || n in s
  {
    if s != [] && !Le(x, s[0]) {
      InsertContents(x, s[1..]);
      assert s == [s[0]] + s[1..];
    }
  }

  lemma SortedCons(x: string, s: seq<string>)
    requires Sorted(s) && forall n :: n in s ==> Le(x, n)
    ensures Sorted([x] + s)
  {
  }

  lemma SortedTail(s: seq<string>)
    requires Sorted(s) && s != []
    ensures Sorted(s[1..]) && forall n :: n in s[1..] ==> Le(s[0], n)
  {
  }

  lemma {:induction false} InsertSorts(x: string, s: seq<string>)
    requires Sorted(s)
    ensures Sorted(Insert(x, s))
  {
    if s == [] {
    } else if Le(x, s[0]) {
      forall n | n in s ensures Le(x, n) {
        SortedTail(s);
        if n != s[0] {
          assert n in s[1..];
          LeTransitive(x, s[0], n);
        }
      }
      SortedCons(x, s);
    } else {
      LeTotal(x, s[0]);
      SortedTail(s);
      InsertSorts(x, s[1..]);
      InsertContents(x, s[1..]);
      SortedCons(s[0], Insert(x, s[1..]));
    }
  }

  lemma {:induction false} SortContents(s: seq<string>)
    ensures multiset(Sort(s)) == multiset(s) && |Sort(s)| == |s|
  {
    if s != [] {
      SortContents(s[1..]);
      InsertContents(s[0], Sort(s[1..]));
      assert s == [s[0]] + s[1..];
    }
  }

  lemma {:induction false} SortOrders(s: seq<string>)
    ensures Sorted(Sort(s))
  {
    if s != [] {
      SortOrders(s[1..]);
      InsertSorts(s[0], Sort(s[1..]));
    }
  }

  /** Sorting yields an ordered permutation. */
  lemma SortSorts(s: seq<string>)
    ensures Sorted(Sort(s)) && multiset(Sort(s)) == multiset(s) && |Sort(s)| == |s|
  {
    SortContents(s);
    SortOrders(s);
  }

  predicate IsLeast(x: string, names: set<string>) {
    x in names && forall n :: n in names ==> Le(x, n)
  }

  lemma {:induction false} HasLeast(names: set<string>) returns (x: string)
    requires names != {}
    ensures IsLeast(x, names)
    decreases names
  {
    var n :| n in names;
    if names == {n} {
      LeTotal(n, n);
      x := n;
    } else {
      var m := HasLeast(names - {n});
      LeTotal(m, n);
      x := if Le(m, n) then m else n;
      forall k | k in names ensures Le(x, k) {
        LeTotal(k, k);
        if k != n && x == n { LeTransitive(n, m, k); }
      }
    }
  }

  lemma LeastIsUnique(names: set<string>, x: string, y: string)
    requires IsLeast(x, names) && IsLeast(y, names)
    ensures x == y
  {
    LeAntisymmetric(x, y);
  }

  ghost function Least(names: set<string>): (r: string)
    requires names != {}
    ensures IsLeast(r, names)
  {
    HasLeastExists(names);
    var x :| IsLeast(x, names);
    x
  }

  lemma HasLeastExists(names: set<string>)
    requires names != {}
    ensures exists x :: IsLeast(x, names)
  {
    var x := HasLeast(names);
  }

  /** The first of the sorted names is the least one. */
  lemma SortedFirstIsLeast(s: seq<string>, names: set<string>)
    requires s != [] && forall n :: n in s <==> n in names
    ensures Sort(s) != [] && IsLeast(Sort(s)[0], names)
  {
    SortSorts(s);
    var sorted := Sort(s);
    forall n | n in names ensures Le(sorted[0], n) {
      assert n in multiset(s);
      assert n in sorted;
      LeTotal(n, n);
    }
    assert sorted[0] in multiset(s);
  }
}
