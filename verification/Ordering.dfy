/** Sorting by a total order, and the lexicographic order that stands in for locale collation. */
module Ordering {
  import opened Sequences

  ghost predicate TotalPreorder<T(!new)>(leq: (T, T) -> bool) {
    (forall x, y :: leq(x, y) || leq(y, x)) && forall x, y, z :: leq(x, y) && leq(y, z) ==> leq(x, z)
  }

  ghost predicate TotalOrder<T(!new)>(leq: (T, T) -> bool) {
    TotalPreorder(leq) && forall x, y :: leq(x, y) && leq(y, x) ==> x == y
  }

  /** The comparison tells the members of `s` apart. */
  ghost predicate Separates<T(!new)>(leq: (T, T) -> bool, s: seq<T>) {
    forall x, y :: x in s && y in s && leq(x, y) && leq(y, x) ==> x == y
  }

  ghost predicate Sorted<T>(leq: (T, T) -> bool, s: seq<T>) {
    forall i, j :: 0 <= i < j < |s| ==> leq(s[i], s[j])
  }

  function Insert<T>(leq: (T, T) -> bool, x: T, s: seq<T>): seq<T> {
    if s == [] then [x]
    else if leq(x, s[0]) then [x] + s
    else [s[0]] + Insert(leq, x, s[1..])
  }

  function SortBy<T>(leq: (T, T) -> bool, s: seq<T>): seq<T> {
    if s == [] then [] else Insert(leq, s[0], SortBy(leq, s[1..]))
  }

  lemma InsertHolds<T>(leq: (T, T) -> bool, x: T, s: seq<T>, y: T)
    requires y in Insert(leq, x, s)
    ensures y == x || y in s
  {
    InsertRearranges(leq, x, s);
    assert y in multiset(Insert(leq, x, s));
  }

  lemma ConsSorted<T(!new)>(leq: (T, T) -> bool, x: T, s: seq<T>)
    requires Sorted(leq, s) && forall y :: y in s ==> leq(x, y)
    ensures Sorted(leq, [x] + s)
  {
    var r := [x] + s;
    forall i, j | 0 <= i < j < |r| ensures leq(r[i], r[j]) {
      assert r[j] == s[j - 1] && (i > 0 ==> r[i] == s[i - 1]);
    }
  }

  lemma {:induction false} InsertSorts<T(!new)>(leq: (T, T) -> bool, x: T, s: seq<T>)
    requires TotalPreorder(leq) && Sorted(leq, s)
    ensures Sorted(leq, Insert(leq, x, s))
  {
    if s != [] {
      forall y | y in s ensures leq(s[0], y) {
        FirstIsLeast(leq, s, y);
      }
      if leq(x, s[0]) {
        ConsSorted(leq, x, s);
      } else {
        InsertSorts(leq, x, s[1..]);
        forall y | y in Insert(leq, x, s[1..]) ensures leq(s[0], y) {
          InsertHolds(leq, x, s[1..], y);
        }
        ConsSorted(leq, s[0], Insert(leq, x, s[1..]));
      }
    }
  }

  lemma {:induction false} SortBySorts<T(!new)>(leq: (T, T) -> bool, s: seq<T>)
    requires TotalPreorder(leq)
    ensures Sorted(leq, SortBy(leq, s)) && multiset(SortBy(leq, s)) == multiset(s)
  {
    SortRearranges(leq, s);
    if s != [] {
      SortBySorts(leq, s[1..]);
      InsertSorts(leq, s[0], SortBy(leq, s[1..]));
    }
  }

  /** Whatever the comparison is, sorting only rearranges. */
  lemma {:induction false} SortRearranges<T>(leq: (T, T) -> bool, s: seq<T>)
    ensures multiset(SortBy(leq, s)) == multiset(s)
  {
    if s != [] {
      SortRearranges(leq, s[1..]);
      InsertRearranges(leq, s[0], SortBy(leq, s[1..]));
      assert s == [s[0]] + s[1..];
    }
  }

  lemma {:induction false} InsertRearranges<T>(leq: (T, T) -> bool, x: T, s: seq<T>)
    ensures multiset(Insert(leq, x, s)) == multiset(s) + multiset{x}
  {
    if s != [] && !leq(x, s[0]) {
      InsertRearranges(leq, x, s[1..]);
      assert s == [s[0]] + s[1..];
    }
  }

  lemma FirstIsLeast<T(!new)>(leq: (T, T) -> bool, s: seq<T>, x: T)
    requires TotalPreorder(leq) && Sorted(leq, s) && x in s
    ensures leq(s[0], x)
  {
  }

  lemma TailMultiset<T>(s: seq<T>)
    requires s != []
    ensures multiset(s[1..]) == multiset(s) - multiset{s[0]}
  {
    assert s == [s[0]] + s[1..];
  }

  lemma FirstsAgree<T(!new)>(leq: (T, T) -> bool, a: seq<T>, b: seq<T>)
    requires TotalPreorder(leq) && Separates(leq, a) && Sorted(leq, a) && Sorted(leq, b)
    requires multiset(a) == multiset(b) && a != []
    ensures b != [] && a[0] == b[0]
  {
    assert |a| == |multiset(a)| == |multiset(b)| == |b|;
    assert a[0] in multiset(b) && b[0] in multiset(a);
    FirstIsLeast(leq, a, b[0]);
    FirstIsLeast(leq, b, a[0]);
  }

  lemma TailsAgree<T(!new)>(leq: (T, T) -> bool, a: seq<T>, b: seq<T>)
    requires TotalPreorder(leq) && Separates(leq, a) && Sorted(leq, a) && Sorted(leq, b)
    requires multiset(a) == multiset(b) && a != []
    ensures b != [] && a[0] == b[0] && multiset(a[1..]) == multiset(b[1..])
    ensures Separates(leq, a[1..]) && Sorted(leq, a[1..]) && Sorted(leq, b[1..])
  {
    FirstsAgree(leq, a, b);
    TailMultiset(a);
    TailMultiset(b);
    assert forall x :: x in a[1..] ==> x in a;
  }

  lemma NothingElse<T>(b: seq<T>)
    requires multiset(b) == multiset{}
    ensures b == []
  {
    assert |b| == |multiset(b)|;
  }

  lemma EqualByParts<T>(a: seq<T>, b: seq<T>)
    requires a != [] && b != [] && a[0] == b[0] && a[1..] == b[1..]
    ensures a == b
  {
    assert a == [a[0]] + a[1..] && b == [b[0]] + b[1..];
  }

  /** A sorted sequence is determined by what it holds, if its members can be told apart. */
  lemma {:induction false} SortedIsUnique<T(!new)>(leq: (T, T) -> bool, a: seq<T>, b: seq<T>)
    requires TotalPreorder(leq) && Separates(leq, a) && Sorted(leq, a) && Sorted(leq, b) && multiset(a) == multiset(b)
    ensures a == b
    decreases |a|
  {
    if a == [] {
      NothingElse(b);
    } else {
      TailsAgree(leq, a, b);
      SortedIsUnique(leq, a[1..], b[1..]);
      EqualByParts(a, b);
    }
  }

  lemma SortHolds<T(!new)>(leq: (T, T) -> bool, s: seq<T>, x: T)
    ensures x in SortBy(leq, s) <==> x in s
  {
    SortRearranges(leq, s);
    assert x in SortBy(leq, s) <==> x in multiset(SortBy(leq, s));
  }

  /** Sorting forgets the order of its input and nothing else. */
  lemma SortForgetsOrder<T(!new)>(leq: (T, T) -> bool, a: seq<T>, b: seq<T>)
    requires TotalPreorder(leq) && Separates(leq, a)
    ensures SortBy(leq, a) == SortBy(leq, b) <==> multiset(a) == multiset(b)
  {
    SortBySorts(leq, a);
    SortBySorts(leq, b);
    if multiset(a) == multiset(b) {
      forall x ensures x in SortBy(leq, a) <==> x in a {
        SortHolds(leq, a, x);
      }
      SortedIsUnique(leq, SortBy(leq, a), SortBy(leq, b));
    }
  }

  lemma {:induction false} SortedIsKept<T(!new)>(leq: (T, T) -> bool, s: seq<T>)
    requires Sorted(leq, s)
    ensures SortBy(leq, s) == s
  {
    if s != [] {
      SortedIsKept(leq, s[1..]);
      assert s == [s[0]] + s[1..];
    }
  }

  lemma SortKeepsMembers<T(!new)>(leq: (T, T) -> bool, s: seq<T>, x: T)
    requires TotalOrder(leq)
    ensures x in SortBy(leq, s) <==> x in s
    ensures |SortBy(leq, s)| == |s|
  {
    SortBySorts(leq, s);
    assert x in SortBy(leq, s) <==> x in multiset(SortBy(leq, s));
    assert |multiset(SortBy(leq, s))| == |multiset(s)|;
  }

  lemma {:induction false} FilterStaysSorted<T(!new)>(leq: (T, T) -> bool, keep: T -> bool, s: seq<T>)
    requires Sorted(leq, s)
    ensures Sorted(leq, Filter(keep, s))
  {
    if s != [] {
      FilterStaysSorted(leq, keep, s[1..]);
      if keep(s[0]) {
        forall y | y in Filter(keep, s[1..]) ensures leq(s[0], y) {
          assert y in s[1..];
        }
        ConsSorted(leq, s[0], Filter(keep, s[1..]));
      }
    }
  }

  /** Selecting from a sorted sequence is sorting the selection. */
  lemma SelectionIsSorted<T(!new)>(leq: (T, T) -> bool, keep: T -> bool, s: seq<T>)
    requires TotalPreorder(leq) && Separates(leq, s)
    ensures Filter(keep, SortBy(leq, s)) == SortBy(leq, Filter(keep, s))
  {
    var selected := Filter(keep, SortBy(leq, s));
    SortBySorts(leq, s);
    FilterStaysSorted(leq, keep, SortBy(leq, s));
    SortedIsKept(leq, selected);
    FilterForgetsOrder(keep, SortBy(leq, s), s);
    forall x ensures x in SortBy(leq, s) <==> x in s {
      SortHolds(leq, s, x);
    }
    SortForgetsOrder(leq, selected, Filter(keep, s));
  }

  // ---- strings ----

  predicate LeqString(a: string, b: string) {
    a == "" || (b != "" && (a[0] < b[0] || (a[0] == b[0] && LeqString(a[1..], b[1..]))))
  }

  lemma {:induction false} LeqStringTotal(a: string, b: string)
    ensures LeqString(a, b) || LeqString(b, a)
  {
    if a != "" && b != "" && a[0] == b[0] {
      LeqStringTotal(a[1..], b[1..]);
    }
  }

  lemma {:induction false} LeqStringAntisymmetric(a: string, b: string)
    requires LeqString(a, b) && LeqString(b, a)
    ensures a == b
  {
    if a != "" && b != "" {
      LeqStringAntisymmetric(a[1..], b[1..]);
      assert a == [a[0]] + a[1..] && b == [b[0]] + b[1..];
    }
  }

  lemma {:induction false} LeqStringTransitive(a: string, b: string, c: string)
    requires LeqString(a, b) && LeqString(b, c)
    ensures LeqString(a, c)
  {
    if a != "" && a[0] == b[0] && b[0] == c[0] {
      LeqStringTransitive(a[1..], b[1..], c[1..]);
    }
  }

  lemma StringsAreOrdered()
    ensures TotalOrder(LeqString)
  {
    forall a, b ensures LeqString(a, b) || LeqString(b, a) {
      LeqStringTotal(a, b);
    }
    forall a, b | LeqString(a, b) && LeqString(b, a) ensures a == b {
      LeqStringAntisymmetric(a, b);
    }
    forall a, b, c | LeqString(a, b) && LeqString(b, c) ensures LeqString(a, c) {
      LeqStringTransitive(a, b, c);
    }
  }

  // ---- sets as sequences ----

  /** The members of a set, each once, in no particular order. */
  ghost function Members<T(!new)>(s: set<T>): (r: seq<T>)
    ensures multiset(r) == multiset(s)
    ensures forall x :: x in r <==> x in s
  {
    if s == {} then []
    else
      var x :| x in s;
      var rest := Members(s - {x});
      assert s == (s - {x}) + {x};
      [x] + rest
  }

  ghost function Listing(s: set<string>): seq<string> {
    SortBy(LeqString, Members(s))
  }

  /** `[...set].sort()`: whatever order the set is read in. */
  method ListSorted(s: set<string>) returns (r: seq<string>)
    ensures r == Listing(s)
  {
    var rest := s;
    r := [];
    while rest != {}
      invariant rest <= s && multiset(r) == multiset(s - rest)
      decreases |rest|
    {
      var x :| x in rest;
      assert s - (rest - {x}) == (s - rest) + {x};
      r, rest := r + [x], rest - {x};
    }
    assert s - rest == s;
    StringsAreOrdered();
    SortForgetsOrder(LeqString, r, Members(s));
    r := SortBy(LeqString, r);
  }

  lemma ListingMembers(s: set<string>, x: string)
    ensures x in Listing(s) <==> x in s
  {
    StringsAreOrdered();
    SortKeepsMembers(LeqString, Members(s), x);
  }

  lemma ListingHolds(s: set<string>)
    ensures forall x :: x in Listing(s) <==> x in s
  {
    forall x ensures x in Listing(s) <==> x in s {
      ListingMembers(s, x);
    }
  }

  lemma ListingIsInjective(s: set<string>, t: set<string>)
    requires Listing(s) == Listing(t)
    ensures s == t
  {
    forall x ensures x in s <==> x in t {
      ListingMembers(s, x);
      ListingMembers(t, x);
    }
  }
}
