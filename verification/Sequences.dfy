/** Filtering, mapping and truncating sequences. */
module Sequences {
  import opened Wrappers

  function Filter<T(!new)>(keep: T -> bool, s: seq<T>): (r: seq<T>)
    ensures forall x :: x in r <==> x in s && keep(x)
  {
    if s == [] then []
    else (if keep(s[0]) then [s[0]] else []) + Filter(keep, s[1..])
  }

  function Map<T, U>(f: T -> U, s: seq<T>): (r: seq<U>)
    ensures |r| == |s| && forall i :: 0 <= i < |s| ==> r[i] == f(s[i])
  {
    seq(|s|, i requires 0 <= i < |s| => f(s[i]))
  }

  function Take<T(!new)>(n: nat, s: seq<T>): (r: seq<T>)
    ensures forall x :: x in r ==> x in s
  {
    if |s| <= n then s else s[..n]
  }

  lemma {:induction false} FilterAgrees<T(!new)>(p: T -> bool, q: T -> bool, s: seq<T>)
    requires forall x :: x in s ==> p(x) == q(x)
    ensures Filter(p, s) == Filter(q, s)
  {
    if s != [] {
      FilterAgrees(p, q, s[1..]);
    }
  }

  /** A filter that keeps no more than another can be applied after it. */
  lemma {:induction false} FilterAfter<T(!new)>(p: T -> bool, q: T -> bool, s: seq<T>)
    requires forall x :: x in s && q(x) ==> p(x)
    ensures Filter(q, Filter(p, s)) == Filter(q, s)
  {
    if s != [] {
      FilterAfter(p, q, s[1..]);
      var rest := Filter(p, s[1..]);
      assert ([s[0]] + rest)[1..] == rest;
      assert Filter(p, s) == if p(s[0]) then [s[0]] + rest else rest;
    }
  }

  lemma {:induction false} FilterTwice<T(!new)>(p: T -> bool, q: T -> bool, both: T -> bool, s: seq<T>)
    requires forall x :: x in s ==> both(x) == (p(x) && q(x))
    ensures Filter(q, Filter(p, s)) == Filter(both, s)
  {
    if s != [] {
      FilterTwice(p, q, both, s[1..]);
      var rest := Filter(p, s[1..]);
      assert ([s[0]] + rest)[1..] == rest;
      assert Filter(p, s) == if p(s[0]) then [s[0]] + rest else rest;
    }
  }

  lemma {:induction false} FilterAppend<T(!new)>(p: T -> bool, s: seq<T>, t: seq<T>)
    ensures Filter(p, s + t) == Filter(p, s) + Filter(p, t)
  {
    if s == [] {
      assert s + t == t;
    } else {
      assert (s + t)[1..] == s[1..] + t;
      FilterAppend(p, s[1..], t);
    }
  }

  lemma FilterAppendOne<T(!new)>(keep: T -> bool, s: seq<T>, last: T)
    ensures Filter(keep, s + [last]) == if keep(last) then Filter(keep, s) + [last] else Filter(keep, s)
  {
    FilterAppend(keep, s, [last]);
  }

  lemma FilterNext<T(!new)>(keep: T -> bool, s: seq<T>, i: nat)
    requires i < |s|
    ensures Filter(keep, s[..i + 1]) == if keep(s[i]) then Filter(keep, s[..i]) + [s[i]] else Filter(keep, s[..i])
  {
    assert s[..i + 1] == s[..i] + [s[i]];
    FilterAppendOne(keep, s[..i], s[i]);
  }

  lemma FilterAll<T(!new)>(keep: T -> bool, s: seq<T>)
    ensures Filter(keep, s[..|s|]) == Filter(keep, s) && Filter(keep, s[..0]) == []
  {
    assert s[..|s|] == s;
  }

  lemma {:induction false} FilterEvery<T(!new)>(keep: T -> bool, s: seq<T>)
    requires forall x :: x in s ==> keep(x)
    ensures Filter(keep, s) == s
  {
    if s != [] {
      FilterEvery(keep, s[1..]);
      assert s == [s[0]] + s[1..];
    }
  }

  lemma {:induction false} FilterNone<T(!new)>(keep: T -> bool, s: seq<T>)
    requires forall x :: x in s ==> !keep(x)
    ensures Filter(keep, s) == []
  {
    if s != [] {
      FilterNone(keep, s[1..]);
    }
  }

  lemma {:induction false} FilterCounts<T(!new)>(keep: T -> bool, s: seq<T>, x: T)
    ensures multiset(Filter(keep, s))[x] == if keep(x) then multiset(s)[x] else 0
  {
    if s != [] {
      FilterCounts(keep, s[1..], x);
      assert s == [s[0]] + s[1..];
    }
  }

  lemma FilterForgetsOrder<T(!new)>(keep: T -> bool, a: seq<T>, b: seq<T>)
    requires multiset(a) == multiset(b)
    ensures multiset(Filter(keep, a)) == multiset(Filter(keep, b))
  {
    forall x: T ensures multiset(Filter(keep, a))[x] == multiset(Filter(keep, b))[x] {
      FilterCounts(keep, a, x);
      FilterCounts(keep, b, x);
    }
  }

  lemma MapHolds<T(!new), U>(f: T -> U, s: seq<T>, x: T)
    requires x in s
    ensures f(x) in Map(f, s)
  {
    var i :| 0 <= i < |s| && s[i] == x;
    assert Map(f, s)[i] == f(x);
  }

  lemma MapAgrees<T(!new), U>(f: T -> U, g: T -> U, s: seq<T>)
    requires forall x :: x in s ==> f(x) == g(x)
    ensures Map(f, s) == Map(g, s)
  {
  }

  lemma MapSplits<T(!new), U>(f: T -> U, a: seq<T>, b: seq<T>)
    ensures Map(f, a + b) == Map(f, a) + Map(f, b)
  {
  }

  lemma MapMovesFirst<T(!new), U>(f: T -> U, x: T, before: seq<T>, after: seq<T>)
    ensures multiset(Map(f, before + ([x] + after))) == multiset{f(x)} + multiset(Map(f, before + after))
  {
    MapSplits(f, before, [x] + after);
    MapSplits(f, [x], after);
    MapSplits(f, before, after);
    assert Map(f, [x]) == [f(x)];
  }

  lemma SplitAt<T(!new)>(x: T, s: seq<T>) returns (before: seq<T>, after: seq<T>)
    requires x in s
    ensures s == before + ([x] + after)
  {
    var i :| 0 <= i < |s| && s[i] == x;
    before, after := s[..i], s[i + 1..];
  }

  lemma RestsAgree<T(!new)>(x: T, rest: seq<T>, before: seq<T>, after: seq<T>)
    requires multiset([x] + rest) == multiset(before + ([x] + after))
    ensures multiset(rest) == multiset(before + after)
  {
    assert multiset([x] + rest) == multiset{x} + multiset(rest);
    assert multiset(before + ([x] + after)) == multiset{x} + multiset(before + after);
    assert multiset(rest) == (multiset{x} + multiset(rest)) - multiset{x};
    assert multiset(before + after) == (multiset{x} + multiset(before + after)) - multiset{x};
  }

  lemma {:induction false} MapForgetsOrder<T(!new), U>(f: T -> U, a: seq<T>, b: seq<T>)
    requires multiset(a) == multiset(b)
    ensures multiset(Map(f, a)) == multiset(Map(f, b))
    decreases |a|
  {
    if a == [] {
      assert |b| == |multiset(b)| == |multiset(a)| == 0;
    } else {
      var x, rest := a[0], a[1..];
      assert a == [x] + rest;
      assert x in multiset(a);
      var before, after := SplitAt(x, b);
      RestsAgree(x, rest, before, after);
      MapForgetsOrder(f, rest, before + after);
      MapMovesFirst(f, x, before, after);
      MapSplits(f, [x], rest);
      assert Map(f, [x]) == [f(x)];
    }
  }

  // ---- all of them, or the first failure ----

  function AllOk<T, U, E>(get: T -> Result<U, E>, s: seq<T>): Result<seq<U>, E> {
    if s == [] then Ok([])
    else
      var first :- get(s[0]);
      var rest :- AllOk(get, s[1..]);
      Ok([first] + rest)
  }

  lemma {:induction false} AllOkFinds<T, U, E>(get: T -> Result<U, E>, s: seq<T>, found: seq<U>)
    requires |found| == |s| && forall k :: 0 <= k < |s| ==> get(s[k]) == Ok(found[k])
    ensures AllOk(get, s) == Ok(found)
  {
    if s != [] {
      AllOkFinds(get, s[1..], found[1..]);
      assert get(s[0]) == Ok(found[0]) && found == [found[0]] + found[1..];
    }
  }

  lemma {:induction false} AllOkMisses<T, U, E>(get: T -> Result<U, E>, s: seq<T>, k: nat, error: E)
    requires k < |s| && get(s[k]).Err?
    requires forall x :: x in s && get(x).Err? ==> get(x).error == error
    ensures AllOk(get, s) == Err(error)
  {
    if get(s[0]).Ok? {
      AllOkMisses(get, s[1..], k - 1, error);
    }
  }

  lemma {:induction false} AllOkAgrees<T, U, E>(f: T -> Result<U, E>, g: T -> Result<U, E>, s: seq<T>)
    requires forall x :: x in s ==> f(x) == g(x)
    ensures AllOk(f, s) == AllOk(g, s)
  {
    if s != [] {
      AllOkAgrees(f, g, s[1..]);
    }
  }

  lemma {:induction false} AllOkAt<T, U, E>(get: T -> Result<U, E>, s: seq<T>)
    requires AllOk(get, s).Ok?
    ensures |AllOk(get, s).value| == |s|
    ensures forall k :: 0 <= k < |s| ==> get(s[k]) == Ok(AllOk(get, s).value[k])
  {
    if s != [] {
      AllOkAt(get, s[1..]);
    }
  }
}
