/**
 * The normal form behind canonical JSON: undefined entries dropped, keys in order, at every
 * depth. `leq` is the order the keys end up in; any total order will do.
 */
module CanonicalJson {
  import opened Ordering

  type Key = string

  datatype Property = Property(key: Key, value: Json)

  datatype Json =
    | Undefined
    | Null
    | Bool(truth: bool)
    | Number(number: real)
    | Text(text: string)
    | Array(items: seq<Json>)
    | Object(entries: seq<Property>)

  function ByKey(leq: (Key, Key) -> bool): (Property, Property) -> bool {
    (a: Property, b: Property) => leq(a.key, b.key)
  }

  // ---- the normal form ----

  function Normal(leq: (Key, Key) -> bool, j: Json): Json
    decreases j
  {
    match j
    case Array(items) => Array(NormalItems(leq, items))
    case Object(entries) => Object(SortBy(ByKey(leq), NormalEntries(leq, entries)))
    case _ => j
  }

  function NormalItems(leq: (Key, Key) -> bool, items: seq<Json>): (r: seq<Json>)
    ensures |r| == |items|
    decreases items
  {
    if items == [] then [] else [Normal(leq, items[0])] + NormalItems(leq, items[1..])
  }

  function NormalEntry(leq: (Key, Key) -> bool, e: Property): Property
    decreases e
  {
    Property(e.key, Normal(leq, e.value))
  }

  /** Sorting by key and normalizing values commute, so values are normalized first. */
  function NormalEntries(leq: (Key, Key) -> bool, entries: seq<Property>): seq<Property>
    decreases entries
  {
    if entries == [] then []
    else
      var rest := NormalEntries(leq, entries[1..]);
      if entries[0].value.Undefined? then rest
      else [NormalEntry(leq, entries[0])] + rest
  }

  // ---- what the normal form is to forget ----

  ghost predicate DistinctKeys(entries: seq<Property>) {
    forall i, k :: 0 <= i < k < |entries| ==> entries[i].key != entries[k].key
  }

  /** An object's entries have distinct keys, and no array entry is undefined. */
  ghost predicate WellFormed(j: Json)
    decreases j
  {
    match j
    case Array(items) => forall i :: 0 <= i < |items| ==> !items[i].Undefined? && WellFormed(items[i])
    case Object(entries) =>
      DistinctKeys(entries) && forall i :: 0 <= i < |entries| ==> WellFormed(entries[i].value)
    case _ => true
  }

  ghost predicate Defines(entries: seq<Property>, key: Key) {
    exists i :: 0 <= i < |entries| && entries[i].key == key && !entries[i].value.Undefined?
  }

  /** Equal up to the order of object keys and keys whose value is undefined. */
  ghost predicate Same(a: Json, b: Json)
    decreases a
  {
    match a
    case Array(items) =>
      b.Array? && |items| == |b.items| && forall i :: 0 <= i < |items| ==> Same(items[i], b.items[i])
    case Object(entries) =>
      && b.Object?
      && (forall key :: Defines(entries, key) <==> Defines(b.entries, key))
      && forall i, k :: 0 <= i < |entries| && 0 <= k < |b.entries| && entries[i].key == b.entries[k].key
                        && !entries[i].value.Undefined? && !b.entries[k].value.Undefined? ==>
           Same(entries[i].value, b.entries[k].value)
    case _ => a == b
  }

  // ---- entries of a normal form ----

  lemma {:induction false} NormalItemAt(leq: (Key, Key) -> bool, items: seq<Json>, i: nat)
    requires i < |items|
    ensures NormalItems(leq, items)[i] == Normal(leq, items[i])
  {
    if i > 0 {
      NormalItemAt(leq, items[1..], i - 1);
    }
  }

  ghost predicate ComesFrom(leq: (Key, Key) -> bool, entries: seq<Property>, e: Property, i: int) {
    0 <= i < |entries| && !entries[i].value.Undefined? && e == NormalEntry(leq, entries[i])
  }

  lemma {:induction false} NormalEntryHas(leq: (Key, Key) -> bool, entries: seq<Property>, i: nat)
    requires i < |entries| && !entries[i].value.Undefined?
    ensures NormalEntry(leq, entries[i]) in NormalEntries(leq, entries)
  {
    if i > 0 {
      NormalEntryHas(leq, entries[1..], i - 1);
    }
  }

  lemma {:induction false} NormalEntryFrom(leq: (Key, Key) -> bool, entries: seq<Property>, e: Property) returns (i: nat)
    requires e in NormalEntries(leq, entries)
    ensures ComesFrom(leq, entries, e, i)
  {
    if ComesFrom(leq, entries, e, 0) {
      i := 0;
    } else {
      var n := NormalEntryFrom(leq, entries[1..], e);
      i := n + 1;
    }
  }

  lemma {:induction false} NormalKeysDistinct(leq: (Key, Key) -> bool, entries: seq<Property>)
    requires DistinctKeys(entries)
    ensures DistinctKeys(NormalEntries(leq, entries))
  {
    if entries != [] {
      NormalKeysDistinct(leq, entries[1..]);
      var rest := NormalEntries(leq, entries[1..]);
      forall k | 0 <= k < |rest| ensures rest[k].key != entries[0].key {
        var i := NormalEntryFrom(leq, entries[1..], rest[k]);
        assert entries[1..][i] == entries[i + 1];
      }
    }
  }

  lemma KeysOrder(leq: (Key, Key) -> bool)
    requires TotalOrder(leq)
    ensures TotalPreorder(ByKey(leq))
  {
    var below := ByKey(leq);
    forall x, y ensures below(x, y) || below(y, x) {
      assert leq(x.key, y.key) || leq(y.key, x.key);
    }
    forall x, y, z | below(x, y) && below(y, z) ensures below(x, z) {
      assert leq(x.key, y.key) && leq(y.key, z.key);
    }
  }

  lemma DistinctKeysSeparate(leq: (Key, Key) -> bool, entries: seq<Property>)
    requires TotalOrder(leq) && DistinctKeys(entries)
    ensures Separates(ByKey(leq), entries)
  {
    forall x, y | x in entries && y in entries && ByKey(leq)(x, y) && ByKey(leq)(y, x) ensures x == y {
      var i :| 0 <= i < |entries| && entries[i] == x;
      var k :| 0 <= k < |entries| && entries[k] == y;
      assert leq(x.key, y.key) && leq(y.key, x.key);
    }
  }

  lemma {:induction false} DistinctKeysOnce(entries: seq<Property>, e: Property)
    requires DistinctKeys(entries)
    ensures multiset(entries)[e] == if e in entries then 1 else 0
  {
    if entries != [] {
      DistinctKeysOnce(entries[1..], e);
      assert entries == [entries[0]] + entries[1..];
    }
  }

  // ---- idempotence ----

  ghost predicate AllNormal(leq: (Key, Key) -> bool, entries: seq<Property>) {
    forall e :: e in entries ==> !e.value.Undefined? && Normal(leq, e.value) == e.value
  }

  lemma {:induction false} NormalEntriesAreKept(leq: (Key, Key) -> bool, entries: seq<Property>)
    requires AllNormal(leq, entries)
    ensures NormalEntries(leq, entries) == entries
  {
    if entries != [] {
      assert entries == [entries[0]] + entries[1..];
      NormalEntriesAreKept(leq, entries[1..]);
      assert entries[0] in entries;
    }
  }

  /** Normalizing twice is normalizing once. */
  lemma {:induction false} NormalIsIdempotent(leq: (Key, Key) -> bool, j: Json)
    requires TotalOrder(leq)
    ensures Normal(leq, Normal(leq, j)) == Normal(leq, j)
    decreases j
  {
    if j.Array? {
      ItemsIdempotent(leq, j.items);
    } else if j.Object? {
      var entries := NormalEntries(leq, j.entries);
      var sorted := SortBy(ByKey(leq), entries);
      KeysOrder(leq);
      SortBySorts(ByKey(leq), entries);
      forall e | e in sorted ensures !e.value.Undefined? && Normal(leq, e.value) == e.value {
        SortHolds(ByKey(leq), entries, e);
        EntryIdempotent(leq, j.entries, e);
      }
      NormalEntriesAreKept(leq, sorted);
      SortedIsKept(ByKey(leq), sorted);
    }
  }

  lemma {:induction false} ItemsIdempotent(leq: (Key, Key) -> bool, items: seq<Json>)
    requires TotalOrder(leq)
    ensures NormalItems(leq, NormalItems(leq, items)) == NormalItems(leq, items)
    decreases items
  {
    if items != [] {
      NormalIsIdempotent(leq, items[0]);
      ItemsIdempotent(leq, items[1..]);
      assert NormalItems(leq, items)[1..] == NormalItems(leq, items[1..]);
    }
  }

  lemma {:induction false} EntryIdempotent(leq: (Key, Key) -> bool, entries: seq<Property>, e: Property)
    requires TotalOrder(leq) && e in NormalEntries(leq, entries)
    ensures !e.value.Undefined? && Normal(leq, e.value) == e.value
    decreases entries
  {
    var first := entries[0];
    if e in NormalEntries(leq, entries[1..]) {
      EntryIdempotent(leq, entries[1..], e);
    } else {
      ValueIdempotent(leq, first);
    }
  }

  lemma {:induction false} ValueIdempotent(leq: (Key, Key) -> bool, e: Property)
    requires TotalOrder(leq)
    ensures Normal(leq, Normal(leq, e.value)) == Normal(leq, e.value)
    ensures Normal(leq, e.value).Undefined? <==> e.value.Undefined?
    decreases e
  {
    NormalIsIdempotent(leq, e.value);
  }

  // ---- the normal form forgets exactly that ----

  lemma SameMultiset(a: seq<Property>, b: seq<Property>)
    requires DistinctKeys(a) && DistinctKeys(b) && forall e :: e in a <==> e in b
    ensures multiset(a) == multiset(b)
  {
    forall e: Property ensures multiset(a)[e] == multiset(b)[e] {
      DistinctKeysOnce(a, e);
      DistinctKeysOnce(b, e);
    }
  }

  lemma SortedEntriesAgree(leq: (Key, Key) -> bool, x: seq<Property>, y: seq<Property>)
    requires TotalOrder(leq) && DistinctKeys(x) && DistinctKeys(y)
    ensures SortBy(ByKey(leq), x) == SortBy(ByKey(leq), y) <==> forall e :: e in x <==> e in y
  {
    KeysOrder(leq);
    DistinctKeysSeparate(leq, x);
    SortForgetsOrder(ByKey(leq), x, y);
    if forall e :: e in x <==> e in y {
      SameMultiset(x, y);
    }
    if multiset(x) == multiset(y) {
      forall e ensures e in x <==> e in y {
        assert e in x <==> e in multiset(x);
        assert e in y <==> e in multiset(y);
      }
    }
  }

  lemma ObjectsAreTheirEntries(x: seq<Property>, y: seq<Property>)
    ensures Object(x) == Object(y) <==> x == y
  {
    assert Object(x).entries == x && Object(y).entries == y;
  }

  lemma NormalObject(leq: (Key, Key) -> bool, entries: seq<Property>)
    ensures Normal(leq, Object(entries)) == Object(SortBy(ByKey(leq), NormalEntries(leq, entries)))
  {
  }

  /** Two objects have one normal form exactly when their normalized entries are the same set. */
  lemma ObjectsAgree(leq: (Key, Key) -> bool, a: seq<Property>, b: seq<Property>)
    requires TotalOrder(leq) && DistinctKeys(a) && DistinctKeys(b)
    ensures Normal(leq, Object(a)) == Normal(leq, Object(b)) <==>
              forall e :: e in NormalEntries(leq, a) <==> e in NormalEntries(leq, b)
  {
    var x, y := NormalEntries(leq, a), NormalEntries(leq, b);
    NormalObject(leq, a);
    NormalObject(leq, b);
    NormalKeysDistinct(leq, a);
    NormalKeysDistinct(leq, b);
    SortedEntriesAgree(leq, x, y);
    ObjectsAreTheirEntries(SortBy(ByKey(leq), x), SortBy(ByKey(leq), y));
  }

  lemma NormalKeyDefined(leq: (Key, Key) -> bool, entries: seq<Property>, key: Key)
    ensures Defines(entries, key) <==> exists e :: e in NormalEntries(leq, entries) && e.key == key
  {
    if Defines(entries, key) {
      var i :| 0 <= i < |entries| && entries[i].key == key && !entries[i].value.Undefined?;
      NormalEntryHas(leq, entries, i);
    }
    forall e | e in NormalEntries(leq, entries) && e.key == key ensures Defines(entries, key) {
      var i := NormalEntryFrom(leq, entries, e);
    }
  }

  /** Values under one key, and the entries they normalize to, agree together. */
  ghost predicate PairAgrees(leq: (Key, Key) -> bool, x: Property, y: Property) {
    x.key == y.key && !x.value.Undefined? && !y.value.Undefined? ==>
      (Normal(leq, x.value) == Normal(leq, y.value) <==> Same(x.value, y.value))
  }

  lemma {:induction false} OneNormalFormIsSame(leq: (Key, Key) -> bool, a: seq<Property>, b: seq<Property>)
    requires DistinctKeys(b)
    requires forall i, k :: 0 <= i < |a| && 0 <= k < |b| ==> PairAgrees(leq, a[i], b[k])
    requires forall e :: e in NormalEntries(leq, a) <==> e in NormalEntries(leq, b)
    ensures Same(Object(a), Object(b))
  {
    forall key ensures Defines(a, key) <==> Defines(b, key) {
      NormalKeyDefined(leq, a, key);
      NormalKeyDefined(leq, b, key);
    }
    forall i, k | 0 <= i < |a| && 0 <= k < |b| && a[i].key == b[k].key && !a[i].value.Undefined? && !b[k].value.Undefined?
      ensures Same(a[i].value, b[k].value)
    {
      NormalEntryHas(leq, a, i);
      var n := NormalEntryFrom(leq, b, NormalEntry(leq, a[i]));
      assert n == k;
      assert PairAgrees(leq, a[i], b[k]);
    }
  }

  lemma {:induction false} SameHasOneNormalForm(leq: (Key, Key) -> bool, a: seq<Property>, b: seq<Property>, e: Property)
    requires forall i, k :: 0 <= i < |a| && 0 <= k < |b| ==> PairAgrees(leq, a[i], b[k])
    requires Same(Object(a), Object(b)) && e in NormalEntries(leq, a)
    ensures e in NormalEntries(leq, b)
  {
    var i := NormalEntryFrom(leq, a, e);
    assert Defines(a, a[i].key);
    var k :| 0 <= k < |b| && b[k].key == a[i].key && !b[k].value.Undefined?;
    assert PairAgrees(leq, a[i], b[k]);
    NormalEntryHas(leq, b, k);
  }

  lemma {:induction false} SameHasOneNormalFormBack(leq: (Key, Key) -> bool, a: seq<Property>, b: seq<Property>, e: Property)
    requires forall i, k :: 0 <= i < |a| && 0 <= k < |b| ==> PairAgrees(leq, a[i], b[k])
    requires Same(Object(a), Object(b)) && e in NormalEntries(leq, b)
    ensures e in NormalEntries(leq, a)
  {
    var k := NormalEntryFrom(leq, b, e);
    assert Defines(b, b[k].key);
    assert Defines(a, b[k].key);
    var i :| 0 <= i < |a| && a[i].key == b[k].key && !a[i].value.Undefined?;
    assert PairAgrees(leq, a[i], b[k]);
    NormalEntryHas(leq, a, i);
  }

  lemma {:induction false} ArraysAgree(leq: (Key, Key) -> bool, a: seq<Json>, b: seq<Json>)
    requires |a| == |b|
    ensures NormalItems(leq, a) == NormalItems(leq, b) <==>
              forall i :: 0 <= i < |a| ==> Normal(leq, a[i]) == Normal(leq, b[i])
  {
    forall i | 0 <= i < |a|
      ensures NormalItems(leq, a)[i] == Normal(leq, a[i]) && NormalItems(leq, b)[i] == Normal(leq, b[i])
    {
      NormalItemAt(leq, a, i);
      NormalItemAt(leq, b, i);
    }
  }

  /** Two values share their normal form exactly when they are the same up to key order and undefined keys. */
  lemma {:induction false} NormalFormsAgree(leq: (Key, Key) -> bool, a: Json, b: Json)
    requires TotalOrder(leq) && WellFormed(a) && WellFormed(b)
    ensures Normal(leq, a) == Normal(leq, b) <==> Same(a, b)
    decreases a
  {
    if a.Array? && b.Array? {
      if |a.items| == |b.items| {
        ArraysAgree(leq, a.items, b.items);
        forall i | 0 <= i < |a.items|
          ensures Normal(leq, a.items[i]) == Normal(leq, b.items[i]) <==> Same(a.items[i], b.items[i])
        {
          NormalFormsAgree(leq, a.items[i], b.items[i]);
        }
      } else {
        assert |NormalItems(leq, a.items)| != |NormalItems(leq, b.items)|;
      }
    } else if a.Object? && b.Object? {
      forall i, k | 0 <= i < |a.entries| && 0 <= k < |b.entries|
        ensures PairAgrees(leq, a.entries[i], b.entries[k])
      {
        NormalFormsAgree(leq, a.entries[i].value, b.entries[k].value);
      }
      ObjectsAgree(leq, a.entries, b.entries);
      if Same(a, b) {
        forall e ensures e in NormalEntries(leq, a.entries) <==> e in NormalEntries(leq, b.entries) {
          if e in NormalEntries(leq, a.entries) {
            SameHasOneNormalForm(leq, a.entries, b.entries, e);
          }
          if e in NormalEntries(leq, b.entries) {
            SameHasOneNormalFormBack(leq, a.entries, b.entries, e);
          }
        }
      } else if Normal(leq, a) == Normal(leq, b) {
        OneNormalFormIsSame(leq, a.entries, b.entries);
        assert false;
      }
    }
  }
}
