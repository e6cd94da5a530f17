/**
 * The two frame-ancestry walkers: `contextIndex.resolve`, which finds the Context an
 * element belongs to, and `elementIdsInContextFrame`, which lists a Context's elements.
 */
module ContextIndex {
  import opened Wrappers
  import opened Scene
  import opened Ordering

  /** The frame ids a walk visits, nearest first, until the chain ends or repeats. */
  function Ancestors(byId: map<string, Element>, start: Option<string>, visited: set<string>): seq<string>
    decreases |byId.Keys - visited|, if start.Some? then 1 else 0
  {
    if start.None? || start.value in visited then []
    else
      VisitedGrows(byId, visited, start.value);
      [start.value] + Ancestors(byId, Parent(byId, start.value), visited + {start.value})
  }

  /** Why the walks end: a frame of the scene is visited once, and a missing one has no parent. */
  lemma VisitedGrows(byId: map<string, Element>, visited: set<string>, id: string)
    requires id !in visited
    ensures id in byId ==> |byId.Keys - (visited + {id})| < |byId.Keys - visited|
    ensures id !in byId ==> |byId.Keys - (visited + {id})| == |byId.Keys - visited| && Parent(byId, id).None?
  {
    assert byId.Keys - (visited + {id}) == (byId.Keys - visited) - {id};
  }

  /** The element itself, then the frames around it. */
  function Lineage(byId: map<string, Element>, e: Element): seq<string> {
    [e.id] + Ancestors(byId, Truthy(e.frameId), {})
  }

  function FirstContext(byFrame: map<string, string>, path: seq<string>): Option<string> {
    if path == [] then None
    else if path[0] in byFrame && byFrame[path[0]] != "" then Some(byFrame[path[0]])
    else FirstContext(byFrame, path[1..])
  }

  function Resolved(byId: map<string, Element>, byFrame: map<string, string>, e: Element): Option<string> {
    FirstContext(byFrame, Lineage(byId, e))
  }

  function InFrame(byId: map<string, Element>, frame: string): set<string> {
    set id | id in byId && frame in Lineage(byId, byId[id])
  }

  /** The resolver with its cache; `asked` remembers which element each cached id was asked for. */
  class Index {
    const byId: map<string, Element>
    const byFrame: map<string, string>
    var cache: map<string, Option<string>>
    ghost var asked: map<string, Element>

    ghost predicate Valid()
      reads this
    {
      asked.Keys == cache.Keys
      && forall id :: id in asked ==> asked[id].id == id && cache[id] == Resolved(byId, byFrame, asked[id])
    }

    constructor (elements: seq<Element>, contexts: seq<Context>)
      ensures Valid() && byId == ById(elements) && byFrame == ByFrame(contexts) && asked == map[]
    {
      byId := ById(elements);
      byFrame := ByFrame(contexts);
      cache := map[];
      asked := map[];
    }

    /**
     * The answer is the nearest Context of the first element asked for under this id: of the
     * element itself, then, whatever else was asked before, unless two elements share the id.
     */
    method Resolve(e: Element) returns (r: Option<string>)
      requires Valid()
      modifies this`cache, this`asked
      ensures Valid()
      ensures asked == if e.id in old(asked) then old(asked) else old(asked)[e.id := e]
      ensures r == Resolved(byId, byFrame, asked[e.id])
      ensures (e.id in old(asked) ==> old(asked)[e.id] == e) ==> r == Resolved(byId, byFrame, e)
    {
      if e.id in cache {
        return cache[e.id];
      }
      r := NearestContext(byId, byFrame, e);
      cache := cache[e.id := r];
      asked := asked[e.id := e];
    }
  }

  /** The uncached walk of the resolver. */
  method NearestContext(byId: map<string, Element>, byFrame: map<string, string>, e: Element) returns (r: Option<string>)
    ensures r == Resolved(byId, byFrame, e)
  {
    var path := Lineage(byId, e);
    if e.id in byFrame && byFrame[e.id] != "" {
      return Some(byFrame[e.id]);
    }
    var frame := Truthy(e.frameId);
    var visited: set<string> := {};
    assert path[1..] == Ancestors(byId, frame, {});
    while frame.Some? && frame.value !in visited
      invariant FirstContext(byFrame, path) == FirstContext(byFrame, Ancestors(byId, frame, visited))
      decreases |byId.Keys - visited|, if frame.Some? then 1 else 0
    {
      var id := frame.value;
      assert Ancestors(byId, frame, visited)[1..] == Ancestors(byId, Parent(byId, id), visited + {id});
      VisitedGrows(byId, visited, id);
      if id in byFrame && byFrame[id] != "" {
        return Some(byFrame[id]);
      }
      visited := visited + {id};
      frame := Parent(byId, id);
    }
    return None;
  }

  method BelongsToFrame(byId: map<string, Element>, e: Element, frame: string) returns (yes: bool)
    ensures yes <==> frame in Lineage(byId, e)
  {
    if e.id == frame {
      return true;
    }
    var parent := Truthy(e.frameId);
    var visited: set<string> := {};
    while parent.Some? && parent.value !in visited
      invariant frame in Lineage(byId, e) <==> frame in Ancestors(byId, parent, visited)
      decreases |byId.Keys - visited|, if parent.Some? then 1 else 0
    {
      var id := parent.value;
      if id == frame {
        return true;
      }
      VisitedGrows(byId, visited, id);
      visited := visited + {id};
      parent := Parent(byId, id);
    }
    return false;
  }

  function SeqSet(s: seq<string>): set<string> {
    set k | k in s
  }

  function Listed(byId: map<string, Element>, frame: string, among: set<string>): set<string> {
    set id | id in among && id in byId && frame in Lineage(byId, byId[id])
  }

  lemma ListedGrows(byId: map<string, Element>, frame: string, among: set<string>, id: string, ids: seq<string>)
    requires id in byId && id !in among && multiset(ids) == multiset(Listed(byId, frame, among))
    ensures multiset(if frame in Lineage(byId, byId[id]) then ids + [id] else ids)
            == multiset(Listed(byId, frame, among + {id}))
  {
    var was, now := Listed(byId, frame, among), Listed(byId, frame, among + {id});
    if frame in Lineage(byId, byId[id]) {
      assert now == was + {id} && id !in was;
    } else {
      assert now == was;
    }
  }

  lemma SplitOrder(byId: map<string, Element>, order: seq<string>, i: nat)
    requires multiset(order) == multiset(byId.Keys) && i < |order|
    ensures order[i] in byId && order[i] !in order[..i]
  {
    assert order[i] in multiset(order);
    assert order == order[..i] + [order[i]] + order[i + 1..];
    assert multiset(order)[order[i]] == 1;
    assert order[i] in order[..i] <==> order[i] in multiset(order[..i]);
  }

  lemma OrderStep(byId: map<string, Element>, order: seq<string>, i: nat, frame: string, ids: seq<string>)
    requires multiset(order) == multiset(byId.Keys) && i < |order|
    requires multiset(ids) == multiset(Listed(byId, frame, SeqSet(order[..i])))
    ensures order[i] in byId
    ensures multiset(if frame in Lineage(byId, byId[order[i]]) then ids + [order[i]] else ids)
            == multiset(Listed(byId, frame, SeqSet(order[..i + 1])))
  {
    SplitOrder(byId, order, i);
    ListedGrows(byId, frame, SeqSet(order[..i]), order[i], ids);
    assert order[..i + 1] == order[..i] + [order[i]];
    assert SeqSet(order[..i + 1]) == SeqSet(order[..i]) + {order[i]};
  }

  lemma AllListed(byId: map<string, Element>, order: seq<string>, frame: string)
    requires multiset(order) == multiset(byId.Keys)
    ensures Listed(byId, frame, SeqSet(order)) == InFrame(byId, frame)
  {
    assert forall k :: k in order <==> k in multiset(order);
  }

  /** `order` holds the keys in whatever order the map was filled. */
  method BelongingTo(byId: map<string, Element>, order: seq<string>, frame: string) returns (ids: seq<string>)
    requires multiset(order) == multiset(byId.Keys)
    ensures multiset(ids) == multiset(InFrame(byId, frame))
  {
    ids := [];
    var i := 0;
    while i < |order|
      invariant 0 <= i <= |order|
      invariant multiset(ids) == multiset(Listed(byId, frame, SeqSet(order[..i])))
    {
      OrderStep(byId, order, i, frame, ids);
      var yes := BelongsToFrame(byId, byId[order[i]], frame);
      if yes {
        ids := ids + [order[i]];
      }
      i := i + 1;
    }
    assert order[..i] == order;
    AllListed(byId, order, frame);
  }

  /** Keys in the order a JavaScript map iterates them: by first occurrence. */
  function FirstOccurrences(elements: seq<Element>): (r: seq<string>)
    ensures multiset(r) == multiset(ById(elements).Keys)
  {
    if elements == [] then []
    else
      var n := |elements| - 1;
      var last, before := elements[n].id, FirstOccurrences(elements[..n]);
      assert ById(elements).Keys == ById(elements[..n]).Keys + {last};
      if last in ById(elements[..n]) then before else before + [last]
  }

  method ElementIdsInContextFrame(entries: seq<Entry>, frame: string) returns (ids: seq<string>)
    ensures ids == Listing(InFrame(ById(LiveElements(entries)), frame))
  {
    var live := LiveElements(entries);
    ids := BelongingTo(ById(live), FirstOccurrences(live), frame);
    StringsAreOrdered();
    SortForgetsOrder(LeqString, ids, Members(InFrame(ById(live), frame)));
    ids := SortBy(LeqString, ids);
  }

  // ---- what the walks compute ----

  /** The frame an element names; an empty name is none. */
  ghost function FrameNamed(e: Element): Option<string> {
    if e.frameId == None || e.frameId == Some("") then None else e.frameId
  }

  /** The frame reached after `n` steps outwards. */
  ghost function Climb(byId: map<string, Element>, e: Element, n: nat): Option<string> {
    if n == 0 then Some(e.id)
    else if n == 1 then FrameNamed(e)
    else
      var below := Climb(byId, e, n - 1);
      if below.None? || below.value !in byId then None else FrameNamed(byId[below.value])
  }

  lemma ClimbsByParent(byId: map<string, Element>, e: Element, n: nat)
    ensures Climb(byId, e, 0) == Some(e.id) && Climb(byId, e, 1) == Truthy(e.frameId)
    ensures n > 0 && Climb(byId, e, n).Some? ==> Climb(byId, e, n + 1) == Parent(byId, Climb(byId, e, n).value)
    ensures n > 0 && Climb(byId, e, n).None? ==> Climb(byId, e, n + 1).None?
  {
  }

  ghost predicate ClosedUpTo(byId: map<string, Element>, s: set<string>, next: Option<string>) {
    forall id :: id in s && Parent(byId, id).Some? ==> Parent(byId, id).value in s || Parent(byId, id) == next
  }

  function Reached(byId: map<string, Element>, start: Option<string>, visited: set<string>): set<string> {
    visited + (set x | x in Ancestors(byId, start, visited))
  }

  lemma ReachedUnrolls(byId: map<string, Element>, id: string, visited: set<string>)
    requires id !in visited
    ensures Reached(byId, Some(id), visited) == Reached(byId, Parent(byId, id), visited + {id})
  {
    assert Ancestors(byId, Some(id), visited) == [id] + Ancestors(byId, Parent(byId, id), visited + {id});
  }

  /** Together with what was visited before, the frames of a walk are closed under taking the parent. */
  lemma {:induction false} AncestorsAreClosed(byId: map<string, Element>, start: Option<string>, visited: set<string>)
    requires ClosedUpTo(byId, visited, start)
    ensures start.Some? ==> start.value in Reached(byId, start, visited)
    ensures ClosedUpTo(byId, Reached(byId, start, visited), None)
    decreases |byId.Keys - visited|, if start.Some? then 1 else 0
  {
    if start.Some? && start.value !in visited {
      var id := start.value;
      VisitedGrows(byId, visited, id);
      ReachedUnrolls(byId, id, visited);
      AncestorsAreClosed(byId, Parent(byId, id), visited + {id});
    } else {
      assert Reached(byId, start, visited) == visited;
    }
  }

  lemma {:induction false} AncestorsAreClimbed(
      byId: map<string, Element>, e: Element, n: nat, visited: set<string>, f: string)
    requires n > 0 && f in Ancestors(byId, Climb(byId, e, n), visited)
    ensures exists m: nat :: m > 0 && Climb(byId, e, m) == Some(f)
    decreases |byId.Keys - visited|, if Climb(byId, e, n).Some? then 1 else 0
  {
    var start := Climb(byId, e, n);
    var id := start.value;
    if f != id {
      VisitedGrows(byId, visited, id);
      ClimbsByParent(byId, e, n);
      AncestorsAreClimbed(byId, e, n + 1, visited + {id}, f);
    }
  }

  lemma {:induction false} ClimbStaysInside(byId: map<string, Element>, e: Element, n: nat)
    requires n > 0 && Climb(byId, e, n).Some?
    ensures Climb(byId, e, n).value in Reached(byId, Truthy(e.frameId), {})
  {
    AncestorsAreClosed(byId, Truthy(e.frameId), {});
    ClimbsByParent(byId, e, n - 1);
    if n > 1 {
      ClimbStaysInside(byId, e, n - 1);
    }
  }

  /** A walk visits exactly the frames around the element, whether the chain ends, dangles or loops. */
  lemma LineageIsEveryAncestor(byId: map<string, Element>, e: Element, f: string)
    ensures f in Lineage(byId, e) <==> exists n: nat :: Climb(byId, e, n) == Some(f)
  {
    ClimbsByParent(byId, e, 0);
    if f in Ancestors(byId, Truthy(e.frameId), {}) {
      AncestorsAreClimbed(byId, e, 1, {}, f);
    }
    forall n: nat | Climb(byId, e, n) == Some(f) ensures f in Lineage(byId, e) {
      if n > 0 {
        ClimbStaysInside(byId, e, n);
      }
    }
  }

  lemma {:induction false} AncestorsInOrder(byId: map<string, Element>, e: Element, n: nat, visited: set<string>, k: nat)
    requires n > 0 && k < |Ancestors(byId, Climb(byId, e, n), visited)|
    ensures Climb(byId, e, n + k) == Some(Ancestors(byId, Climb(byId, e, n), visited)[k])
    decreases |byId.Keys - visited|, if Climb(byId, e, n).Some? then 1 else 0
  {
    if k > 0 {
      var id := Climb(byId, e, n).value;
      VisitedGrows(byId, visited, id);
      ClimbsByParent(byId, e, n);
      AncestorsInOrder(byId, e, n + 1, visited + {id}, k - 1);
    }
  }

  /** The walk goes outwards one step at a time. */
  lemma LineageInOrder(byId: map<string, Element>, e: Element, k: nat)
    requires k < |Lineage(byId, e)|
    ensures Climb(byId, e, k) == Some(Lineage(byId, e)[k])
  {
    ClimbsByParent(byId, e, 0);
    if k > 0 {
      AncestorsInOrder(byId, e, 1, {}, k - 1);
    }
  }

  ghost predicate BoundsContext(byFrame: map<string, string>, f: string) {
    f in byFrame && byFrame[f] != ""
  }

  /** `n` steps outwards stands the nearest frame that bounds a Context, and it bounds `c`. */
  ghost predicate NearestFrame(byId: map<string, Element>, byFrame: map<string, string>, e: Element, n: nat, c: string) {
    && Climb(byId, e, n).Some? && BoundsContext(byFrame, Climb(byId, e, n).value)
    && byFrame[Climb(byId, e, n).value] == c
    && forall m: nat :: m < n && Climb(byId, e, m).Some? ==> !BoundsContext(byFrame, Climb(byId, e, m).value)
  }

  lemma {:induction false} FirstContextAt(byFrame: map<string, string>, path: seq<string>) returns (k: nat)
    ensures FirstContext(byFrame, path).None? ==> forall f :: f in path ==> !BoundsContext(byFrame, f)
    ensures FirstContext(byFrame, path).Some? ==>
              k < |path| && BoundsContext(byFrame, path[k]) && FirstContext(byFrame, path) == Some(byFrame[path[k]])
              && forall i :: 0 <= i < k ==> !BoundsContext(byFrame, path[i])
  {
    k := 0;
    if path != [] && !BoundsContext(byFrame, path[0]) {
      var n := FirstContextAt(byFrame, path[1..]);
      k := n + 1;
      assert path == [path[0]] + path[1..];
    }
  }

  lemma ClimbedIsInLineage(byId: map<string, Element>, e: Element, n: nat, f: string)
    requires Climb(byId, e, n) == Some(f)
    ensures f in Lineage(byId, e)
  {
    if n > 0 {
      ClimbStaysInside(byId, e, n);
    }
  }

  lemma ResolvedIsNearest(byId: map<string, Element>, byFrame: map<string, string>, e: Element) returns (k: nat)
    ensures var r := Resolved(byId, byFrame, e);
            && (r.Some? ==> NearestFrame(byId, byFrame, e, k, r.value))
            && (r.None? ==> forall n: nat, c :: !NearestFrame(byId, byFrame, e, n, c))
  {
    var path := Lineage(byId, e);
    k := FirstContextAt(byFrame, path);
    if Resolved(byId, byFrame, e).Some? {
      LineageInOrder(byId, e, k);
      forall m: nat | m < k ensures Climb(byId, e, m) == Some(path[m]) {
        LineageInOrder(byId, e, m);
      }
    } else {
      forall n: nat, c ensures !NearestFrame(byId, byFrame, e, n, c) {
        if Climb(byId, e, n).Some? {
          var f := Climb(byId, e, n).value;
          ClimbedIsInLineage(byId, e, n, f);
        }
      }
    }
  }

  /** An element resolves to `c` exactly when the nearest frame around it that bounds a Context bounds `c`. */
  lemma ResolvedExactly(byId: map<string, Element>, byFrame: map<string, string>, e: Element, c: string)
    ensures Resolved(byId, byFrame, e) == Some(c) <==> exists n: nat :: NearestFrame(byId, byFrame, e, n, c)
  {
    var k := ResolvedIsNearest(byId, byFrame, e);
    if n: nat :| NearestFrame(byId, byFrame, e, n, c) {
      assert n == k;
    }
  }

  /** The first frame of the path that bounds a Context, at position `k`. */
  predicate NearestAt(byFrame: map<string, string>, path: seq<string>, k: int) {
    0 <= k < |path| && path[k] in byFrame && forall i :: 0 <= i < k ==> path[i] !in byFrame
  }

  lemma {:induction false} FirstContextIsNearest(byFrame: map<string, string>, path: seq<string>) returns (k: nat)
    requires forall f :: f in byFrame ==> byFrame[f] != ""
    ensures FirstContext(byFrame, path).None? ==> forall f :: f in path ==> f !in byFrame
    ensures FirstContext(byFrame, path).Some? ==>
              NearestAt(byFrame, path, k) && FirstContext(byFrame, path) == Some(byFrame[path[k]])
  {
    k := 0;
    if path != [] && path[0] !in byFrame {
      var n := FirstContextIsNearest(byFrame, path[1..]);
      k := n + 1;
      assert path == [path[0]] + path[1..];
    }
  }

  lemma FramesNameContexts(contexts: seq<Context>)
    requires forall c :: c in contexts ==> c.id != ""
    ensures forall f :: f in ByFrame(contexts) ==> ByFrame(contexts)[f] != ""
  {
  }

  /**
   * An element resolves to some Context exactly when one Context's frame lists it, and it
   * then resolves to a Context with the nearest such frame: none lies closer.
   */
  lemma WalkersAgree(elements: seq<Element>, contexts: seq<Context>, e: Element)
    requires UniqueIds(elements) && e in elements
    requires forall c :: c in contexts ==> c.id != ""
    ensures Resolved(ById(elements), ByFrame(contexts), e).Some? <==>
              exists c :: c in contexts && e.id in InFrame(ById(elements), c.frame)
    ensures Resolved(ById(elements), ByFrame(contexts), e).Some? ==>
              exists k :: NearestAt(ByFrame(contexts), Lineage(ById(elements), e), k)
                && Resolved(ById(elements), ByFrame(contexts), e) == Some(ByFrame(contexts)[Lineage(ById(elements), e)[k]])
  {
    var byId, byFrame := ById(elements), ByFrame(contexts);
    var path := Lineage(byId, e);
    UniqueIdsIndexThemselves(elements, e);
    FramesNameContexts(contexts);
    var k := FirstContextIsNearest(byFrame, path);
    if Resolved(byId, byFrame, e).Some? {
      var f := path[k];
      var c :| c in contexts && c.frame == f;
      assert c in contexts && e.id in InFrame(byId, c.frame);
    }
  }
}
