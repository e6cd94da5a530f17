/**
 * The all-or-nothing batch interpreter of agent operations. Ids of created elements come from
 * an explicit supply: the n-th draw is `supply(n)`.
 */
module ApplyOps {
  import opened Wrappers
  import opened Sequences

  type Id(==, !new)

  type Field(==, !new)

  type Value(==, !new)

  /** `version` is None when it is not a number; `attrs` are the fields the server does not assign. */
  datatype Element = Element(id: Id, deleted: bool, version: Option<int>, attrs: map<Field, Value>)

  /** One entry of the stored array: an element record, or anything else. */
  datatype Entry = Junk | Entry(element: Element)

  datatype Op = Create(attrs: map<Field, Value>) | Update(id: Id, patch: map<Field, Value>) | Delete(id: Id)

  datatype State = State(byId: map<Id, Element>, order: seq<Id>, created: seq<Id>, drawn: nat)

  // ---- the interpreter, one operation at a time ----

  function Raised(e: Element): Option<int> {
    Some((if e.version.Some? then e.version.value else 0) + 1)
  }

  predicate Refers(s: State, id: Id) {
    id in s.byId && !s.byId[id].deleted
  }

  function Step(s: State, op: Op, supply: nat -> Id): Result<State, Id> {
    match op
    case Create(attrs) =>
      var id := supply(s.drawn);
      Ok(State(s.byId[id := Element(id, false, Some(1), attrs)], s.order, s.created + [id], s.drawn + 1))
    case Update(id, patch) =>
      if !Refers(s, id) then Err(id)
      else
        var e := s.byId[id];
        Ok(s.(byId := s.byId[id := Element(e.id, e.deleted, Raised(e), e.attrs + patch)]))
    case Delete(id) =>
      if !Refers(s, id) then Err(id)
      else
        var e := s.byId[id];
        Ok(s.(byId := s.byId[id := Element(e.id, true, Raised(e), e.attrs)]))
  }

  function Run(s: State, ops: seq<Op>, supply: nat -> Id): Result<State, Id>
    decreases ops
  {
    if ops == [] then Ok(s)
    else
      var next :- Step(s, ops[0], supply);
      Run(next, ops[1..], supply)
  }

  function Loaded(entries: seq<Entry>, drawn: nat): State {
    if entries == [] then State(map[], [], [], drawn)
    else
      var before, last := Loaded(entries[..|entries| - 1], drawn), entries[|entries| - 1];
      if last.Junk? then before
      else before.(byId := before.byId[last.element.id := last.element], order := before.order + [last.element.id])
  }

  ghost predicate Listable(s: State) {
    && (forall id :: id in s.order + s.created <==> id in s.byId)
    && (forall id :: id in s.byId ==> s.byId[id].id == id)
  }

  function Listed(s: State): seq<Element>
    requires Listable(s)
  {
    Lookup(s.byId, s.order + s.created)
  }

  function Lookup(byId: map<Id, Element>, ids: seq<Id>): (r: seq<Element>)
    requires forall id :: id in ids ==> id in byId
    ensures |r| == |ids| && forall i :: 0 <= i < |ids| ==> r[i] == byId[ids[i]]
  {
    seq(|ids|, i requires 0 <= i < |ids| => byId[ids[i]])
  }

  lemma {:induction false} LoadedIsListable(entries: seq<Entry>, drawn: nat)
    ensures Listable(Loaded(entries, drawn))
    ensures Loaded(entries, drawn).created == [] && Loaded(entries, drawn).drawn == drawn
  {
    if entries != [] {
      LoadedIsListable(entries[..|entries| - 1], drawn);
    }
  }

  lemma StepIsListable(s: State, op: Op, supply: nat -> Id)
    requires Listable(s) && Step(s, op, supply).Ok?
    ensures Listable(Step(s, op, supply).value)
  {
  }

  lemma {:induction false} RunIsListable(s: State, ops: seq<Op>, supply: nat -> Id)
    requires Listable(s) && Run(s, ops, supply).Ok?
    ensures Listable(Run(s, ops, supply).value)
    decreases ops
  {
    if ops != [] {
      StepIsListable(s, ops[0], supply);
      RunIsListable(Step(s, ops[0], supply).value, ops[1..], supply);
    }
  }

  function Outcome(end: Result<State, Id>): Result<seq<Element>, Id>
    requires end.Ok? ==> Listable(end.value)
  {
    if end.Ok? then Ok(Listed(end.value)) else Err(end.error)
  }

  function Apply(entries: seq<Entry>, ops: seq<Op>, supply: nat -> Id, drawn: nat): Result<seq<Element>, Id> {
    var end := Run(Loaded(entries, drawn), ops, supply);
    LoadedIsListable(entries, drawn);
    if end.Ok? then
      RunIsListable(Loaded(entries, drawn), ops, supply);
      Outcome(end)
    else Err(end.error)
  }

  // ---- the loop ----

  method ApplyOperations(entries: seq<Entry>, ops: seq<Op>, supply: nat -> Id, drawn: nat)
    returns (r: Result<seq<Element>, Id>)
    ensures r == Apply(entries, ops, supply, drawn)
  {
    var byId: map<Id, Element> := map[];
    var order: seq<Id> := [];
    var i := 0;
    while i < |entries|
      invariant 0 <= i <= |entries|
      invariant Loaded(entries[..i], drawn) == State(byId, order, [], drawn)
    {
      assert entries[..i + 1][..i] == entries[..i];
      if entries[i].Entry? {
        byId := byId[entries[i].element.id := entries[i].element];
        order := order + [entries[i].element.id];
      }
      i := i + 1;
    }
    assert entries[..i] == entries;
    LoadedIsListable(entries, drawn);
    ghost var start := State(byId, order, [], drawn);
    var created: seq<Id> := [];
    var next := drawn;
    i := 0;
    while i < |ops|
      invariant 0 <= i <= |ops|
      invariant Run(start, ops, supply) == Run(State(byId, order, created, next), ops[i..], supply)
    {
      ghost var s := State(byId, order, created, next);
      assert ops[i..][1..] == ops[i + 1..];
      var op := ops[i];
      if op.Create? {
        var id := supply(next);
        next := next + 1;
        byId := byId[id := Element(id, false, Some(1), op.attrs)];
        created := created + [id];
      } else {
        if op.id !in byId || byId[op.id].deleted {
          assert Run(s, ops[i..], supply) == Err(op.id);
          return Err(op.id);
        }
        var existing := byId[op.id];
        if op.Update? {
          byId := byId[op.id := Element(existing.id, existing.deleted, Raised(existing), existing.attrs + op.patch)];
        } else {
          byId := byId[op.id := Element(existing.id, true, Raised(existing), existing.attrs)];
        }
      }
      i := i + 1;
    }
    RunIsListable(start, ops, supply);
    return Ok(Lookup(byId, order + created));
  }

  // ---- one batch after another ----

  lemma {:induction false} RunAppend(s: State, a: seq<Op>, b: seq<Op>, supply: nat -> Id)
    ensures Run(s, a + b, supply) == if Run(s, a, supply).Ok? then Run(Run(s, a, supply).value, b, supply)
                                     else Run(s, a, supply)
    decreases a
  {
    if a == [] {
      assert a + b == b;
    } else {
      assert (a + b)[1..] == a[1..] + b;
      if Step(s, a[0], supply).Ok? {
        RunAppend(Step(s, a[0], supply).value, a[1..], b, supply);
      }
    }
  }

  /** Two states that differ only in which ids count as created by this batch. */
  ghost predicate Alike(s: State, t: State) {
    s.byId == t.byId && s.order + s.created == t.order + t.created && s.drawn == t.drawn
  }

  lemma {:induction false} AlikeRuns(s: State, t: State, ops: seq<Op>, supply: nat -> Id)
    requires Alike(s, t)
    ensures Run(s, ops, supply).Ok? == Run(t, ops, supply).Ok?
    ensures Run(s, ops, supply).Ok? ==> Alike(Run(s, ops, supply).value, Run(t, ops, supply).value)
    ensures Run(s, ops, supply).Err? ==> Run(s, ops, supply) == Run(t, ops, supply)
    decreases ops
  {
    if ops != [] && Step(s, ops[0], supply).Ok? {
      var s', t' := Step(s, ops[0], supply).value, Step(t, ops[0], supply).value;
      if ops[0].Create? {
        var id := supply(s.drawn);
        assert s.order + (s.created + [id]) == (s.order + s.created) + [id];
        assert t.order + (t.created + [id]) == (t.order + t.created) + [id];
      }
      AlikeRuns(s', t', ops[1..], supply);
    }
  }

  function Stored(elements: seq<Element>): seq<Entry> {
    seq(|elements|, i requires 0 <= i < |elements| => Entry(elements[i]))
  }

  ghost predicate Restricts(byId: map<Id, Element>, ids: seq<Id>, m: map<Id, Element>) {
    forall id :: (id in m <==> id in ids) && (id in m ==> id in byId && m[id] == byId[id])
  }

  lemma LoadedGrows(entries: seq<Entry>, e: Element, drawn: nat)
    ensures var before := Loaded(entries, drawn);
            Loaded(entries + [Entry(e)], drawn) == before.(byId := before.byId[e.id := e], order := before.order + [e.id])
  {
    assert (entries + [Entry(e)])[..|entries|] == entries;
  }

  lemma StoredGrows(byId: map<Id, Element>, ids: seq<Id>, id: Id)
    requires id in byId && forall x :: x in ids ==> x in byId
    ensures Stored(Lookup(byId, ids + [id])) == Stored(Lookup(byId, ids)) + [Entry(byId[id])]
  {
  }

  lemma RestrictsGrows(byId: map<Id, Element>, ids: seq<Id>, m: map<Id, Element>, id: Id)
    requires Restricts(byId, ids, m) && id in byId
    ensures Restricts(byId, ids + [id], m[id := byId[id]])
  {
  }

  lemma {:induction false} ReloadedLookup(byId: map<Id, Element>, ids: seq<Id>, drawn: nat)
    requires forall id :: id in byId ==> byId[id].id == id
    requires forall id :: id in ids ==> id in byId
    ensures var s := Loaded(Stored(Lookup(byId, ids)), drawn);
            Restricts(byId, ids, s.byId) && s.order == ids && s.created == [] && s.drawn == drawn
  {
    if ids != [] {
      var before, last := ids[..|ids| - 1], ids[|ids| - 1];
      assert ids == before + [last];
      ReloadedLookup(byId, before, drawn);
      StoredGrows(byId, before, last);
      LoadedGrows(Stored(Lookup(byId, before)), byId[last], drawn);
      RestrictsGrows(byId, before, Loaded(Stored(Lookup(byId, before)), drawn).byId, last);
    }
  }

  /** Storing a result and loading it again gives back the state the batch ended in. */
  lemma ReloadedIsAlike(s: State)
    requires Listable(s)
    ensures Alike(Loaded(Stored(Listed(s)), s.drawn), s)
  {
    ReloadedLookup(s.byId, s.order + s.created, s.drawn);
  }

  function Creates(ops: seq<Op>): nat {
    if ops == [] then 0 else (if ops[0].Create? then 1 else 0) + Creates(ops[1..])
  }

  function Draws(supply: nat -> Id, drawn: nat, n: nat): seq<Id> {
    seq(n, i requires 0 <= i => supply(drawn + i))
  }

  /** The ids that were there keep their order, and each creation appends the next draw. */
  lemma {:induction false} RunKeepsOrder(s: State, ops: seq<Op>, supply: nat -> Id)
    requires Run(s, ops, supply).Ok?
    ensures Run(s, ops, supply).value.drawn == s.drawn + Creates(ops)
    ensures Run(s, ops, supply).value.order == s.order
    ensures Run(s, ops, supply).value.created == s.created + Draws(supply, s.drawn, Creates(ops))
    decreases ops
  {
    if ops != [] {
      RunKeepsOrder(Step(s, ops[0], supply).value, ops[1..], supply);
      if ops[0].Create? {
        assert Draws(supply, s.drawn, Creates(ops))
            == [supply(s.drawn)] + Draws(supply, s.drawn + 1, Creates(ops[1..]));
      }
    }
  }

  lemma AlikeLists(s: State, t: State)
    requires Listable(s) && Listable(t) && Alike(s, t)
    ensures Listed(s) == Listed(t)
  {
  }

  lemma SecondBatch(s: State, b: seq<Op>, supply: nat -> Id, drawn: nat)
    requires Listable(s) && drawn == s.drawn
    ensures Run(s, b, supply).Ok? ==> Listable(Run(s, b, supply).value)
    ensures Apply(Stored(Listed(s)), b, supply, drawn) == Outcome(Run(s, b, supply))
  {
    var reloaded := Loaded(Stored(Listed(s)), s.drawn);
    ReloadedIsAlike(s);
    LoadedIsListable(Stored(Listed(s)), s.drawn);
    AlikeRuns(reloaded, s, b, supply);
    if Run(s, b, supply).Ok? {
      RunIsListable(s, b, supply);
      RunIsListable(reloaded, b, supply);
      AlikeLists(Run(reloaded, b, supply).value, Run(s, b, supply).value);
    }
  }

  function IdsOf(elements: seq<Element>): seq<Id> {
    seq(|elements|, i requires 0 <= i < |elements| => elements[i].id)
  }

  // ---- what was stored ----

  ghost function IsRecord(): Entry -> bool {
    (x: Entry) => x.Entry?
  }

  /** The records of the array, in order; anything else in it is skipped. */
  ghost function Records(entries: seq<Entry>): seq<Entry> {
    Filter(IsRecord(), entries)
  }

  /** `k` holds the record a reader finds under this id: the last one. */
  ghost predicate LastRecord(entries: seq<Entry>, k: int, id: Id) {
    && 0 <= k < |entries| && entries[k].Entry? && entries[k].element.id == id
    && forall j :: k < j < |entries| && entries[j].Entry? ==> entries[j].element.id != id
  }

  ghost predicate IdsOfRecords(entries: seq<Entry>, ids: seq<Id>) {
    var records := Records(entries);
    |ids| == |records| && forall i :: 0 <= i < |ids| ==> records[i].Entry? && ids[i] == records[i].element.id
  }

  lemma LoadedGrowsBy(before: seq<Entry>, last: Entry, drawn: nat)
    ensures var was := Loaded(before, drawn);
            Loaded(before + [last], drawn)
            == if last.Junk? then was
               else was.(byId := was.byId[last.element.id := last.element], order := was.order + [last.element.id])
  {
    assert (before + [last])[..|before|] == before;
  }

  /** Loading keeps the ids of the records, in order. */
  lemma {:induction false} LoadedInOrder(entries: seq<Entry>, drawn: nat)
    ensures IdsOfRecords(entries, Loaded(entries, drawn).order)
  {
    if entries != [] {
      var before, last := entries[..|entries| - 1], entries[|entries| - 1];
      assert entries == before + [last];
      LoadedInOrder(before, drawn);
      LoadedGrowsBy(before, last, drawn);
      FilterAppendOne(IsRecord(), before, last);
    }
  }

  /** Loading finds under each id its last record. */
  lemma {:induction false} LoadedIsLast(entries: seq<Entry>, drawn: nat, id: Id)
    ensures id in Loaded(entries, drawn).byId <==> exists k :: LastRecord(entries, k, id)
    ensures forall k :: LastRecord(entries, k, id) ==>
              id in Loaded(entries, drawn).byId && Loaded(entries, drawn).byId[id] == entries[k].element
  {
    if entries != [] {
      var before, last := entries[..|entries| - 1], entries[|entries| - 1];
      assert entries == before + [last];
      LoadedIsLast(before, drawn, id);
      LoadedGrowsBy(before, last, drawn);
      LastRecordGrows(before, last, id);
      if last.Entry? && last.element.id == id {
        assert LastRecord(entries, |before|, id);
      } else if k :| LastRecord(before, k, id) {
        assert LastRecord(entries, k, id);
      }
    }
  }

  lemma LastRecordGrows(before: seq<Entry>, last: Entry, id: Id)
    ensures forall k :: LastRecord(before + [last], k, id) <==>
              if last.Entry? && last.element.id == id then k == |before| else LastRecord(before, k, id)
  {
    var grown := before + [last];
    assert grown[|before|] == last && forall j :: 0 <= j < |before| ==> grown[j] == before[j];
  }

  /** A successful batch keeps every record at its place and appends the created ones in order. */
  lemma ResultKeepsOrder(entries: seq<Entry>, ops: seq<Op>, supply: nat -> Id, drawn: nat)
    requires Apply(entries, ops, supply, drawn).Ok?
    ensures var ids := IdsOf(Apply(entries, ops, supply, drawn).value);
            var n := |Records(entries)|;
            && n <= |ids| && IdsOfRecords(entries, ids[..n])
            && ids[n..] == Draws(supply, drawn, Creates(ops))
  {
    var start := Loaded(entries, drawn);
    LoadedIsListable(entries, drawn);
    ApplyIsRun(entries, ops, supply, drawn);
    RunKeepsOrder(start, ops, supply);
    IdsOfListed(Run(start, ops, supply).value);
    assert [] + Draws(supply, drawn, Creates(ops)) == Draws(supply, drawn, Creates(ops));
    LoadedInOrder(entries, drawn);
  }

  lemma IdsOfListed(s: State)
    requires Listable(s)
    ensures IdsOf(Listed(s)) == s.order + s.created
  {
    var ids := s.order + s.created;
    forall i | 0 <= i < |ids| ensures Listed(s)[i].id == ids[i] {
      assert ids[i] in ids;
    }
  }

  lemma ApplyIsRun(entries: seq<Entry>, ops: seq<Op>, supply: nat -> Id, drawn: nat)
    ensures Run(Loaded(entries, drawn), ops, supply).Ok? ==> Listable(Run(Loaded(entries, drawn), ops, supply).value)
    ensures Apply(entries, ops, supply, drawn) == Outcome(Run(Loaded(entries, drawn), ops, supply))
  {
    LoadedIsListable(entries, drawn);
    if Run(Loaded(entries, drawn), ops, supply).Ok? {
      RunIsListable(Loaded(entries, drawn), ops, supply);
    }
  }

  lemma MiddleOfBatch(entries: seq<Entry>, a: seq<Op>, supply: nat -> Id, drawn: nat) returns (middle: State)
    requires Run(Loaded(entries, drawn), a, supply).Ok?
    ensures Run(Loaded(entries, drawn), a, supply) == Ok(middle) && Listable(middle)
    ensures middle.drawn == drawn + Creates(a) && Apply(entries, a, supply, drawn) == Ok(Listed(middle))
  {
    middle := Run(Loaded(entries, drawn), a, supply).value;
    LoadedIsListable(entries, drawn);
    ApplyIsRun(entries, a, supply, drawn);
    RunKeepsOrder(Loaded(entries, drawn), a, supply);
  }

  lemma WholeBatch(entries: seq<Entry>, a: seq<Op>, b: seq<Op>, supply: nat -> Id, drawn: nat, middle: State)
    requires Run(Loaded(entries, drawn), a, supply) == Ok(middle) && Listable(middle)
    ensures Run(middle, b, supply).Ok? ==> Listable(Run(middle, b, supply).value)
    ensures Apply(entries, a + b, supply, drawn) == Outcome(Run(middle, b, supply))
  {
    RunAppend(Loaded(entries, drawn), a, b, supply);
    ApplyIsRun(entries, a + b, supply, drawn);
  }

  lemma FailedBatch(entries: seq<Entry>, a: seq<Op>, b: seq<Op>, supply: nat -> Id, drawn: nat)
    requires Run(Loaded(entries, drawn), a, supply).Err?
    ensures Apply(entries, a + b, supply, drawn) == Apply(entries, a, supply, drawn)
    ensures Apply(entries, a, supply, drawn).Err?
  {
    RunAppend(Loaded(entries, drawn), a, b, supply);
  }

  /** A concatenated batch does what its parts do in turn, and fails exactly when one of them would. */
  lemma BatchesCompose(entries: seq<Entry>, a: seq<Op>, b: seq<Op>, supply: nat -> Id, drawn: nat)
    ensures Apply(entries, a + b, supply, drawn)
            == if Apply(entries, a, supply, drawn).Ok?
               then Apply(Stored(Apply(entries, a, supply, drawn).value), b, supply, drawn + Creates(a))
               else Apply(entries, a, supply, drawn)
  {
    if Run(Loaded(entries, drawn), a, supply).Ok? {
      var middle := MiddleOfBatch(entries, a, supply, drawn);
      SecondBatch(middle, b, supply, drawn + Creates(a));
      WholeBatch(entries, a, b, supply, drawn, middle);
    } else {
      FailedBatch(entries, a, b, supply, drawn);
    }
  }

  // ---- what a batch does to each element ----

  predicate Addresses(op: Op, id: Id) {
    !op.Create? && op.id == id
  }

  function Addressing(ops: seq<Op>, id: Id): nat {
    if ops == [] then 0 else (if Addresses(ops[0], id) then 1 else 0) + Addressing(ops[1..], id)
  }

  /** The value the last patch of `id` gives to `f`, if any patch does. */
  function LastPatch(ops: seq<Op>, id: Id, f: Field): Option<Value> {
    if ops == [] then None
    else
      var later := LastPatch(ops[1..], id, f);
      if later.Some? then later
      else if ops[0].Update? && ops[0].id == id && f in ops[0].patch then Some(ops[0].patch[f])
      else None
  }

  function VersionOf(e: Element): int {
    if e.version.Some? then e.version.value else 0
  }

  function Get(attrs: map<Field, Value>, f: Field): Option<Value> {
    if f in attrs then Some(attrs[f]) else None
  }

  /** The draws of this batch are new: no element has such an id, and no two draws agree. */
  ghost predicate FreshFrom(byId: map<Id, Element>, supply: nat -> Id, drawn: nat) {
    && (forall n: nat :: n >= drawn ==> supply(n) !in byId)
    && (forall n: nat, k: nat :: drawn <= n < k ==> supply(n) != supply(k))
  }

  lemma FreshStays(s: State, op: Op, supply: nat -> Id)
    requires FreshFrom(s.byId, supply, s.drawn) && Step(s, op, supply).Ok?
    ensures FreshFrom(Step(s, op, supply).value.byId, supply, Step(s, op, supply).value.drawn)
  {
  }

  ghost predicate Followed(was: Element, now: Element, ops: seq<Op>) {
    && now.id == was.id
    && VersionOf(now) == VersionOf(was) + Addressing(ops, was.id)
    && (now.deleted <==> was.deleted || Delete(was.id) in ops)
    && (Addressing(ops, was.id) == 0 ==> now == was)
    && forall f :: Get(now.attrs, f) ==
                   if LastPatch(ops, was.id, f).Some? then LastPatch(ops, was.id, f) else Get(was.attrs, f)
  }

  lemma StepFollows(s: State, op: Op, supply: nat -> Id, id: Id)
    requires Listable(s) && FreshFrom(s.byId, supply, s.drawn) && Step(s, op, supply).Ok? && id in s.byId
    ensures id in Step(s, op, supply).value.byId
    ensures Followed(s.byId[id], Step(s, op, supply).value.byId[id], [op])
  {
    assert [op][1..] == [] && Addressing([op][1..], id) == 0;
    forall f ensures LastPatch([op][1..], id, f) == None {
    }
  }

  lemma FollowedInTurn(was: Element, middle: Element, now: Element, op: Op, rest: seq<Op>)
    requires Followed(was, middle, [op]) && Followed(middle, now, rest)
    ensures Followed(was, now, [op] + rest)
  {
    var ops := [op] + rest;
    assert ops[1..] == rest && [op][1..] == [] && Addressing([op][1..], was.id) == 0;
    forall f
      ensures Get(now.attrs, f) ==
              if LastPatch(ops, was.id, f).Some? then LastPatch(ops, was.id, f) else Get(was.attrs, f)
    {
      assert LastPatch([op][1..], was.id, f) == None;
    }
    assert Delete(was.id) in ops <==> Delete(was.id) == op || Delete(was.id) in rest;
  }

  /**
   * A batch raises an element's version by exactly the operations that address it, deletes it
   * exactly if one of them says so, gives each field its last patched value, and leaves an
   * element alone that none of them addresses.
   */
  lemma {:induction false} RunFollows(s: State, ops: seq<Op>, supply: nat -> Id, id: Id)
    requires Listable(s) && FreshFrom(s.byId, supply, s.drawn) && Run(s, ops, supply).Ok? && id in s.byId
    ensures id in Run(s, ops, supply).value.byId
    ensures Followed(s.byId[id], Run(s, ops, supply).value.byId[id], ops)
    decreases ops
  {
    if ops != [] {
      var next := Step(s, ops[0], supply).value;
      StepIsListable(s, ops[0], supply);
      FreshStays(s, ops[0], supply);
      StepFollows(s, ops[0], supply, id);
      RunFollows(next, ops[1..], supply, id);
      FollowedInTurn(s.byId[id], next.byId[id], Run(next, ops[1..], supply).value.byId[id], ops[0], ops[1..]);
      assert ops == [ops[0]] + ops[1..];
    }
  }

  lemma {:induction false} FreshStaysOverRun(s: State, ops: seq<Op>, supply: nat -> Id)
    requires FreshFrom(s.byId, supply, s.drawn) && Run(s, ops, supply).Ok?
    ensures FreshFrom(Run(s, ops, supply).value.byId, supply, Run(s, ops, supply).value.drawn)
    decreases ops
  {
    if ops != [] {
      FreshStays(s, ops[0], supply);
      FreshStaysOverRun(Step(s, ops[0], supply).value, ops[1..], supply);
    }
  }

  ghost predicate Ready(s: State, supply: nat -> Id) {
    Listable(s) && FreshFrom(s.byId, supply, s.drawn)
  }

  ghost predicate FollowedIn(end: State, was: Element, ops: seq<Op>) {
    was.id in end.byId && Followed(was, end.byId[was.id], ops)
  }

  lemma CreationFollows(middle: State, op: Op, rest: seq<Op>, supply: nat -> Id, end: State)
    requires Ready(middle, supply) && op.Create? && Run(middle, [op] + rest, supply) == Ok(end)
    ensures FollowedIn(end, Element(supply(middle.drawn), false, Some(1), op.attrs), rest)
  {
    assert ([op] + rest)[1..] == rest;
    StepIsListable(middle, op, supply);
    FreshStays(middle, op, supply);
    RunFollows(Step(middle, op, supply).value, rest, supply, supply(middle.drawn));
  }

  lemma PrefixRuns(s: State, before: seq<Op>, after: seq<Op>, supply: nat -> Id, end: State) returns (middle: State)
    requires Ready(s, supply) && Run(s, before + after, supply) == Ok(end)
    ensures Ready(middle, supply) && middle.drawn == s.drawn + Creates(before) && Run(middle, after, supply) == Ok(end)
  {
    RunAppend(s, before, after, supply);
    middle := Run(s, before, supply).value;
    RunIsListable(s, before, supply);
    RunKeepsOrder(s, before, supply);
    FreshStaysOverRun(s, before, supply);
  }

  /**
   * A created element starts at version 1, live, under the next draw, and follows the operations
   * after its creation.
   */
  lemma CreatedFollows(s: State, ops: seq<Op>, k: nat, supply: nat -> Id, end: State) returns (created: Element)
    requires Ready(s, supply) && Run(s, ops, supply) == Ok(end) && k < |ops| && ops[k].Create?
    ensures created == Element(supply(s.drawn + Creates(ops[..k])), false, Some(1), ops[k].attrs)
    ensures FollowedIn(end, created, ops[k + 1..])
  {
    var before, op, rest := ops[..k], ops[k], ops[k + 1..];
    assert ops == before + ([op] + rest);
    var middle := PrefixRuns(s, before, [op] + rest, supply, end);
    created := Element(supply(middle.drawn), false, Some(1), op.attrs);
    CreationFollows(middle, op, rest, supply, end);
  }

  // ---- when a batch fails ----

  ghost predicate CreatedIn(s: State, ops: seq<Op>, supply: nat -> Id, id: Id) {
    exists n: nat :: s.drawn <= n < s.drawn + Creates(ops) && supply(n) == id
  }

  /** After a batch an id is usable exactly if it was there or created, and never deleted. */
  lemma {:induction false} RefersExactly(s: State, ops: seq<Op>, supply: nat -> Id, id: Id)
    requires FreshFrom(s.byId, supply, s.drawn) && Run(s, ops, supply).Ok?
    ensures Refers(Run(s, ops, supply).value, id) <==>
              Delete(id) !in ops && (Refers(s, id) || CreatedIn(s, ops, supply, id))
    decreases ops
  {
    if ops != [] {
      var op, next := ops[0], Step(s, ops[0], supply).value;
      FreshStays(s, op, supply);
      RefersExactly(next, ops[1..], supply, id);
      assert ops == [op] + ops[1..];
      assert CreatedIn(s, ops, supply, id) <==>
               CreatedIn(next, ops[1..], supply, id) || (op.Create? && supply(s.drawn) == id);
    }
  }

  /** The operation at `k` names an id that is there or created before it, and not yet deleted. */
  ghost predicate Grounded(s: State, ops: seq<Op>, supply: nat -> Id, k: nat)
    requires k < |ops|
  {
    ops[k].Create?
    || (Delete(ops[k].id) !in ops[..k] && (Refers(s, ops[k].id) || CreatedIn(s, ops[..k], supply, ops[k].id)))
  }

  lemma RunLast(s: State, before: seq<Op>, op: Op, supply: nat -> Id)
    ensures Run(s, before + [op], supply).Ok? <==>
              Run(s, before, supply).Ok? && (op.Create? || Refers(Run(s, before, supply).value, op.id))
  {
    RunAppend(s, before, [op], supply);
    if Run(s, before, supply).Ok? {
      assert [op][1..] == [];
    }
  }

  /** A batch goes through exactly when every one of its operations is grounded. */
  lemma {:induction false} RunsExactlyWhenGrounded(s: State, ops: seq<Op>, supply: nat -> Id)
    requires FreshFrom(s.byId, supply, s.drawn)
    ensures Run(s, ops, supply).Ok? <==> forall k :: 0 <= k < |ops| ==> Grounded(s, ops, supply, k)
    decreases |ops|
  {
    if ops != [] {
      var n := |ops| - 1;
      var before := ops[..n];
      assert ops == before + [ops[n]];
      RunLast(s, before, ops[n], supply);
      RunsExactlyWhenGrounded(s, before, supply);
      forall k | 0 <= k < n ensures Grounded(s, before, supply, k) == Grounded(s, ops, supply, k) {
        assert before[..k] == ops[..k];
      }
      if Run(s, before, supply).Ok? && !ops[n].Create? {
        RefersExactly(s, before, supply, ops[n].id);
      }
      assert Run(s, before, supply).Ok? ==>
               (Grounded(s, ops, supply, n) <==> ops[n].Create? || Refers(Run(s, before, supply).value, ops[n].id));
    }
  }

  lemma RunAtUngrounded(s: State, ops: seq<Op>, supply: nat -> Id, n: nat)
    requires FreshFrom(s.byId, supply, s.drawn) && n < |ops| && Run(s, ops[..n], supply).Ok?
    requires !Grounded(s, ops, supply, n)
    ensures Run(s, ops, supply) == Err(ops[n].id)
  {
    var before, op, rest := ops[..n], ops[n], ops[n + 1..];
    assert ops == before + ([op] + rest);
    RunAppend(s, before, [op] + rest, supply);
    RefersExactly(s, before, supply, op.id);
    assert ([op] + rest)[0] == op;
  }

  lemma GroundedInPrefix(s: State, ops: seq<Op>, supply: nat -> Id, n: nat, k: nat)
    requires k < n <= |ops|
    ensures Grounded(s, ops[..n], supply, k) == Grounded(s, ops, supply, k)
  {
    assert ops[..n][..k] == ops[..k];
  }

  /** A refused batch names the id of the first operation that is not grounded. */
  lemma RefusesTheFirstUngrounded(s: State, ops: seq<Op>, supply: nat -> Id, n: nat)
    requires FreshFrom(s.byId, supply, s.drawn) && n < |ops| && !Grounded(s, ops, supply, n)
    requires forall k :: 0 <= k < n ==> Grounded(s, ops, supply, k)
    ensures Run(s, ops, supply) == Err(ops[n].id)
  {
    RunsExactlyWhenGrounded(s, ops[..n], supply);
    forall k | 0 <= k < n ensures Grounded(s, ops[..n], supply, k) {
      GroundedInPrefix(s, ops, supply, n, k);
    }
    RunAtUngrounded(s, ops, supply, n);
  }
}
