/**
 * Guest provenance of elements: one revisioned row each, upserted by mutations and cleared
 * only by a two-phase confirmation guarded by the revision it read.
 */
module ElementProvenance {
  import opened Wrappers
  import opened Scene

  type ElementId = string

  datatype Row = Row(touched: bool, revision: nat)

  type Rows = map<ElementId, Row>

  datatype Status = Unknown | ConfirmedClean | GuestTouched

  function StatusOf(rows: Rows, e: ElementId): Status {
    if e !in rows then Unknown else if rows[e].touched then GuestTouched else ConfirmedClean
  }

  predicate Eligible(status: Status, contributionEnabled: bool) {
    status == ConfirmedClean || contributionEnabled
  }

  function Ids(s: seq<ElementId>): set<ElementId> {
    set e | e in s && e != ""
  }

  function Affected(isGuest: bool, changed: seq<ElementId>, created: seq<ElementId>): set<ElementId> {
    if isGuest then Ids(changed) + Ids(created) else Ids(created)
  }

  /** One upsert: a guest always marks; a member only inserts, and never over an existing row. */
  function Upserted(rows: Rows, isGuest: bool, e: ElementId): Rows {
    if e !in rows then rows[e := Row(isGuest, 1)]
    else if isGuest then rows[e := Row(true, rows[e].revision + 1)]
    else rows
  }

  function Recorded(rows: Rows, isGuest: bool, ids: set<ElementId>): Rows {
    map e | e in rows.Keys + ids :: if e in ids then Upserted(rows, isGuest, e)[e] else rows[e]
  }

  /** The confirming UPDATE or INSERT of one element, given the row read earlier. */
  predicate CanConfirm(rows: Rows, e: ElementId, seen: Option<Row>) {
    match seen
    case Some(row) => e in rows && rows[e].revision == row.revision
    case None => e !in rows
  }

  function Confirmed(rows: Rows, e: ElementId): Rows {
    rows[e := Row(false, if e in rows then rows[e].revision + 1 else 1)]
  }

  function Seen(rows: Rows, e: ElementId): Option<Row> {
    if e in rows then Some(rows[e]) else None
  }

  /** `[...new Set(ids.filter(...))]`: the non-empty ids, each at its first occurrence. */
  function UniqueElementIds(ids: seq<ElementId>): (r: seq<ElementId>)
    ensures Ids(r) == Ids(ids)
    ensures forall e :: e in r <==> e in ids && e != ""
    ensures forall i, j :: 0 <= i < j < |r| ==> r[i] != r[j]
  {
    if ids == [] then []
    else
      var n := |ids| - 1;
      var rest := UniqueElementIds(ids[..n]);
      assert ids == ids[..n] + [ids[n]];
      if ids[n] == "" || ids[n] in rest then rest else rest + [ids[n]]
  }

  ghost predicate EachOnce(ids: seq<ElementId>) {
    "" !in ids && forall i, j :: 0 <= i < j < |ids| ==> ids[i] != ids[j]
  }

  lemma NextId(ids: seq<ElementId>, k: nat)
    requires k < |ids| && EachOnce(ids)
    ensures Ids(ids[..k + 1]) == Ids(ids[..k]) + {ids[k]} && ids[k] !in Ids(ids[..k])
  {
    assert ids[..k + 1] == ids[..k] + [ids[k]] && ids[k] in ids;
  }

  // ---- what the rows say ----

  ghost predicate Touched(rows: Rows, e: ElementId) {
    e in rows && rows[e].touched
  }

  ghost predicate Clean(rows: Rows, e: ElementId) {
    e in rows && !rows[e].touched
  }

  /** A row of `e` with the next revision: the first, or one more than before. */
  ghost predicate Raised(rows: Rows, rows': Rows, e: ElementId) {
    e in rows' && rows'[e].revision == if e in rows then rows[e].revision + 1 else 1
  }

  ghost predicate SameRow(rows: Rows, rows': Rows, e: ElementId) {
    (e in rows <==> e in rows') && (e in rows ==> rows'[e] == rows[e])
  }

  ghost predicate OnlyRow(rows: Rows, rows': Rows, e: ElementId) {
    forall f: ElementId :: f == e || SameRow(rows, rows', f)
  }

  ghost predicate NamesId(ids: seq<ElementId>, e: ElementId) {
    e != "" && e in ids
  }

  /** A guest marks every element named; a member only gives a clean row to what it created without one. */
  ghost predicate Records(rows: Rows, rows': Rows, isGuest: bool, changed: seq<ElementId>, created: seq<ElementId>) {
    forall e: ElementId ::
      if isGuest && (NamesId(changed, e) || NamesId(created, e)) then Touched(rows', e) && Raised(rows, rows', e)
      else if !isGuest && NamesId(created, e) && e !in rows then Clean(rows', e) && Raised(rows, rows', e)
      else SameRow(rows, rows', e)
  }

  /** Exactly the named elements are now clean, each under its next revision. */
  ghost predicate Confirms(rows: Rows, rows': Rows, elements: seq<ElementId>) {
    forall e: ElementId ::
      if NamesId(elements, e) then Clean(rows', e) && Raised(rows, rows', e) else SameRow(rows, rows', e)
  }

  lemma ConfirmsOneMore(rows: Rows, was: Rows, now: Rows, ids: seq<ElementId>, k: nat)
    requires k < |ids| && ids[k] != "" && !NamesId(ids[..k], ids[k])
    requires Confirms(rows, was, ids[..k])
    requires Clean(now, ids[k]) && Raised(was, now, ids[k]) && OnlyRow(was, now, ids[k])
    ensures Confirms(rows, now, ids[..k + 1])
  {
    assert SameRow(rows, was, ids[k]);
    forall e: ElementId
      ensures if NamesId(ids[..k + 1], e) then Clean(now, e) && Raised(rows, now, e) else SameRow(rows, now, e)
    {
      assert ids[..k + 1] == ids[..k] + [ids[k]];
      assert NamesId(ids[..k + 1], e) <==> NamesId(ids[..k], e) || e == ids[k];
      assert e == ids[k] || SameRow(was, now, e);
    }
  }

  lemma RecordsExactly(rows: Rows, isGuest: bool, changed: seq<ElementId>, created: seq<ElementId>)
    ensures Records(rows, Recorded(rows, isGuest, Affected(isGuest, changed, created)), isGuest, changed, created)
  {
  }

  class Table {
    var rows: Rows

    method RecordSuccessfulElementMutation(isGuest: bool, changed: seq<ElementId>, created: seq<ElementId>)
      modifies this
      ensures Records(old(rows), rows, isGuest, changed, created)
    {
      RecordsExactly(rows, isGuest, changed, created);
      AffectedIds(isGuest, changed, created);
      UpsertAll(isGuest, UniqueElementIds(if isGuest then changed + created else created));
    }

    /** The rows of one INSERT ... ON CONFLICT statement. */
    method UpsertAll(isGuest: bool, ids: seq<ElementId>)
      requires EachOnce(ids)
      modifies this
      ensures rows == Recorded(old(rows), isGuest, Ids(ids))
    {
      ghost var was := rows;
      NoneRecorded(was, isGuest);
      var k := 0;
      while k < |ids|
        invariant 0 <= k <= |ids| && rows == Recorded(was, isGuest, Ids(ids[..k]))
      {
        RecordNext(was, isGuest, ids, k);
        rows := Upserted(rows, isGuest, ids[k]);
        k := k + 1;
      }
      assert ids[..k] == ids;
    }

    /** Without interference every named element ends clean, and no other row moves. */
    method ConfirmElementGuestProvenance(elements: seq<ElementId>) returns (ok: bool)
      modifies this
      ensures ok && Confirms(old(rows), rows, elements)
    {
      var ids := UniqueElementIds(elements);
      var byId := rows;
      var k := 0;
      while k < |ids|
        invariant 0 <= k <= |ids|
        invariant Confirms(byId, rows, ids[..k])
      {
        ghost var was := rows;
        NextId(ids, k);
        assert !NamesId(ids[..k], ids[k]);
        var changed := ConfirmRow(ids[k], Seen(byId, ids[k]));
        if !changed {
          return false;
        }
        ConfirmsOneMore(byId, was, rows, ids, k);
        k := k + 1;
      }
      assert ids[..k] == ids;
      return true;
    }

    method ConfirmRow(e: ElementId, seen: Option<Row>) returns (changed: bool)
      modifies this
      ensures changed <==> (seen.Some? && e in old(rows) && old(rows)[e].revision == seen.value.revision)
                           || (seen == None && e !in old(rows))
      ensures if changed then Clean(rows, e) && Raised(old(rows), rows, e) && OnlyRow(old(rows), rows, e)
              else rows == old(rows)
    {
      changed := false;
      if seen.Some? {
        if e in rows && rows[e].revision == seen.value.revision {
          rows := rows[e := Row(false, rows[e].revision + 1)];
          changed := true;
        }
      } else if e !in rows {
        rows := rows[e := Row(false, 1)];
        changed := true;
      }
    }
  }

  lemma RecordOne(rows: Rows, isGuest: bool, ids: set<ElementId>, e: ElementId)
    requires e !in ids
    ensures Upserted(Recorded(rows, isGuest, ids), isGuest, e) == Recorded(rows, isGuest, ids + {e})
  {
  }

  lemma RecordNext(rows: Rows, isGuest: bool, ids: seq<ElementId>, k: nat)
    requires k < |ids| && EachOnce(ids)
    ensures Upserted(Recorded(rows, isGuest, Ids(ids[..k])), isGuest, ids[k])
            == Recorded(rows, isGuest, Ids(ids[..k + 1]))
  {
    NextId(ids, k);
    RecordOne(rows, isGuest, Ids(ids[..k]), ids[k]);
  }

  lemma NoneRecorded(rows: Rows, isGuest: bool)
    ensures Recorded(rows, isGuest, {}) == rows && Ids([]) == {}
  {
  }

  lemma AffectedIds(isGuest: bool, changed: seq<ElementId>, created: seq<ElementId>)
    ensures Ids(if isGuest then changed + created else created) == Affected(isGuest, changed, created)
  {
  }

  // ---- which ids a scene replacement changed ----

  function ElementOf(entry: Entry): seq<Element> {
    if entry.Entry? then [entry.element] else []
  }

  function SceneElements(entries: seq<Entry>): seq<Element> {
    if entries == [] then []
    else SceneElements(entries[..|entries| - 1]) + ElementOf(entries[|entries| - 1])
  }

  function SceneById(entries: seq<Entry>): map<string, Element> {
    ById(SceneElements(entries))
  }

  ghost predicate OnBoard(entries: seq<Entry>, e: ElementId) {
    exists i :: 0 <= i < |entries| && entries[i].Entry? && entries[i].element.id == e
  }

  /** The element of this id a reader of the scene sees: the last one. */
  ghost predicate Shows(entries: seq<Entry>, i: int, e: ElementId) {
    && 0 <= i < |entries| && entries[i].Entry? && entries[i].element.id == e
    && forall j :: i < j < |entries| && entries[j].Entry? ==> entries[j].element.id != e
  }

  ghost predicate DiffersOnBoard(before: seq<Entry>, after: seq<Entry>, e: ElementId) {
    exists i, j :: Shows(before, i, e) && Shows(after, j, e) && before[i].element != after[j].element
  }

  lemma SceneElementsAppend(entries: seq<Entry>, last: Entry)
    ensures SceneElements(entries + [last]) == SceneElements(entries) + ElementOf(last)
  {
    assert (entries + [last])[..|entries|] == entries;
  }

  lemma LastEntryWins(entries: seq<Entry>, last: Entry)
    ensures SceneById(entries + [last])
            == if last.Entry? then SceneById(entries)[last.element.id := last.element] else SceneById(entries)
  {
    SceneElementsAppend(entries, last);
    ByIdElementOf(SceneElements(entries), last);
  }

  lemma ByIdElementOf(elements: seq<Element>, last: Entry)
    ensures ById(elements + ElementOf(last))
            == if last.Entry? then ById(elements)[last.element.id := last.element] else ById(elements)
  {
    if last.Entry? {
      ByIdAppend(elements, last.element);
    } else {
      assert elements + ElementOf(last) == elements;
    }
  }

  /** The scene's map holds exactly the elements a reader sees. */
  lemma {:induction false} SceneByIdShows(entries: seq<Entry>, e: ElementId)
    ensures e in SceneById(entries) <==> OnBoard(entries, e)
    ensures e in SceneById(entries) ==> exists i :: Shows(entries, i, e) && entries[i].element == SceneById(entries)[e]
    decreases |entries|
  {
    if entries != [] {
      var n := |entries| - 1;
      var init, last := entries[..n], entries[n];
      assert entries == init + [last];
      LastEntryWins(init, last);
      SceneByIdShows(init, e);
      if last.Entry? && last.element.id == e {
        assert Shows(entries, n, e);
      } else {
        OthersStayShown(init, last, e);
        if e in SceneById(init) {
          var i :| Shows(init, i, e) && init[i].element == SceneById(init)[e];
          assert Shows(entries, i, e) && entries[i] == init[i];
        }
      }
    }
  }

  lemma OthersStayShown(entries: seq<Entry>, last: Entry, e: ElementId)
    requires last.Entry? ==> last.element.id != e
    ensures OnBoard(entries + [last], e) <==> OnBoard(entries, e)
    ensures forall i :: Shows(entries, i, e) ==> Shows(entries + [last], i, e)
  {
    assert forall i :: 0 <= i < |entries| ==> (entries + [last])[i] == entries[i];
  }

  lemma OneIsShown(entries: seq<Entry>, e: ElementId, i: int, j: int)
    requires Shows(entries, i, e) && Shows(entries, j, e)
    ensures i == j
  {
  }

  /** The two maps differ at an id exactly when the elements shown do. */
  lemma AlteredShows(before: seq<Entry>, after: seq<Entry>, e: ElementId)
    ensures Altered(SceneById(before), SceneById(after), e) <==> DiffersOnBoard(before, after, e)
  {
    SceneByIdShows(before, e);
    SceneByIdShows(after, e);
    if DiffersOnBoard(before, after, e) {
      var i, j :| Shows(before, i, e) && Shows(after, j, e) && before[i].element != after[j].element;
      assert OnBoard(before, e) && OnBoard(after, e);
      var k :| Shows(before, k, e) && before[k].element == SceneById(before)[e];
      var l :| Shows(after, l, e) && after[l].element == SceneById(after)[e];
      OneIsShown(before, e, i, k);
      OneIsShown(after, e, j, l);
    }
  }

  lemma MapsShowTheBoard(before: seq<Entry>, after: seq<Entry>)
    ensures forall e :: e in SceneById(before) <==> OnBoard(before, e)
    ensures forall e :: e in SceneById(after) <==> OnBoard(after, e)
    ensures forall e :: Altered(SceneById(before), SceneById(after), e) <==> DiffersOnBoard(before, after, e)
  {
    forall e ensures e in SceneById(before) <==> OnBoard(before, e) {
      SceneByIdShows(before, e);
    }
    forall e ensures e in SceneById(after) <==> OnBoard(after, e) {
      SceneByIdShows(after, e);
    }
    forall e ensures Altered(SceneById(before), SceneById(after), e) <==> DiffersOnBoard(before, after, e) {
      AlteredShows(before, after, e);
    }
  }

  datatype Diff = Diff(changed: seq<ElementId>, created: seq<ElementId>)

  predicate Altered(was: map<string, Element>, now: map<string, Element>, e: ElementId) {
    e in was && e in now && was[e] != now[e]
  }

  method NewAndAltered(was: map<string, Element>, now: map<string, Element>)
    returns (created: seq<ElementId>, changed: seq<ElementId>)
    ensures forall e :: e in created <==> e in now && e !in was
    ensures forall e :: e in changed <==> e in created || Altered(was, now, e)
  {
    created, changed := [], [];
    var rest := now.Keys;
    while rest != {}
      invariant rest <= now.Keys
      invariant forall e :: e in created <==> e in now && e !in rest && e !in was
      invariant forall e :: e in changed <==> e in created || (e !in rest && Altered(was, now, e))
      decreases |rest|
    {
      var e :| e in rest;
      rest := rest - {e};
      if e !in was {
        created := created + [e];
        changed := changed + [e];
      } else if was[e] != now[e] {
        changed := changed + [e];
      }
    }
  }

  method Removed(was: map<string, Element>, now: map<string, Element>) returns (removed: seq<ElementId>)
    ensures forall e :: e in removed <==> e in was && e !in now
  {
    removed := [];
    var rest := was.Keys;
    while rest != {}
      invariant rest <= was.Keys
      invariant forall e :: e in removed <==> e in was && e !in now && e !in rest
      decreases |rest|
    {
      var e :| e in rest;
      rest := rest - {e};
      if e !in now {
        removed := removed + [e];
      }
    }
  }

  method DiffSceneElementIds(before: seq<Entry>, after: seq<Entry>) returns (d: Diff)
    ensures forall e :: e in d.created <==> e != "" && OnBoard(after, e) && !OnBoard(before, e)
    ensures forall e :: e in d.changed <==>
              e != "" && ((OnBoard(after, e) && !OnBoard(before, e)) || (OnBoard(before, e) && !OnBoard(after, e))
                          || DiffersOnBoard(before, after, e))
  {
    var was, now := SceneById(before), SceneById(after);
    var created, changed := NewAndAltered(was, now);
    var removed := Removed(was, now);
    MapsShowTheBoard(before, after);
    return Diff(UniqueElementIds(changed + removed), UniqueElementIds(created));
  }

  /**
   * A member's scene replacement touches no existing row, and leaves every element that was
   * already on the board without a row as unknown as it was.
   */
  lemma MemberEditsWashNothing(rows: Rows, rows': Rows, before: seq<Entry>, after: seq<Entry>, d: Diff)
    requires Records(rows, rows', false, d.changed, d.created)
    requires forall e :: NamesId(d.created, e) <==> e != "" && OnBoard(after, e) && !OnBoard(before, e)
    ensures forall e :: e in rows ==> e in rows' && rows'[e] == rows[e]
    ensures forall e :: OnBoard(before, e) && e !in rows ==> e !in rows'
    ensures forall e :: Clean(rows', e) && !Clean(rows, e) ==> OnBoard(after, e) && !OnBoard(before, e) && e !in rows
  {
  }

  // ---- every interleaving ----

  type ConfirmId = nat

  /** A confirmation after its read: the ids still to write, and what it read of each. */
  datatype Confirmation = Confirmation(pending: seq<ElementId>, seen: map<ElementId, Row>)

  datatype World = World(rows: Rows, open: map<ConfirmId, Confirmation>)

  datatype Action =
    | Mutate(isGuest: bool, changed: seq<ElementId>, created: seq<ElementId>)
    | ReadForConfirm(confirm: ConfirmId, elements: seq<ElementId>)
    | WriteConfirm(confirm: ConfirmId)
    | Abandon(confirm: ConfirmId)

  predicate Enabled(w: World, a: Action) {
    match a
    case Mutate(_, _, _) => true
    case ReadForConfirm(k, _) => k !in w.open
    case WriteConfirm(k) => k in w.open && w.open[k].pending != []
    case Abandon(k) => k in w.open
  }

  function SeenIn(c: Confirmation, e: ElementId): Option<Row> {
    if e in c.seen then Some(c.seen[e]) else None
  }

  function Next(w: World, a: Action): World
    requires Enabled(w, a)
  {
    match a
    case Mutate(isGuest, changed, created) =>
      w.(rows := Recorded(w.rows, isGuest, Affected(isGuest, changed, created)))
    case ReadForConfirm(k, elements) =>
      var ids := UniqueElementIds(elements);
      w.(open := w.open[k := Confirmation(ids, map e | e in ids && e in w.rows :: w.rows[e])])
    case WriteConfirm(k) =>
      var c := w.open[k];
      var e := c.pending[0];
      if CanConfirm(w.rows, e, SeenIn(c, e))
      then World(Confirmed(w.rows, e), w.open[k := c.(pending := c.pending[1..])])
      else w.(open := w.open - {k})
    case Abandon(k) => w.(open := w.open - {k})
  }

  ghost predicate IsRun(ws: seq<World>, acts: seq<Action>) {
    |ws| == |acts| + 1
    && forall i :: 0 <= i < |acts| ==> Enabled(ws[i], acts[i]) && ws[i + 1] == Next(ws[i], acts[i])
  }

  /** Rows stay, revisions never fall, and a row keeps its revision only if it did not change. */
  ghost predicate Later(rows: Rows, rows': Rows) {
    forall e :: e in rows ==>
      e in rows' && rows[e].revision <= rows'[e].revision
      && (rows[e] != rows'[e] ==> rows[e].revision < rows'[e].revision)
  }

  lemma ActionIsLater(w: World, a: Action)
    requires Enabled(w, a)
    ensures Later(w.rows, Next(w, a).rows)
  {
  }

  /** Revisions strictly increase on every change to an existing row, over any stretch of any run. */
  lemma {:induction false} RevisionsIncrease(ws: seq<World>, acts: seq<Action>, i: nat, j: nat)
    requires IsRun(ws, acts) && i <= j < |ws|
    ensures Later(ws[i].rows, ws[j].rows)
    decreases j - i
  {
    if i < j {
      RevisionsIncrease(ws, acts, i, j - 1);
      ActionIsLater(ws[j - 1], acts[j - 1]);
    }
  }

  ghost predicate GuestTouches(a: Action, e: ElementId) {
    a.Mutate? && a.isGuest && (NamesId(a.changed, e) || NamesId(a.created, e))
  }

  /** This action makes the element clean. */
  ghost predicate TurnsClean(w: World, a: Action, e: ElementId)
    requires Enabled(w, a)
  {
    a.WriteConfirm? && w.open[a.confirm].pending[0] == e && !Clean(w.rows, e) && Clean(Next(w, a).rows, e)
  }

  /** Every action of a run on the rows: a mutation as recorded, a confirming write of one element, or nothing. */
  lemma RowsFollowActions(ws: seq<World>, acts: seq<Action>, i: nat)
    requires IsRun(ws, acts) && i < |acts|
    ensures Enabled(ws[i], acts[i])
    ensures match acts[i]
            case Mutate(isGuest, changed, created) => Records(ws[i].rows, ws[i + 1].rows, isGuest, changed, created)
            case WriteConfirm(k) =>
              var e := ws[i].open[k].pending[0];
              ws[i + 1].rows == ws[i].rows
              || (Clean(ws[i + 1].rows, e) && Raised(ws[i].rows, ws[i + 1].rows, e)
                  && OnlyRow(ws[i].rows, ws[i + 1].rows, e))
            case _ => ws[i + 1].rows == ws[i].rows
  {
    var a := acts[i];
    assert ws[i + 1] == Next(ws[i], a);
    if a.Mutate? {
      RecordsExactly(ws[i].rows, a.isGuest, a.changed, a.created);
    }
  }

  /** Between its read and its write a confirmation keeps what it read. */
  lemma {:induction false} ReadIsKept(ws: seq<World>, acts: seq<Action>, i: nat, j: nat)
    requires IsRun(ws, acts) && i < j < |ws| && acts[i].ReadForConfirm? && acts[i].confirm in ws[j].open
    requires forall k :: i < k < j ==> !(acts[k].ReadForConfirm? && acts[k].confirm == acts[i].confirm)
    ensures acts[i].confirm in ws[i + 1].open
    ensures ws[j].open[acts[i].confirm].seen == ws[i + 1].open[acts[i].confirm].seen
    ensures forall e :: e in ws[j].open[acts[i].confirm].pending ==> e in UniqueElementIds(acts[i].elements)
    decreases j
  {
    if i + 1 < j {
      assert ws[j] == Next(ws[j - 1], acts[j - 1]);
      ReadIsKept(ws, acts, i, j - 1);
    }
  }

  /**
   * Whatever is interleaved: if the confirmation that read at `i` makes an element clean at
   * `j`, then no guest touched that element in between.
   */
  lemma NoGuestTouchIsWashed(ws: seq<World>, acts: seq<Action>, i: nat, j: nat, n: nat, e: ElementId)
    requires IsRun(ws, acts) && i < n < j < |acts|
    requires acts[i].ReadForConfirm? && acts[j].WriteConfirm? && acts[j].confirm == acts[i].confirm
    requires forall k :: i < k < j ==> !(acts[k].ReadForConfirm? && acts[k].confirm == acts[i].confirm)
    requires TurnsClean(ws[j], acts[j], e)
    ensures !GuestTouches(acts[n], e)
  {
    ReadIsKept(ws, acts, i, j);
    RevisionsIncrease(ws, acts, i + 1, n);
    RevisionsIncrease(ws, acts, n + 1, j);
    assert ws[i + 1] == Next(ws[i], acts[i]) && ws[n + 1] == Next(ws[n], acts[n]);
    assert e in UniqueElementIds(acts[i].elements);
    assert SeenIn(ws[j].open[acts[j].confirm], e) == Seen(ws[i].rows, e);
  }

  /** The guard is exact: the write goes through just when the row is still the one that was read. */
  lemma ConfirmsExactlyTheRowRead(ws: seq<World>, acts: seq<Action>, i: nat, j: nat, e: ElementId)
    requires IsRun(ws, acts) && i <= j < |ws|
    ensures CanConfirm(ws[j].rows, e, Seen(ws[i].rows, e)) <==> Seen(ws[j].rows, e) == Seen(ws[i].rows, e)
  {
    RevisionsIncrease(ws, acts, i, j);
  }

  /** A member's mutation that created this element. */
  ghost predicate MemberCreates(a: Action, e: ElementId) {
    a.Mutate? && !a.isGuest && NamesId(a.created, e)
  }

  lemma StepCleansByCause(w: World, a: Action, e: ElementId)
    requires Enabled(w, a) && !Clean(w.rows, e) && Clean(Next(w, a).rows, e)
    ensures TurnsClean(w, a, e) || (MemberCreates(a, e) && e !in w.rows)
  {
  }

  /**
   * An element that was not clean and is clean later was made so, and has been clean since, by
   * a confirmation of its row, or by a member creating it while it had no row; never the latter
   * if it was guest-touched.
   */
  lemma {:induction false} CleanHasACause(ws: seq<World>, acts: seq<Action>, i: nat, j: nat, e: ElementId)
    returns (n: nat)
    requires IsRun(ws, acts) && i <= j < |ws|
    requires !Clean(ws[i].rows, e) && Clean(ws[j].rows, e)
    ensures i <= n < j && Enabled(ws[n], acts[n])
    ensures TurnsClean(ws[n], acts[n], e) || (MemberCreates(acts[n], e) && e !in ws[n].rows)
    ensures Touched(ws[i].rows, e) ==> TurnsClean(ws[n], acts[n], e)
    ensures forall k :: n < k <= j ==> Clean(ws[k].rows, e)
    decreases j
  {
    if Clean(ws[j - 1].rows, e) {
      n := CleanHasACause(ws, acts, i, j - 1, e);
    } else {
      n := j - 1;
      StepCleansByCause(ws[n], acts[n], e);
      RevisionsIncrease(ws, acts, i, n);
    }
  }

  lemma TouchSurvives(w: World, a: Action, e: ElementId)
    requires Enabled(w, a) && Touched(w.rows, e) && !TurnsClean(w, a, e)
    ensures Touched(Next(w, a).rows, e)
  {
  }

  /** A touched element stays touched until some confirmation writes it. */
  lemma {:induction false} TouchedUntilConfirmed(ws: seq<World>, acts: seq<Action>, i: nat, j: nat, e: ElementId)
    requires IsRun(ws, acts) && i <= j < |ws| && Touched(ws[i].rows, e)
    requires forall k :: i <= k < j ==> Enabled(ws[k], acts[k]) && !TurnsClean(ws[k], acts[k], e)
    ensures Touched(ws[j].rows, e)
    decreases j - i
  {
    if i < j {
      TouchedUntilConfirmed(ws, acts, i, j - 1, e);
      TouchSurvives(ws[j - 1], acts[j - 1], e);
    }
  }

  /** What a guest touches reads as touched at once, and until some confirmation writes it. */
  lemma GuestTouchStands(ws: seq<World>, acts: seq<Action>, i: nat, j: nat, e: ElementId)
    requires IsRun(ws, acts) && i < j < |ws| && GuestTouches(acts[i], e)
    requires forall k :: i < k < j ==> Enabled(ws[k], acts[k]) && !TurnsClean(ws[k], acts[k], e)
    ensures Touched(ws[i + 1].rows, e) && Raised(ws[i].rows, ws[i + 1].rows, e)
    ensures Touched(ws[j].rows, e)
  {
    RowsFollowActions(ws, acts, i);
    TouchedUntilConfirmed(ws, acts, i + 1, j, e);
  }
}
