/**
 * The two provenance gates around Context frames: what a guest may not write, and what
 * registering a frame settles about the elements already inside it.
 */
module GuestGate {
  import opened Scene
  import opened ContextIndex
  import opened Ordering
  import opened Sequences
  import opened Provenance = ElementProvenance

  function Protected(live: seq<Element>, contexts: seq<Context>): set<string> {
    set c, id | c in contexts && id in InFrame(ById(live), c.frame) :: id
  }

  function In(s: set<string>): string -> bool {
    (id: string) => id in s
  }

  function Among(ids: seq<string>, s: set<string>): seq<string> {
    Filter(In(s), ids)
  }

  /** The ids the write is refused for; an empty answer lets the write through. */
  method AssertGuestElementWriteAllowed(
      isGuest: bool, changed: seq<string>, contexts: seq<Context>, contributionEnabled: bool, entries: seq<Entry>)
    returns (denied: seq<string>)
    ensures denied == if isGuest && !contributionEnabled then Among(changed, Protected(LiveElements(entries), contexts))
                      else []
    ensures forall id :: id in denied <==>
              && isGuest && !contributionEnabled && id in changed
              && exists c :: c in contexts && id in InFrame(ById(LiveElements(entries)), c.frame)
  {
    var live := LiveElements(entries);
    if !isGuest || changed == [] || contexts == [] {
      assert contexts == [] ==> Protected(live, contexts) == {};
      FilterNone(In({}), changed);
      return [];
    }
    if contributionEnabled {
      return [];
    }
    var protectedIds: set<string> := {};
    var k := 0;
    while k < |contexts|
      invariant 0 <= k <= |contexts|
      invariant protectedIds == Protected(live, contexts[..k])
    {
      assert contexts[..k + 1] == contexts[..k] + [contexts[k]];
      var ids := ElementIdsInContextFrame(entries, contexts[k].frame);
      ProtectedGrows(live, contexts, k, ids);
      protectedIds := protectedIds + SeqSet(ids);
      k := k + 1;
    }
    assert contexts[..k] == contexts;
    return Among(changed, protectedIds);
  }

  lemma ProtectedByOneMore(live: seq<Element>, before: seq<Context>, c: Context, id: string)
    ensures id in Protected(live, before + [c]) <==> id in Protected(live, before) || id in InFrame(ById(live), c.frame)
  {
    if id in Protected(live, before) {
      var d :| d in before && id in InFrame(ById(live), d.frame);
      assert d in before + [c];
    }
    assert c in before + [c];
  }

  lemma ProtectedGrows(live: seq<Element>, contexts: seq<Context>, k: nat, ids: seq<string>)
    requires k < |contexts| && ids == Listing(InFrame(ById(live), contexts[k].frame))
    ensures Protected(live, contexts[..k + 1]) == Protected(live, contexts[..k]) + SeqSet(ids)
  {
    assert contexts[..k + 1] == contexts[..k] + [contexts[k]];
    ListingHolds(InFrame(ById(live), contexts[k].frame));
    forall id
      ensures id in Protected(live, contexts[..k + 1]) <==> id in Protected(live, contexts[..k]) || id in ids
    {
      ProtectedByOneMore(live, contexts[..k], contexts[k], id);
    }
  }

  /**
   * Gate 1 agrees with the resolver every mount reads through: what it protects is exactly
   * what some Context of the resulting scene would contain.
   */
  lemma GatesAgree(live: seq<Element>, contexts: seq<Context>, e: Element)
    requires UniqueIds(live) && e in live
    requires forall c :: c in contexts ==> c.id != ""
    ensures e.id in Protected(live, contexts) <==> Resolved(ById(live), ByFrame(contexts), e).Some?
  {
    WalkersAgree(live, contexts, e);
    if exists c :: c in contexts && e.id in InFrame(ById(live), c.frame) {
      var c :| c in contexts && e.id in InFrame(ById(live), c.frame);
      assert e.id in Protected(live, contexts);
    }
  }

  /** A guest write that is let through leaves every element it changed outside every Context. */
  lemma AdmittedGuestWriteStaysOutside(entries: seq<Entry>, contexts: seq<Context>, changed: seq<string>, e: Element)
    requires UniqueIds(LiveElements(entries)) && e in LiveElements(entries)
    requires forall c :: c in contexts ==> c.id != ""
    ensures Among(changed, Protected(LiveElements(entries), contexts)) == [] && e.id in changed ==>
              Resolved(ById(LiveElements(entries)), ByFrame(contexts), e).None?
  {
    var denied := Among(changed, Protected(LiveElements(entries), contexts));
    GatesAgree(LiveElements(entries), contexts, e);
    if denied == [] && e.id in changed {
      assert e.id !in denied;
    }
  }

  // ---- registration ----

  function HasStatus(rows: Rows, status: Status): ElementId -> bool {
    (e: ElementId) => StatusOf(rows, e) == status
  }

  function Unconfirmed(rows: Rows): ElementId -> bool {
    (e: ElementId) => StatusOf(rows, e) != ConfirmedClean
  }

  ghost predicate StandsIn(entries: seq<Entry>, frame: string, e: ElementId) {
    e != "" && e in InFrame(ById(LiveElements(entries)), frame)
  }

  /** Every element of the frame without a row is now touched; no other row moves. */
  ghost predicate Settles(rows: Rows, rows': Rows, entries: seq<Entry>, frame: string) {
    forall e: ElementId ::
      if StandsIn(entries, frame, e) && e !in rows then Touched(rows', e) && Raised(rows, rows', e)
      else SameRow(rows, rows', e)
  }

  /** The elements of a newly registered frame that a human has to look at; unknown ones become touched. */
  method ReviewRegisteredFrame(table: Table, entries: seq<Entry>, frame: string) returns (toConfirm: seq<ElementId>)
    modifies table
    ensures forall e :: e in toConfirm <==> StandsIn(entries, frame, e) && !Clean(old(table.rows), e)
    ensures Settles(old(table.rows), table.rows, entries, frame)
  {
    var listed := ElementIdsInContextFrame(entries, frame);
    var ids := UniqueElementIds(listed);
    ListingHolds(InFrame(ById(LiveElements(entries)), frame));
    assert forall e :: e in ids <==> StandsIn(entries, frame, e);
    toConfirm := Filter(Unconfirmed(table.rows), ids);
    var unknown := Filter(HasStatus(table.rows, Unknown), ids);
    UnknownIsRowless(table.rows, ids);
    table.RecordSuccessfulElementMutation(true, unknown, []);
  }

  lemma UnknownIsRowless(rows: Rows, ids: seq<ElementId>)
    ensures forall e :: e in Filter(HasStatus(rows, Unknown), ids) <==> e in ids && e !in rows
    ensures forall e :: e in Filter(Unconfirmed(rows), ids) <==> e in ids && !Clean(rows, e)
  {
  }

  /**
   * After a registration nothing in the frame is without a row, nothing clean was marked, and
   * the provenance gate admits exactly what it admitted before.
   */
  lemma RegistrationSettlesTheFrame(rows: Rows, rows': Rows, entries: seq<Entry>, frame: string, e: ElementId)
    requires Settles(rows, rows', entries, frame)
    ensures StandsIn(entries, frame, e) ==> e in rows'
    ensures Clean(rows', e) <==> Clean(rows, e)
    ensures Touched(rows, e) ==> Touched(rows', e)
    ensures Touched(rows', e) && !Touched(rows, e) ==> StandsIn(entries, frame, e) && e !in rows
  {
    assert if StandsIn(entries, frame, e) && e !in rows then Touched(rows', e) else SameRow(rows, rows', e);
  }
}
