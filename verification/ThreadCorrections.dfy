/**
 * What the root events of a thread currently mean: the reader that filters, sorts and maps,
 * the one-pass fold it agrees with, and the run reader in which a retracted root never returns.
 */
module ThreadCorrections {
  import opened Wrappers
  import opened Sequences
  import opened Ordering
  import opened ThreadLog

  datatype Meaning = Active | Edited | Retracted

  datatype Resolved = Resolved(original: Event, status: Meaning, currentEdit: Option<Event>, edits: seq<Event>)

  // ---- the resolver ----

  function Rooted(): Event -> bool {
    (e: Event) => IsRoot(e.kind)
  }

  function Correcting(id: EventId): Event -> bool {
    (e: Event) => Target(e) == Some(id)
  }

  function Editing(): Event -> bool {
    (e: Event) => e.kind == Edit
  }

  predicate AnyRetract(corrections: seq<Event>) {
    exists e :: e in corrections && e.kind == Retract
  }

  function Current(original: Event, corrections: seq<Event>): Resolved {
    var edits := Filter(Editing(), corrections);
    if AnyRetract(corrections) then Resolved(original, Retracted, None, edits)
    else if edits == [] then Resolved(original, Active, None, edits)
    else Resolved(original, Edited, Some(edits[|edits| - 1]), edits)
  }

  /** Every correction of one root, in sequence order. */
  function Corrections(events: seq<Event>, id: EventId): seq<Event> {
    SortBy(BySequence, Filter(Correcting(id), events))
  }

  function ResolveOne(events: seq<Event>): Event -> Resolved {
    (original: Event) => Current(original, Corrections(events, original.id))
  }

  function ResolveThreadState(events: seq<Event>): seq<Resolved> {
    Map(ResolveOne(events), SortBy(BySequence, Filter(Rooted(), events)))
  }

  // ---- the reader of a run ----

  function Standing(): Resolved -> bool {
    (r: Resolved) => r.status != Retracted
  }

  function Shown(): Resolved -> Event {
    (r: Resolved) => if r.currentEdit.Some? then r.currentEdit.value else r.original
  }

  function ResolveForRun(events: seq<Event>): seq<Event> {
    Map(Shown(), Filter(Standing(), ResolveThreadState(events)))
  }

  // ---- one pass over the log ----

  function Correct(e: Event): Resolved -> Resolved {
    (r: Resolved) =>
      if Target(e) != Some(r.original.id) then r
      else if e.kind == Retract then r.(status := Retracted, currentEdit := None)
      else if r.status == Retracted then r.(edits := r.edits + [e])
      else Resolved(r.original, Edited, Some(e), r.edits + [e])
  }

  function Step(state: seq<Resolved>, e: Event): seq<Resolved> {
    if IsRoot(e.kind) then state + [Resolved(e, Active, None, [])] else Map(Correct(e), state)
  }

  function Fold(log: seq<Event>): seq<Resolved> {
    if log == [] then [] else Step(Fold(log[..|log| - 1]), log[|log| - 1])
  }

  // ---- order of the input ----

  lemma SelectionForgetsOrder(keep: Event -> bool, a: seq<Event>, b: seq<Event>)
    requires multiset(a) == multiset(b) && Separates(BySequence, a)
    ensures SortBy(BySequence, Filter(keep, a)) == SortBy(BySequence, Filter(keep, b))
  {
    FilterForgetsOrder(keep, a, b);
    SortForgetsOrder(BySequence, Filter(keep, a), Filter(keep, b));
  }

  /** The resolver reads its input as a set of events: in whatever order they come, one answer. */
  lemma ResolutionForgetsOrder(a: seq<Event>, b: seq<Event>)
    requires multiset(a) == multiset(b) && Separates(BySequence, a)
    ensures ResolveThreadState(a) == ResolveThreadState(b)
  {
    SelectionForgetsOrder(Rooted(), a, b);
    var roots := SortBy(BySequence, Filter(Rooted(), a));
    forall r | r in roots ensures ResolveOne(a)(r) == ResolveOne(b)(r) {
      SelectionForgetsOrder(Correcting(r.id), a, b);
    }
    MapAgrees(ResolveOne(a), ResolveOne(b), roots);
  }

  // ---- the fold ----

  lemma SortedSelection(keep: Event -> bool, log: seq<Event>)
    requires Sorted(BySequence, log)
    ensures SortBy(BySequence, Filter(keep, log)) == Filter(keep, log)
  {
    FilterStaysSorted(BySequence, keep, log);
    SortedIsKept(BySequence, Filter(keep, log));
  }

  /** One more correction changes what it names as the fold says, and nothing else. */
  lemma CorrectionStep(original: Event, corrections: seq<Event>, e: Event)
    requires !IsRoot(e.kind) && Target(e) == Some(original.id)
    ensures Current(original, corrections + [e]) == Correct(e)(Current(original, corrections))
  {
    FilterAppendOne(Editing(), corrections, e);
    assert AnyRetract(corrections + [e]) <==> AnyRetract(corrections) || e.kind == Retract by {
      assert forall x :: x in corrections + [e] <==> x in corrections || x == e;
    }
  }

  lemma SortedBefore(before: seq<Event>, e: Event)
    requires Sorted(BySequence, before + [e])
    ensures Sorted(BySequence, before)
  {
    assert forall i :: 0 <= i < |before| ==> before[i] == (before + [e])[i];
  }

  lemma CorrectionsGrow(before: seq<Event>, e: Event, id: EventId)
    requires Sorted(BySequence, before + [e])
    ensures Corrections(before + [e], id) == Corrections(before, id) + if Target(e) == Some(id) then [e] else []
  {
    SortedBefore(before, e);
    SortedSelection(Correcting(id), before);
    SortedSelection(Correcting(id), before + [e]);
    FilterAppendOne(Correcting(id), before, e);
  }

  lemma ResolveOneStep(before: seq<Event>, e: Event, original: Event)
    requires Sorted(BySequence, before + [e]) && !IsRoot(e.kind)
    ensures Current(original, Corrections(before + [e], original.id))
            == Correct(e)(Current(original, Corrections(before, original.id)))
  {
    CorrectionsGrow(before, e, original.id);
    var was := Corrections(before, original.id);
    if Target(e) == Some(original.id) {
      CorrectionStep(original, was, e);
    } else {
      assert was + [] == was;
    }
  }

  lemma WellFormedPrefix(log: seq<Event>)
    requires log != [] && WellFormed(log)
    ensures WellFormed(log[..|log| - 1])
  {
    var before := log[..|log| - 1];
    forall i | 0 <= i < |before| ensures before[..i] == log[..i] {
    }
  }

  lemma ConsecutiveIsSorted(log: seq<Event>)
    requires Consecutive(log)
    ensures Sorted(BySequence, log) && Separates(BySequence, log)
  {
  }

  /** A new root has no correction yet: corrections name earlier roots. */
  lemma NewRootIsUncorrected(before: seq<Event>, e: Event)
    requires WellFormed(before + [e]) && IsRoot(e.kind)
    ensures Corrections(before + [e], e.id) == []
  {
    var log := before + [e];
    assert log[|log| - 1] == e;
    forall x | x in log ensures Target(x) != Some(e.id) {
      var i :| 0 <= i < |log| && log[i] == x;
      assert !HasRoot(log[..i], e.id);
    }
    FilterNone(Correcting(e.id), log);
  }

  lemma MapAppend(f: Event -> Resolved, s: seq<Event>, x: Event)
    ensures Map(f, s + [x]) == Map(f, s) + [f(x)]
  {
  }

  lemma RootStep(before: seq<Event>, e: Event, roots: seq<Event>)
    requires WellFormed(before + [e]) && Sorted(BySequence, before + [e]) && IsRoot(e.kind)
    ensures Map(ResolveOne(before + [e]), roots + [e]) == Map(ResolveOne(before), roots) + [Resolved(e, Active, None, [])]
  {
    forall r | r in roots ensures ResolveOne(before + [e])(r) == ResolveOne(before)(r) {
      CorrectionsGrow(before, e, r.id);
      assert Corrections(before, r.id) + [] == Corrections(before, r.id);
    }
    MapAgrees(ResolveOne(before + [e]), ResolveOne(before), roots);
    NewRootIsUncorrected(before, e);
    MapAppend(ResolveOne(before + [e]), roots, e);
  }

  lemma CorrectionsStep(before: seq<Event>, e: Event, roots: seq<Event>)
    requires Sorted(BySequence, before + [e]) && !IsRoot(e.kind)
    ensures Map(ResolveOne(before + [e]), roots) == Map(Correct(e), Map(ResolveOne(before), roots))
  {
    forall i | 0 <= i < |roots| ensures ResolveOne(before + [e])(roots[i]) == Correct(e)(ResolveOne(before)(roots[i])) {
      ResolveOneStep(before, e, roots[i]);
    }
  }

  lemma RootsGrow(before: seq<Event>, e: Event)
    requires Sorted(BySequence, before + [e])
    ensures SortBy(BySequence, Filter(Rooted(), before + [e]))
            == SortBy(BySequence, Filter(Rooted(), before)) + if IsRoot(e.kind) then [e] else []
  {
    SortedBefore(before, e);
    SortedSelection(Rooted(), before);
    SortedSelection(Rooted(), before + [e]);
    FilterAppendOne(Rooted(), before, e);
  }

  lemma ResolutionStep(before: seq<Event>, e: Event)
    requires WellFormed(before + [e])
    ensures ResolveThreadState(before + [e]) == Step(ResolveThreadState(before), e)
  {
    ConsecutiveIsSorted(before + [e]);
    RootsGrow(before, e);
    var roots := SortBy(BySequence, Filter(Rooted(), before));
    if IsRoot(e.kind) {
      RootStep(before, e, roots);
    } else {
      assert roots + [] == roots;
      CorrectionsStep(before, e, roots);
    }
  }

  lemma FoldStep(before: seq<Event>, e: Event)
    ensures Fold(before + [e]) == Step(Fold(before), e)
  {
    assert (before + [e])[..|before|] == before;
  }

  /** On every log an append sequence can build, resolving equals one pass in sequence order. */
  lemma {:induction false} ResolutionIsTheFold(log: seq<Event>)
    requires WellFormed(log)
    ensures ResolveThreadState(log) == Fold(log)
  {
    if log == [] {
      assert ResolveThreadState(log) == [];
    } else {
      var before, e := log[..|log| - 1], log[|log| - 1];
      assert log == before + [e];
      WellFormedPrefix(log);
      ResolutionIsTheFold(before);
      ResolutionStep(before, e);
      FoldStep(before, e);
    }
  }

  lemma ResolutionOfAnyOrderIsTheFold(log: seq<Event>, shuffled: seq<Event>)
    requires WellFormed(log) && multiset(shuffled) == multiset(log)
    ensures ResolveThreadState(shuffled) == Fold(log)
  {
    ConsecutiveIsSorted(log);
    ResolutionForgetsOrder(log, shuffled);
    ResolutionIsTheFold(log);
  }

  // ---- retraction ----

  lemma SelectionHolds(keep: Event -> bool, events: seq<Event>, e: Event)
    ensures e in SortBy(BySequence, Filter(keep, events)) <==> e in events && keep(e)
  {
    SortHolds(BySequence, Filter(keep, events), e);
  }

  lemma RetractionStands(events: seq<Event>, retraction: Event, original: Event)
    requires retraction in events && retraction.kind == Retract && Target(retraction) == Some(original.id)
    ensures ResolveOne(events)(original).status == Retracted
  {
    SelectionHolds(Correcting(original.id), events, retraction);
  }

  lemma ShownBelongs(events: seq<Event>, original: Event)
    ensures var r := ResolveOne(events)(original);
            Shown()(r) == original || (Shown()(r).kind == Edit && Target(Shown()(r)) == Some(original.id))
  {
    var corrections := SortBy(BySequence, Filter(Correcting(original.id), events));
    var edits := Filter(Editing(), corrections);
    if edits != [] {
      assert edits[|edits| - 1] in edits;
      SelectionHolds(Correcting(original.id), events, edits[|edits| - 1]);
    }
  }

  lemma RunReadsRoots(events: seq<Event>, shown: Event) returns (root: Event)
    requires shown in ResolveForRun(events)
    ensures root in events && IsRoot(root.kind) && ResolveOne(events)(root).status != Retracted
    ensures shown == Shown()(ResolveOne(events)(root))
  {
    var state := ResolveThreadState(events);
    var standing := Filter(Standing(), state);
    var i :| 0 <= i < |standing| && ResolveForRun(events)[i] == shown;
    assert standing[i] in standing;
    var roots := SortBy(BySequence, Filter(Rooted(), events));
    var j :| 0 <= j < |state| && state[j] == standing[i];
    assert |state| == |roots|;
    root := roots[j];
    assert state[j] == ResolveOne(events)(root);
    SelectionHolds(Rooted(), events, root);
  }

  /**
   * Retraction is absorbing: whatever else the log holds or is extended with, a run never
   * reads the retracted root, and never an edit of it.
   */
  lemma RetractedNeverReturns(events: seq<Event>, more: seq<Event>, retraction: Event, id: EventId, shown: Event)
    requires retraction in events && retraction.kind == Retract && Target(retraction) == Some(id)
    requires shown in ResolveForRun(events + more)
    ensures !IsRootOf(shown, id) && !(shown.kind == Edit && Target(shown) == Some(id))
  {
    var root := RunReadsRoots(events + more, shown);
    assert root.id != id by {
      if root.id == id {
        assert retraction in events + more;
        RetractionStands(events + more, retraction, root);
      }
    }
    ShownBelongs(events + more, root);
  }

  lemma StandingIsShown(events: seq<Event>, original: Event)
    requires original in events && IsRoot(original.kind) && ResolveOne(events)(original).status != Retracted
    ensures Shown()(ResolveOne(events)(original)) in ResolveForRun(events)
  {
    var f := ResolveOne(events);
    SelectionHolds(Rooted(), events, original);
    MapHolds(f, SortBy(BySequence, Filter(Rooted(), events)), original);
    assert f(original) in Filter(Standing(), ResolveThreadState(events));
    MapHolds(Shown(), Filter(Standing(), ResolveThreadState(events)), f(original));
  }

  lemma LastIsLatest(events: seq<Event>, id: EventId, e: Event)
    requires e in events && Target(e) == Some(id)
    ensures var c := Corrections(events, id);
            c != [] && c[|c| - 1] in events && Target(c[|c| - 1]) == Some(id) && e.sequence <= c[|c| - 1].sequence
  {
    var c := Corrections(events, id);
    SortBySorts(BySequence, Filter(Correcting(id), events));
    SelectionHolds(Correcting(id), events, e);
    var i :| 0 <= i < |c| && c[i] == e;
    assert i == |c| - 1 || BySequence(c[i], c[|c| - 1]);
    SelectionHolds(Correcting(id), events, c[|c| - 1]);
  }

  lemma OnlyEdits(events: seq<Event>, original: Event)
    requires forall e :: e in events && Target(e) == Some(original.id) ==> e.kind == Edit
    ensures var c := Corrections(events, original.id);
            ResolveOne(events)(original).status != Retracted
            && Shown()(ResolveOne(events)(original)) == if c == [] then original else c[|c| - 1]
  {
    var c := Corrections(events, original.id);
    forall e | e in c ensures e.kind == Edit {
      SelectionHolds(Correcting(original.id), events, e);
    }
    FilterEvery(Editing(), c);
    assert !AnyRetract(c);
  }

  predicate Corrected(events: seq<Event>, id: EventId) {
    exists e :: e in events && Target(e) == Some(id)
  }

  ghost predicate IsLatest(events: seq<Event>, id: EventId, shown: Event) {
    && shown in events && Target(shown) == Some(id)
    && forall e :: e in events && Target(e) == Some(id) ==> e.sequence <= shown.sequence
  }

  ghost predicate ShowsLatest(events: seq<Event>, original: Event, shown: Event) {
    if Corrected(events, original.id) then IsLatest(events, original.id, shown) else shown == original
  }

  lemma CorrectedHasCorrections(events: seq<Event>, id: EventId)
    ensures Corrected(events, id) <==> Corrections(events, id) != []
  {
    var c := Corrections(events, id);
    if c != [] {
      assert c[0] in c;
      SelectionHolds(Correcting(id), events, c[0]);
    }
    forall e | e in events && Target(e) == Some(id) ensures c != [] {
      LastIsLatest(events, id, e);
    }
  }

  lemma LastCorrectionIsLatest(events: seq<Event>, id: EventId)
    requires Corrections(events, id) != []
    ensures IsLatest(events, id, Corrections(events, id)[|Corrections(events, id)| - 1])
  {
    var c := Corrections(events, id);
    assert c[|c| - 1] in c;
    SelectionHolds(Correcting(id), events, c[|c| - 1]);
    forall e | e in events && Target(e) == Some(id) ensures e.sequence <= c[|c| - 1].sequence {
      LastIsLatest(events, id, e);
    }
  }

  /** The same over the stored log: no later append to any thread brings the root back. */
  lemma RetractionSurvivesAppends(
      rows: seq<Event>, later: seq<Event>, t: ThreadId, retraction: Event, id: EventId, shown: Event)
    requires retraction in LogOf(rows, t) && retraction.kind == Retract && Target(retraction) == Some(id)
    requires shown in ResolveForRun(LogOf(rows + later, t))
    ensures !IsRootOf(shown, id) && !(shown.kind == Edit && Target(shown) == Some(id))
  {
    FilterAppend(InThread(t), rows, later);
    RetractedNeverReturns(LogOf(rows, t), LogOf(later, t), retraction, id, shown);
  }

  /** The run reader shows each root that was never retracted, by its latest edit if it has one. */
  lemma RunShowsLatest(events: seq<Event>, original: Event) returns (shown: Event)
    requires original in events && IsRoot(original.kind)
    requires forall e :: e in events && Target(e) == Some(original.id) ==> e.kind == Edit
    ensures shown in ResolveForRun(events) && ShowsLatest(events, original, shown)
  {
    OnlyEdits(events, original);
    StandingIsShown(events, original);
    shown := Shown()(ResolveOne(events)(original));
    LatestIsShown(events, original, shown);
  }

  lemma LatestIsShown(events: seq<Event>, original: Event, shown: Event)
    requires var c := Corrections(events, original.id); shown == if c == [] then original else c[|c| - 1]
    ensures ShowsLatest(events, original, shown)
  {
    CorrectedHasCorrections(events, original.id);
    if Corrected(events, original.id) {
      LastCorrectionIsLatest(events, original.id);
    }
  }

  // ---- what is read, by the fields of the events ----

  ghost predicate Edits(e: Event, id: EventId) {
    e.kind == Edit && e.payload.supersedes.Some? && e.payload.supersedes.value.id == id
  }

  ghost predicate Retracts(e: Event, id: EventId) {
    e.kind == Retract && e.payload.retracts.Some? && e.payload.retracts.value.id == id
  }

  lemma TargetsExactly(e: Event, id: EventId)
    ensures Target(e) == Some(id) <==> Edits(e, id) || Retracts(e, id)
    ensures IsRoot(e.kind) <==> OriginalKind(e.kind)
  {
  }

  ghost predicate IsRetracted(events: seq<Event>, id: EventId) {
    exists e :: e in events && Retracts(e, id)
  }

  ghost predicate IsEdited(events: seq<Event>, id: EventId) {
    exists e :: e in events && Edits(e, id)
  }

  ghost predicate LatestEdit(events: seq<Event>, id: EventId, edit: Event) {
    edit in events && Edits(edit, id) && forall e :: e in events && Edits(e, id) ==> e.sequence <= edit.sequence
  }

  /** What a root currently means: all its edits in order, retracted for good, or shown by its latest edit. */
  ghost predicate MeansNow(events: seq<Event>, original: Event, r: Resolved) {
    && r.original == original
    && r.status == (if IsRetracted(events, original.id) then Retracted
                    else if IsEdited(events, original.id) then Edited else Active)
    && (r.currentEdit.Some? <==> r.status == Edited)
    && (r.currentEdit.Some? ==> LatestEdit(events, original.id, r.currentEdit.value))
    && ListsEdits(events, original.id, r.edits)
  }

  ghost predicate InOrder(events: seq<Event>) {
    forall i, j :: 0 <= i < j < |events| ==> events[i].sequence <= events[j].sequence
  }

  /** Exactly the edits of this root, in sequence order. */
  ghost predicate ListsEdits(events: seq<Event>, id: EventId, edits: seq<Event>) {
    (forall e :: e in edits <==> e in events && Edits(e, id)) && InOrder(edits)
  }

  lemma EditsListed(events: seq<Event>, id: EventId)
    ensures ListsEdits(events, id, Filter(Editing(), Corrections(events, id)))
  {
    var corrections := Corrections(events, id);
    forall e ensures e in Filter(Editing(), corrections) <==> e in events && Edits(e, id) {
      SelectionHolds(Correcting(id), events, e);
      TargetsExactly(e, id);
    }
    SortBySorts(BySequence, Filter(Correcting(id), events));
    FilterStaysSorted(BySequence, Editing(), corrections);
    InSequence(Filter(Editing(), corrections));
  }

  lemma InSequence(events: seq<Event>)
    requires Sorted(BySequence, events)
    ensures InOrder(events)
  {
    forall i, j | 0 <= i < j < |events| ensures events[i].sequence <= events[j].sequence {
      assert BySequence(events[i], events[j]);
    }
  }

  lemma RetractListed(events: seq<Event>, id: EventId)
    ensures AnyRetract(Corrections(events, id)) <==> IsRetracted(events, id)
  {
    forall e: Event ensures e in Corrections(events, id) && e.kind == Retract <==> e in events && Retracts(e, id) {
      SelectionHolds(Correcting(id), events, e);
      TargetsExactly(e, id);
    }
  }

  lemma LastEditIsLatest(events: seq<Event>, id: EventId, edits: seq<Event>)
    requires ListsEdits(events, id, edits)
    ensures edits != [] <==> IsEdited(events, id)
    ensures edits != [] ==> LatestEdit(events, id, edits[|edits| - 1])
  {
    if edits != [] {
      var last := edits[|edits| - 1];
      assert last in edits;
      forall e | e in events && Edits(e, id) ensures e.sequence <= last.sequence {
        var i :| 0 <= i < |edits| && edits[i] == e;
      }
    }
  }

  lemma CurrentMeans(events: seq<Event>, original: Event, corrections: seq<Event>)
    requires var edits := Filter(Editing(), corrections);
             && ListsEdits(events, original.id, edits)
             && (edits != [] <==> IsEdited(events, original.id))
             && (edits != [] ==> LatestEdit(events, original.id, edits[|edits| - 1]))
    requires AnyRetract(corrections) <==> IsRetracted(events, original.id)
    ensures MeansNow(events, original, Current(original, corrections))
  {
  }

  lemma ResolvesExactly(events: seq<Event>, original: Event)
    ensures MeansNow(events, original, ResolveOne(events)(original))
  {
    var corrections := Corrections(events, original.id);
    EditsListed(events, original.id);
    LastEditIsLatest(events, original.id, Filter(Editing(), corrections));
    RetractListed(events, original.id);
    CurrentMeans(events, original, corrections);
  }

  /** One entry for each root event, in the order of their sequences, each meaning what it now means. */
  lemma ResolutionIsExact(events: seq<Event>) returns (roots: seq<Event>)
    ensures InOrder(roots) && multiset(roots) == multiset(Filter((e: Event) => OriginalKind(e.kind), events))
    ensures |ResolveThreadState(events)| == |roots|
    ensures forall i :: 0 <= i < |roots| ==> MeansNow(events, roots[i], ResolveThreadState(events)[i])
  {
    FilterAgrees(Rooted(), (e: Event) => OriginalKind(e.kind), events);
    SortBySorts(BySequence, Filter(Rooted(), events));
    roots := SortBy(BySequence, Filter(Rooted(), events));
    InSequence(roots);
    forall i | 0 <= i < |roots| ensures MeansNow(events, roots[i], ResolveThreadState(events)[i]) {
      ResolvesExactly(events, roots[i]);
    }
  }

  /** What a run is shown of a root: nothing once retracted, its latest edit if edited, itself otherwise. */
  ghost predicate StandsAs(events: seq<Event>, root: Event, shown: Event) {
    && root in events && OriginalKind(root.kind) && !IsRetracted(events, root.id)
    && if IsEdited(events, root.id) then LatestEdit(events, root.id, shown) else shown == root
  }

  lemma LatestIsOne(events: seq<Event>, id: EventId, a: Event, b: Event)
    requires Separates(BySequence, events) && LatestEdit(events, id, a) && LatestEdit(events, id, b)
    ensures a == b
  {
    assert BySequence(a, b) && BySequence(b, a);
  }

  /** A run reads exactly the roots that stand, each as it stands. */
  lemma RunReadsExactly(events: seq<Event>, shown: Event)
    requires Separates(BySequence, events)
    ensures shown in ResolveForRun(events) <==> exists root :: StandsAs(events, root, shown)
  {
    if shown in ResolveForRun(events) {
      var root := RunReadsRoots(events, shown);
      ResolvesExactly(events, root);
      TargetsExactly(root, root.id);
      assert StandsAs(events, root, shown);
    }
    if root :| StandsAs(events, root, shown) {
      TargetsExactly(root, root.id);
      ResolvesExactly(events, root);
      StandingIsShown(events, root);
      if IsEdited(events, root.id) {
        LatestIsOne(events, root.id, shown, Shown()(ResolveOne(events)(root)));
      }
    }
  }
}
