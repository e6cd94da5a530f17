/**
 * Human approval of an instruction: a fingerprint of its closure in one revision, compared
 * with the closure compiled from another.
 */
module InstructionApprovals {
  import opened Wrappers
  import opened Scene
  import opened ContextIndex
  import opened Sequences
  import opened ElementMeaning
  import opened InstructionClosure
  import Hashes = ContentHashes

  type UserId(==, !new)

  /** A stored semantic relation as the pinned revision holds it; missing fields are not strings. */
  datatype RelationRow =
    | Malformed
    | RelationRow(context: string, from: Option<string>, to: Option<string>, kind: RelationKind)

  datatype Revision = Revision(elements: seq<Entry>, contexts: seq<Context>, relations: seq<RelationRow>)

  datatype ApprovalError = ContextNotFound | InstructionNotText | SemanticRelationInvalid | ApprovalPreviewStale

  /** The fingerprints are hashes of canonical JSON, not the contents themselves. */
  datatype Approval = Approval(
    schemaVersion: int, semanticHash: Hashes.Hash, closureHash: Hashes.Hash, approvedBy: UserId)

  datatype Status = NoApproval | Approved | Expired

  // ---- one revision ----

  predicate UsableRow(row: RelationRow) {
    row.RelationRow? && row.from.Some? && row.to.Some? && row.kind != UnknownKind
  }

  /** The rows of one Context; a malformed row anywhere, or a bad row of this Context, is an error. */
  function RelationsForContext(rows: seq<RelationRow>, c: string): Option<seq<Relation>> {
    if rows == [] then Some([])
    else if rows[0].Malformed? then None
    else if rows[0].context != c then RelationsForContext(rows[1..], c)
    else if !UsableRow(rows[0]) then None
    else After([Relation(rows[0].from.value, rows[0].to.value, rows[0].kind)], RelationsForContext(rows[1..], c))
  }

  // ---- the same, row by row ----

  /** Every row is a record, and those of this Context name two ids and a known kind. */
  ghost predicate RowsParse(rows: seq<RelationRow>, c: string) {
    forall row :: row in rows ==>
      row.RelationRow?
      && (row.context == c ==> row.from != None && row.to != None
                               && row.kind in {DependsOn, References, WholeFrame, Group})
  }

  ghost predicate Reads(row: RelationRow, r: Relation) {
    row.RelationRow? && row.from == Some(r.from) && row.to == Some(r.to) && row.kind == r.kind
  }

  ghost function RowsOf(c: string): RelationRow -> bool {
    (row: RelationRow) => row.RelationRow? && row.context == c
  }

  /** The relations are the rows of this Context, in their order. */
  ghost predicate ReadsRows(rows: seq<RelationRow>, c: string, relations: seq<Relation>) {
    var own := Filter(RowsOf(c), rows);
    |relations| == |own| && forall k :: 0 <= k < |own| ==> Reads(own[k], relations[k])
  }

  lemma {:induction false} RelationsForContextExactly(rows: seq<RelationRow>, c: string)
    ensures RelationsForContext(rows, c).Some? <==> RowsParse(rows, c)
    ensures RowsParse(rows, c) ==> ReadsRows(rows, c, RelationsForContext(rows, c).value)
  {
    if rows != [] {
      RelationsForContextExactly(rows[1..], c);
      FirstRowParses(rows, c);
      if RowsParse(rows, c) {
        FirstRowReads(rows, c, RelationsForContext(rows[1..], c).value);
      }
    }
  }

  lemma FirstRowParses(rows: seq<RelationRow>, c: string)
    requires rows != []
    ensures RowsParse(rows, c) <==> RowsParse([rows[0]], c) && RowsParse(rows[1..], c)
  {
    assert rows == [rows[0]] + rows[1..];
  }

  lemma FirstRowReads(rows: seq<RelationRow>, c: string, rest: seq<Relation>)
    requires rows != [] && RowsParse([rows[0]], c) && ReadsRows(rows[1..], c, rest)
    ensures rows[0] in [rows[0]] && rows[0].RelationRow?
    ensures rows[0].context != c ==> ReadsRows(rows, c, rest)
    ensures rows[0].context == c ==>
              rows[0].from.Some? && rows[0].to.Some?
              && ReadsRows(rows, c, [Relation(rows[0].from.value, rows[0].to.value, rows[0].kind)] + rest)
  {
    assert rows[0] in [rows[0]];
    assert Filter(RowsOf(c), rows)
           == if rows[0].context == c then [rows[0]] + Filter(RowsOf(c), rows[1..]) else Filter(RowsOf(c), rows[1..]);
  }

  // ---- compiling it ----

  function Index(rev: Revision): map<string, Element> {
    ById(LiveElements(rev.elements))
  }

  function Membership(rev: Revision): map<string, Option<string>> {
    var byId := Index(rev);
    map id | id in byId :: Resolved(byId, ByFrame(rev.contexts), byId[id])
  }

  function InputOf(rev: Revision, c: string, element: string, relations: seq<Relation>): Input {
    Input(c, element, Index(rev), Membership(rev), relations)
  }

  predicate NamesContext(rev: Revision, c: string) {
    exists x :: x in rev.contexts && x.id == c
  }

  predicate IsText(rev: Revision, element: string) {
    element in Index(rev) && Index(rev)[element].kind == Some("text")
  }

  /** The closure this revision gives the instruction, if it gives one. */
  ghost function ContentIn(rev: Revision, c: string, element: string): Option<Closure> {
    var relations := RelationsForContext(rev.relations, c);
    if !NamesContext(rev, c) || !IsText(rev, element) || relations.None? then None
    else
      var i := InputOf(rev, c, element, relations.value);
      if Compiles(i) then Some(Content(i)) else None
  }

  function After(seen: seq<Relation>, rest: Option<seq<Relation>>): Option<seq<Relation>> {
    match rest case None => None case Some(r) => Some(seen + r)
  }

  lemma AfterNothing(rest: Option<seq<Relation>>)
    ensures After([], rest) == rest
  {
    if rest.Some? {
      assert [] + rest.value == rest.value;
    }
  }

  lemma AfterOne(seen: seq<Relation>, r: Relation, rest: Option<seq<Relation>>)
    ensures After(seen, After([r], rest)) == After(seen + [r], rest)
  {
    if rest.Some? {
      assert seen + ([r] + rest.value) == seen + [r] + rest.value;
    }
  }

  method CollectRelations(rows: seq<RelationRow>, c: string) returns (r: Option<seq<Relation>>)
    ensures r == RelationsForContext(rows, c)
  {
    var relations: seq<Relation> := [];
    var k := 0;
    assert rows[0..] == rows;
    AfterNothing(RelationsForContext(rows, c));
    while k < |rows|
      invariant 0 <= k <= |rows|
      invariant RelationsForContext(rows, c) == After(relations, RelationsForContext(rows[k..], c))
    {
      assert rows[k..][1..] == rows[k + 1..];
      if rows[k].Malformed? {
        return None;
      }
      if rows[k].context == c {
        if rows[k].from.None? || rows[k].to.None? || rows[k].kind == UnknownKind {
          return None;
        }
        var relation := Relation(rows[k].from.value, rows[k].to.value, rows[k].kind);
        AfterOne(relations, relation, RelationsForContext(rows[k + 1..], c));
        relations := relations + [relation];
      }
      k := k + 1;
    }
    assert rows[k..] == [] && relations + [] == relations;
    return Some(relations);
  }

  method CompileInstructionClosureFromRevision(rev: Revision, c: string, element: string)
    returns (r: Result<Closure, ApprovalError>)
    ensures r.Ok? <==> ContentIn(rev, c, element).Some?
    ensures r.Ok? ==> r.value == ContentIn(rev, c, element).value
    ensures r.Ok? ==> (exists x :: x in rev.contexts && x.id == c) && RowsParse(rev.relations, c)
                      && element in Index(rev) && Index(rev)[element].kind == Some("text")
    ensures r.Err? ==> r.error == if !exists x :: x in rev.contexts && x.id == c then ContextNotFound
                                  else if element !in Index(rev) || Index(rev)[element].kind != Some("text")
                                  then InstructionNotText
                                  else SemanticRelationInvalid
  {
    RelationsForContextExactly(rev.relations, c);
    if !NamesContext(rev, c) {
      return Err(ContextNotFound);
    }
    if !IsText(rev, element) {
      return Err(InstructionNotText);
    }
    var relations := CollectRelations(rev.relations, c);
    if relations.None? {
      return Err(SemanticRelationInvalid);
    }
    var compiled := CompileInstructionClosure(InputOf(rev, c, element, relations.value));
    if compiled.Err? {
      return Err(SemanticRelationInvalid);
    }
    return Ok(compiled.value);
  }

  // ---- approval rows ----

  function Stamp(content: Closure, user: UserId): Approval {
    Approval(SCHEMA_VERSION, Hashes.SemanticHash(SCHEMA_VERSION, content.root),
             Hashes.ClosureHash(SCHEMA_VERSION, content), user)
  }

  ghost function StatusIn(approval: Option<Approval>, rev: Revision, c: string, element: string): Status {
    match approval
    case None => NoApproval
    case Some(a) =>
      match ContentIn(rev, c, element)
      case None => Expired
      case Some(content) => if Stamp(content, a.approvedBy) == a then Approved else Expired
  }

  class Approvals {
    var rows: map<(string, string), Approval>

    constructor ()
      ensures rows == map[]
    {
      rows := map[];
    }

    /** Upserts the closure of the current revision, if it is the one the human reviewed. */
    method ApproveInstruction(rev: Revision, c: string, element: string, user: UserId, expected: Hashes.Hash)
      returns (r: Result<Approval, ApprovalError>)
      modifies this
      ensures r.Ok? <==> ContentIn(rev, c, element).Some?
                         && expected == Hashes.ClosureHash(SCHEMA_VERSION, ContentIn(rev, c, element).value)
      ensures r.Ok? ==> r.value == Stamp(ContentIn(rev, c, element).value, user)
      ensures r.Ok? ==> r.value.schemaVersion == 1 && r.value.approvedBy == user && r.value.closureHash == expected
      ensures rows == if r.Ok? then old(rows)[(c, element) := r.value] else old(rows)
    {
      var compiled := CompileInstructionClosureFromRevision(rev, c, element);
      if compiled.Err? {
        return Err(compiled.error);
      }
      if expected != Hashes.ClosureHash(SCHEMA_VERSION, compiled.value) {
        return Err(ApprovalPreviewStale);
      }
      var row := Stamp(compiled.value, user);
      rows := rows[(c, element) := row];
      return Ok(row);
    }

    method ReadInstructionApprovalStatus(rev: Revision, c: string, element: string) returns (s: Status)
      ensures s == StatusIn(if (c, element) in rows then Some(rows[(c, element)]) else None, rev, c, element)
    {
      if (c, element) !in rows {
        return NoApproval;
      }
      var approval := rows[(c, element)];
      var compiled := CompileInstructionClosureFromRevision(rev, c, element);
      if compiled.Err? {
        return Expired;
      }
      var content := compiled.value;
      if approval.schemaVersion == SCHEMA_VERSION
         && approval.semanticHash == Hashes.SemanticHash(SCHEMA_VERSION, content.root)
         && approval.closureHash == Hashes.ClosureHash(SCHEMA_VERSION, content) {
        return Approved;
      }
      return Expired;
    }
  }

  // ---- what an approval survives ----

  function RelationsOf(rev: Revision, c: string): seq<Relation> {
    match RelationsForContext(rev.relations, c) case None => [] case Some(r) => r
  }

  function ApprovedInput(rev: Revision, c: string, element: string): Input {
    InputOf(rev, c, element, RelationsOf(rev, c))
  }

  /** A text element of a Context the revision names, whose stored relations parse and compile. */
  ghost predicate Usable(rev: Revision, c: string, element: string) {
    && (exists x :: x in rev.contexts && x.id == c)
    && element in Index(rev) && Index(rev)[element].kind == Some("text")
    && RowsParse(rev.relations, c) && Compiles(ApprovedInput(rev, c, element))
  }

  lemma ContentInIs(rev: Revision, c: string, element: string)
    ensures WellIndexed(ApprovedInput(rev, c, element))
    ensures ContentIn(rev, c, element).Some? <==> Usable(rev, c, element)
    ensures Usable(rev, c, element) ==> ContentIn(rev, c, element) == Some(Content(ApprovedInput(rev, c, element)))
    ensures Usable(rev, c, element) ==> ReadsRows(rev.relations, c, ApprovedInput(rev, c, element).relations)
  {
    RelationsForContextExactly(rev.relations, c);
  }

  /** An injective fingerprint: the stamped content is the only one that reads as approved. */
  lemma StampMatchesOnly(content: Closure, user: UserId, now: Revision, c: string, element: string)
    ensures StatusIn(Some(Stamp(content, user)), now, c, element)
            == if ContentIn(now, c, element) == Some(content) then Approved else Expired
  {
    if ContentIn(now, c, element).Some? {
      var found := ContentIn(now, c, element).value;
      Hashes.ClosureHashIsExact(SCHEMA_VERSION, content, found);
      Hashes.SemanticHashIsExact(SCHEMA_VERSION, content.root, found.root);
    }
  }

  /**
   * Approved in `now` exactly when `now` gives the instruction a closure, and it is the
   * same set of elements, meaning the same, with the same typed relations leaving it
   * as in the revision `was` that was approved.
   */
  lemma ApprovedExactlyWhileContentStands(was: Revision, now: Revision, c: string, element: string, user: UserId)
    requires ContentIn(was, c, element).Some?
    ensures StatusIn(Some(Stamp(ContentIn(was, c, element).value, user)), now, c, element)
            == if Usable(now, c, element) && SameClosure(ApprovedInput(was, c, element), ApprovedInput(now, c, element))
               then Approved else Expired
  {
    StampMatchesOnly(ContentIn(was, c, element).value, user, now, c, element);
    ContentInIs(was, c, element);
    ContentInIs(now, c, element);
    if Usable(now, c, element) {
      ContentEqualsExactly(ApprovedInput(was, c, element), ApprovedInput(now, c, element));
    }
  }

  ghost predicate SameClosure(i: Input, j: Input) {
    Least(i) == Least(j) && SameNodes(i, j, Least(i)) && SameEdges(i, j, Least(i))
  }

  /** Edits outside the closure, to any number of elements and relations, never expire the approval. */
  lemma EditsOutsideKeepApproval(was: Revision, now: Revision, c: string, element: string, user: UserId)
    requires ContentIn(was, c, element).Some?
    requires NamesContext(now, c) && RowsParse(now.relations, c)
    requires AgreesOnClosure(ApprovedInput(was, c, element), ApprovedInput(now, c, element))
    ensures StatusIn(Some(Stamp(ContentIn(was, c, element).value, user)), now, c, element) == Approved
  {
    ContentInIs(was, c, element);
    ContentInIs(now, c, element);
    RootStaysText(was, now, c, element);
    AgreementKeepsContent(ApprovedInput(was, c, element), ApprovedInput(now, c, element));
    StampMatchesOnly(ContentIn(was, c, element).value, user, now, c, element);
  }

  lemma RootStaysText(was: Revision, now: Revision, c: string, element: string)
    requires IsText(was, element) && AgreesOnClosure(ApprovedInput(was, c, element), ApprovedInput(now, c, element))
    ensures IsText(now, element)
  {
    var i, j := ApprovedInput(was, c, element), ApprovedInput(now, c, element);
    LeastIsLeast(i);
    assert KindOf(i.byId[element]) == KindOf(j.byId[element]);
  }

  /** Reordering the scene or the stored relations changes nothing. */
  lemma ReorderingKeepsApproval(was: Revision, now: Revision, c: string, element: string, user: UserId)
    requires ContentIn(was, c, element).Some?
    requires UniqueIds(LiveElements(was.elements)) && UniqueIds(LiveElements(now.elements))
    requires multiset(LiveElements(now.elements)) == multiset(LiveElements(was.elements))
    requires now.contexts == was.contexts && RowsParse(now.relations, c)
    requires multiset(RelationsOf(now, c)) == multiset(RelationsOf(was, c))
    ensures StatusIn(Some(Stamp(ContentIn(was, c, element).value, user)), now, c, element) == Approved
  {
    IndexForgetsOrder(LiveElements(was.elements), LiveElements(now.elements));
    ContentInIs(was, c, element);
    ContentInIs(now, c, element);
    assert Membership(now) == Membership(was);
    ContentForgetsOrder(ApprovedInput(was, c, element), ApprovedInput(now, c, element));
    StampMatchesOnly(ContentIn(was, c, element).value, user, now, c, element);
  }

  lemma IndexedAlike(a: seq<Element>, b: seq<Element>, id: string)
    requires UniqueIds(b) && multiset(a) == multiset(b) && id in ById(a)
    ensures id in ById(b) && ById(b)[id] == ById(a)[id]
  {
    var e := ById(a)[id];
    assert e in multiset(a);
    UniqueIdsIndexThemselves(b, e);
  }

  lemma IndexForgetsOrder(a: seq<Element>, b: seq<Element>)
    requires UniqueIds(a) && UniqueIds(b) && multiset(a) == multiset(b)
    ensures ById(a) == ById(b)
  {
    forall id | id in ById(a) ensures id in ById(b) && ById(b)[id] == ById(a)[id] {
      IndexedAlike(a, b, id);
    }
    forall id | id in ById(b) ensures id in ById(a) {
      IndexedAlike(b, a, id);
    }
  }
}
