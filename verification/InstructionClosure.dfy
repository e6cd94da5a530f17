/**
 * The semantic closure of one instruction: a depth-first search over typed relations and
 * a growing worklist of whole-frame relations, computing a least fixpoint.
 */
module InstructionClosure {
  import opened Wrappers
  import opened Scene
  import opened ElementMeaning
  import opened Ordering
  import opened Sequences

  const SCHEMA_VERSION := 1

  datatype RelationKind = DependsOn | References | WholeFrame | Group | UnknownKind

  datatype Relation = Relation(from: string, to: string, kind: RelationKind)

  datatype ClosureError =
    | InstructionMissing
    | InstructionOutsideContext
    | InvalidRelation
    | RelationTargetMissing
    | ForeignContextReference

  /** `resolve` gives the Context each element of the scene belongs to. */
  datatype Input = Input(
    context: string,
    root: string,
    byId: map<string, Element>,
    resolve: map<string, Option<string>>,
    relations: seq<Relation>)

  // ---- projections ----

  function NormalizedText(s: string): string {
    if s == "" then ""
    else if s[0] == '\r' then
      ['\n'] + NormalizedText(if |s| > 1 && s[1] == '\n' then s[2..] else s[1..])
    else [s[0]] + NormalizedText(s[1..])
  }

  function NonEmpty(o: Option<string>): Option<string> {
    if o == Some("") then None else o
  }

  datatype Projection = Projection(id: string, kind: string, text: Option<string>, link: Option<string>)

  /** The authored text if there is one, otherwise the rendered text; geometry is no part of it. */
  function SemanticProjection(e: Element): Projection {
    var authored, rendered := NonEmpty(e.originalText), NonEmpty(e.text);
    Projection(
      e.id,
      match NonEmpty(e.kind) { case Some(k) => k case None => "unknown" },
      match authored {
        case Some(t) => Some(NormalizedText(t))
        case None => match rendered { case Some(t) => Some(NormalizedText(t)) case None => None }
      },
      NonEmpty(e.link))
  }

  lemma NormalizedHead(s: string)
    requires s != ""
    ensures NormalizedText(s)
            == if BreakAt(s) > 0 then ['\n'] + NormalizedText(s[BreakAt(s)..]) else [s[0]] + NormalizedText(s[1..])
  {
  }

  /** Normalizing the line endings forgets them, and nothing else. */
  lemma {:induction false} NormalizedTextsAgree(a: string, b: string)
    ensures NormalizedText(a) == NormalizedText(b) <==> SameUpToLineEndings(a, b)
    decreases |a|
  {
    if a != "" && b != "" {
      NormalizedHead(a);
      NormalizedHead(b);
      var m, n := if BreakAt(a) > 0 then BreakAt(a) else 1, if BreakAt(b) > 0 then BreakAt(b) else 1;
      NormalizedTextsAgree(a[m..], b[n..]);
      var x, y := NormalizedText(a[m..]), NormalizedText(b[n..]);
      assert NormalizedText(a)[1..] == x && NormalizedText(b)[1..] == y;
      assert NormalizedText(a)[0] == NormalizedText(b)[0] && x == y ==> NormalizedText(a) == NormalizedText(b);
    }
  }

  /** Two elements project alike exactly when they mean the same. */
  lemma ProjectionsAgree(a: Element, b: Element)
    ensures SemanticProjection(a) == SemanticProjection(b) <==> SameMeaning(a, b)
  {
    if WordsOf(a).Some? && WordsOf(b).Some? {
      NormalizedTextsAgree(WordsOf(a).value, WordsOf(b).value);
    }
  }

  // ---- relations ----

  function Rank(k: RelationKind): nat {
    match k
    case DependsOn => 0
    case Group => 1
    case References => 2
    case WholeFrame => 3
    case UnknownKind => 4
  }

  predicate RelationLeq(a: Relation, b: Relation) {
    Rank(a.kind) < Rank(b.kind)
    || (a.kind == b.kind
        && ((a.from != b.from && LeqString(a.from, b.from))
            || (a.from == b.from && LeqString(a.to, b.to))))
  }

  lemma RelationsAreOrdered()
    ensures TotalOrder(RelationLeq)
  {
    StringsAreOrdered();
    forall a, b, c | RelationLeq(a, b) && RelationLeq(b, c) ensures RelationLeq(a, c) {
    }
  }

  predicate InContext(i: Input, id: string) {
    id in i.byId && id in i.resolve && i.resolve[id] == Some(i.context)
  }

  /** `assertRelation`, and for a whole-frame relation that its target is a frame. */
  function RelationError(i: Input, r: Relation): Option<ClosureError> {
    if r.kind == UnknownKind || r.from == "" || r.to == "" then Some(InvalidRelation)
    else if r.from !in i.byId || r.to !in i.byId then Some(RelationTargetMissing)
    else if !InContext(i, r.from) || !InContext(i, r.to) then Some(ForeignContextReference)
    else None
  }

  function FrameError(i: Input, r: Relation): Option<ClosureError> {
    if RelationError(i, r).Some? then RelationError(i, r)
    else if r.kind == WholeFrame && i.byId[r.to].kind != Some("frame") then Some(InvalidRelation)
    else None
  }

  // ---- what a relation has to be ----

  /** A live element that resolves to the Context. */
  ghost predicate Belongs(i: Input, id: string) {
    id in i.byId && id in i.resolve && i.resolve[id] == Some(i.context)
  }

  ghost predicate Spelled(r: Relation) {
    r.kind in {DependsOn, References, WholeFrame, Group} && r.from != "" && r.to != ""
  }

  ghost predicate ToFrame(i: Input, r: Relation) {
    r.kind == WholeFrame ==> r.to in i.byId && i.byId[r.to].kind == Some("frame")
  }

  /** A known kind between two elements of the Context, and to a frame if it means the whole frame. */
  ghost predicate UsableRelation(i: Input, r: Relation) {
    Spelled(r) && Belongs(i, r.from) && Belongs(i, r.to) && ToFrame(i, r)
  }

  /** What is wrong with a relation, the first of the checks it fails. */
  ghost predicate Faulty(i: Input, r: Relation, e: ClosureError) {
    match e
    case InvalidRelation => !Spelled(r) || (Belongs(i, r.from) && Belongs(i, r.to) && !ToFrame(i, r))
    case RelationTargetMissing => Spelled(r) && (r.from !in i.byId || r.to !in i.byId)
    case ForeignContextReference =>
      Spelled(r) && r.from in i.byId && r.to in i.byId && (!Belongs(i, r.from) || !Belongs(i, r.to))
    case InstructionMissing => false
    case InstructionOutsideContext => false
  }

  lemma FaultsAgree(i: Input, r: Relation)
    ensures FrameError(i, r).None? <==> UsableRelation(i, r)
    ensures forall e :: FrameError(i, r) == Some(e) <==> Faulty(i, r, e)
  {
  }

  // ---- the least fixpoint ----

  ghost predicate MemberOf(i: Input, id: string, frame: string) {
    Belongs(i, id) && i.byId[id].frameId == Some(frame)
  }

  ghost predicate EdgeClosed(i: Input, s: set<string>) {
    forall r :: r in i.relations && r.from in s ==> r.to in s
  }

  ghost predicate FrameClosed(i: Input, s: set<string>) {
    forall r, id :: r in i.relations && r.kind == WholeFrame && r.from in s && MemberOf(i, id, r.to) ==> id in s
  }

  /** Contains the instruction, follows every relation, and holds the content of every whole frame. */
  ghost predicate Closed(i: Input, s: set<string>) {
    i.root in s && EdgeClosed(i, s) && FrameClosed(i, s)
  }

  function Universe(i: Input): set<string> {
    {i.root} + (set r | r in i.relations :: r.to) + i.byId.Keys
  }

  /** What every closed set has in common. */
  ghost function Least(i: Input): set<string> {
    set id | id in Universe(i) && forall s: set<string> :: Closed(i, s) ==> id in s
  }

  lemma LeastIsLeast(i: Input)
    ensures Closed(i, Least(i))
    ensures forall s: set<string> :: Closed(i, s) ==> Least(i) <= s
  {
    assert i.root in Universe(i);
    forall r | r in i.relations && r.from in Least(i) ensures r.to in Least(i) {
      forall s: set<string> | Closed(i, s) ensures r.to in s {
        assert r.from in s;
      }
    }
    forall r, id | r in i.relations && r.kind == WholeFrame && r.from in Least(i) && MemberOf(i, id, r.to)
      ensures id in Least(i)
    {
      forall s: set<string> | Closed(i, s) ensures id in s {
        assert r.from in s;
      }
    }
  }

  /** Every relation that leaves the set is usable. */
  ghost predicate Sound(i: Input, s: set<string>) {
    forall r :: r in i.relations && r.from in s ==> UsableRelation(i, r)
  }

  // ---- the compiled closure ----

  datatype Closure = Closure(context: string, root: Projection, edges: seq<Relation>, nodes: seq<Projection>)

  function StartsIn(s: set<string>): Relation -> bool {
    (r: Relation) => r.from in s
  }

  function Leaving(relations: seq<Relation>, s: set<string>): seq<Relation> {
    Filter(StartsIn(s), relations)
  }

  function Project(byId: map<string, Element>, ids: seq<string>): seq<Projection>
    requires forall id :: id in ids ==> id in byId
  {
    seq(|ids|, k requires 0 <= k < |ids| => SemanticProjection(byId[ids[k]]))
  }

  ghost predicate RootUsable(i: Input) {
    Belongs(i, i.root)
  }

  /** Compiles exactly when the instruction is in the Context and its least closure is sound. */
  ghost predicate Compiles(i: Input) {
    RootUsable(i) && Sound(i, Least(i))
  }

  /** A sound closure holds only live elements of the Context. */
  lemma SoundStaysInside(i: Input)
    requires Compiles(i)
    ensures forall id :: id in Least(i) ==> Belongs(i, id)
  {
    LeastIsLeast(i);
    var inside := set id | id in Least(i) && Belongs(i, id);
    forall r | r in i.relations && r.from in inside ensures r.to in inside {
      assert UsableRelation(i, r);
    }
    assert Closed(i, inside);
  }

  ghost function Content(i: Input): Closure
    requires Compiles(i)
  {
    SoundStaysInside(i);
    NodesAreIndexed(i);
    Closure(i.context, SemanticProjection(i.byId[i.root]),
            Leaving(SortBy(RelationLeq, i.relations), Least(i)),
            Project(i.byId, Listing(Least(i))))
  }

  lemma NodesAreIndexed(i: Input)
    requires Compiles(i)
    ensures forall id :: id in Listing(Least(i)) ==> id in i.byId
  {
    SoundStaysInside(i);
    forall id | id in Listing(Least(i)) ensures id in i.byId {
      ListingMembers(Least(i), id);
    }
  }

  // ---- the algorithm ----

  /** The `outgoing` map lists exactly the relations of the input, by their origin. */
  ghost predicate Indexes(outgoing: map<string, seq<Relation>>, relations: seq<Relation>) {
    && (forall r :: r in relations ==> r.from in outgoing && r in outgoing[r.from])
    && (forall id, r :: id in outgoing && r in outgoing[id] ==> r in relations && r.from == id)
  }

  method IndexByOrigin(relations: seq<Relation>) returns (outgoing: map<string, seq<Relation>>)
    ensures Indexes(outgoing, relations)
  {
    outgoing := map[];
    var k := 0;
    while k < |relations|
      invariant 0 <= k <= |relations|
      invariant Indexes(outgoing, relations[..k])
    {
      var r := relations[k];
      var current := if r.from in outgoing then outgoing[r.from] else [];
      assert relations[..k + 1] == relations[..k] + [r];
      outgoing := outgoing[r.from := current + [r]];
      k := k + 1;
    }
    assert relations[..k] == relations;
  }

  /** Marked, and every relation from a newly marked id is followed. */
  ghost predicate Followed(relations: seq<Relation>, before: set<string>, now: set<string>) {
    before <= now && forall r :: r in relations && r.from in now && r.from !in before ==> r.to in now
  }

  /** The recursive `visit`, inside any set `bound` closed under the relations. */
  method Visit(relations: seq<Relation>, outgoing: map<string, seq<Relation>>, id: string, reachable: set<string>,
               ghost bound: set<string>) returns (now: set<string>)
    requires Indexes(outgoing, relations)
    requires reachable <= bound && id in bound && forall r :: r in relations && r.from in bound ==> r.to in bound
    ensures Followed(relations, reachable, now) && id in now && now <= bound
    decreases |bound - reachable|
  {
    if id in reachable {
      return reachable;
    }
    now := reachable + {id};
    if id !in outgoing {
      return;
    }
    var k := 0;
    while k < |outgoing[id]|
      invariant 0 <= k <= |outgoing[id]|
      invariant reachable + {id} <= now <= bound
      invariant Followed(relations, reachable + {id}, now)
      invariant forall n :: 0 <= n < k ==> outgoing[id][n].to in now
    {
      var r := outgoing[id][k];
      assert r in outgoing[id];
      Shrinks(bound, reachable, now, id);
      var next := Visit(relations, outgoing, r.to, now, bound);
      now := next;
      k := k + 1;
    }
  }

  lemma Shrinks(u: set<string>, reachable: set<string>, now: set<string>, id: string)
    requires id in u && id !in reachable && reachable + {id} <= now
    ensures |u - now| < |u - reachable|
  {
    assert u - now <= (u - reachable) - {id};
    SubsetSize(u - now, (u - reachable) - {id});
  }

  lemma SubsetSize<T>(a: set<T>, b: set<T>)
    requires a <= b
    ensures |a| <= |b|
  {
    assert b == a + (b - a);
  }

  ghost predicate EdgesFollowed(relations: seq<Relation>, s: set<string>) {
    forall r :: r in relations && r.from in s ==> r.to in s
  }

  ghost predicate HoldsMembers(i: Input, frame: string, s: set<string>) {
    forall id :: MemberOf(i, id, frame) ==> id in s
  }

  /** Visits every in-Context member of one frame. */
  method VisitMembers(i: Input, relations: seq<Relation>, outgoing: map<string, seq<Relation>>, frame: string,
                      reachable: set<string>, ghost bound: set<string>) returns (now: set<string>)
    requires Indexes(outgoing, relations) && EdgesFollowed(relations, reachable)
    requires reachable <= bound && EdgesFollowed(relations, bound) && HoldsMembers(i, frame, bound)
    ensures reachable <= now <= bound && EdgesFollowed(relations, now) && HoldsMembers(i, frame, now)
  {
    now := reachable;
    var rest := i.byId.Keys;
    while rest != {}
      invariant rest <= i.byId.Keys
      invariant reachable <= now <= bound && EdgesFollowed(relations, now)
      invariant forall id :: MemberOf(i, id, frame) && id !in rest ==> id in now
      decreases |rest|
    {
      var id :| id in rest;
      rest := rest - {id};
      if i.byId[id].frameId == Some(frame) && InContext(i, id) {
        assert MemberOf(i, id, frame);
        var next := Visit(relations, outgoing, id, now, bound);
        now := next;
      }
    }
  }

  /** The scheduled whole-frame relations, by position: each once, each leaving the reachable set. */
  ghost predicate Scheduled(relations: seq<Relation>, reachable: set<string>, worklist: seq<nat>) {
    && (forall n :: 0 <= n < |worklist| ==>
          worklist[n] < |relations| && relations[worklist[n]].kind == WholeFrame
          && relations[worklist[n]].from in reachable)
    && (forall n, m :: 0 <= n < m < |worklist| ==> worklist[n] != worklist[m])
  }

  ghost predicate AllScheduled(relations: seq<Relation>, reachable: set<string>, worklist: seq<nat>, upTo: int) {
    forall k :: 0 <= k < upTo && k < |relations| && relations[k].kind == WholeFrame && relations[k].from in reachable ==>
      k in worklist
  }

  method EnqueueReachableWholeFrames(relations: seq<Relation>, reachable: set<string>, worklist: seq<nat>)
    returns (queue: seq<nat>)
    requires Scheduled(relations, reachable, worklist)
    ensures Scheduled(relations, reachable, queue) && worklist <= queue
    ensures AllScheduled(relations, reachable, queue, |relations|)
  {
    queue := worklist;
    var k := 0;
    while k < |relations|
      invariant 0 <= k <= |relations|
      invariant Scheduled(relations, reachable, queue) && worklist <= queue
      invariant AllScheduled(relations, reachable, queue, k)
    {
      if relations[k].kind == WholeFrame && relations[k].from in reachable && k !in queue {
        queue := queue + [k];
      }
      k := k + 1;
    }
  }

  function Below(n: nat): (r: set<nat>)
    ensures |r| == n && forall k :: k in r <==> 0 <= k < n
  {
    if n == 0 then {} else Below(n - 1) + {n - 1}
  }

  function Positions(s: seq<nat>): set<nat> {
    set k | k in s
  }

  lemma {:induction false} DistinctSize(s: seq<nat>)
    requires forall a, b :: 0 <= a < b < |s| ==> s[a] != s[b]
    ensures |Positions(s)| == |s|
  {
    if s != [] {
      var n := |s| - 1;
      DistinctSize(s[..n]);
      assert s == s[..n] + [s[n]];
      assert Positions(s) == Positions(s[..n]) + {s[n]};
      assert s[n] !in s[..n];
    }
  }

  /** Distinct positions below `n` are at most `n`: the worklist cannot grow for ever. */
  lemma DistinctAreFew(s: seq<nat>, n: nat)
    requires forall a :: 0 <= a < |s| ==> s[a] < n
    requires forall a, b :: 0 <= a < b < |s| ==> s[a] != s[b]
    ensures |s| <= n
  {
    DistinctSize(s);
    SubsetSize(Positions(s), Below(n));
  }

  /** What the worklist has dealt with: sound relations whose frame content is reachable. */
  ghost predicate Processed(i: Input, relations: seq<Relation>, worklist: seq<nat>, upTo: int, reachable: set<string>) {
    forall n :: 0 <= n < upTo && n < |worklist| && worklist[n] < |relations| ==>
      UsableRelation(i, relations[worklist[n]]) && HoldsMembers(i, relations[worklist[n]].to, reachable)
  }

  ghost predicate WholeFramesUsable(i: Input, s: set<string>) {
    forall r :: r in i.relations && r.kind == WholeFrame && r.from in s ==> UsableRelation(i, r)
  }

  /** Some relation leaving the least closure has this fault. */
  ghost predicate Blames(i: Input, e: ClosureError) {
    exists r :: r in i.relations && r.from in Least(i) && Faulty(i, r, e)
  }

  lemma SameRelations(i: Input, relations: seq<Relation>)
    requires relations == SortBy(RelationLeq, i.relations)
    ensures forall r :: r in relations <==> r in i.relations
  {
    RelationsAreOrdered();
    forall r ensures r in relations <==> r in i.relations {
      SortKeepsMembers(RelationLeq, i.relations, r);
    }
  }

  lemma ExhaustedWorklistIsLeast(i: Input, relations: seq<Relation>, worklist: seq<nat>, reachable: set<string>)
    requires forall r :: r in relations <==> r in i.relations
    requires i.root in reachable && reachable <= Least(i) && EdgesFollowed(relations, reachable)
    requires Scheduled(relations, reachable, worklist) && AllScheduled(relations, reachable, worklist, |relations|)
    requires Processed(i, relations, worklist, |worklist|, reachable)
    ensures reachable == Least(i) && WholeFramesUsable(i, reachable)
  {
    forall r | r in i.relations && r.kind == WholeFrame && r.from in reachable
      ensures UsableRelation(i, r) && HoldsMembers(i, r.to, reachable)
    {
      var k :| 0 <= k < |relations| && relations[k] == r;
      assert k in worklist;
      var n :| 0 <= n < |worklist| && worklist[n] == k;
      assert UsableRelation(i, relations[worklist[n]]) && HoldsMembers(i, relations[worklist[n]].to, reachable);
    }
    forall r, id | r in i.relations && r.kind == WholeFrame && r.from in reachable && MemberOf(i, id, r.to)
      ensures id in reachable
    {
      assert HoldsMembers(i, r.to, reachable);
    }
    assert Closed(i, reachable);
    LeastIsLeast(i);
  }

  /** What holds of the search before the `n`-th entry of its worklist is taken. */
  ghost predicate Searching(i: Input, relations: seq<Relation>, reachable: set<string>, worklist: seq<nat>, n: nat) {
    && n <= |worklist| <= |relations|
    && i.root in reachable && reachable <= Least(i) && EdgesFollowed(relations, reachable)
    && Scheduled(relations, reachable, worklist) && AllScheduled(relations, reachable, worklist, |relations|)
    && Processed(i, relations, worklist, n, reachable)
  }

  /** Takes one whole-frame relation: checks it, visits the members of its frame, schedules what that reached. */
  method TakeWholeFrame(i: Input, relations: seq<Relation>, outgoing: map<string, seq<Relation>>,
                        reachable: set<string>, worklist: seq<nat>, n: nat)
    returns (r: Result<(set<string>, seq<nat>), ClosureError>)
    requires n < |worklist| && Searching(i, relations, reachable, worklist, n) && Indexes(outgoing, relations)
    requires forall rel :: rel in relations <==> rel in i.relations
    ensures r.Ok? ==> Searching(i, relations, r.value.0, r.value.1, n + 1)
    ensures r.Err? ==> Faulty(i, relations[worklist[n]], r.error)
  {
    LeastIsLeast(i);
    var relation := relations[worklist[n]];
    assert relation in relations;
    FaultsAgree(i, relation);
    if RelationError(i, relation).Some? {
      return Err(RelationError(i, relation).value);
    }
    if i.byId[relation.to].kind != Some("frame") {
      return Err(InvalidRelation);
    }
    assert HoldsMembers(i, relation.to, Least(i));
    var grown := VisitMembers(i, relations, outgoing, relation.to, reachable, Least(i));
    var queue := EnqueueReachableWholeFrames(relations, grown, worklist);
    DistinctAreFew(queue, |relations|);
    return Ok((grown, queue));
  }

  /** The DFS from the root and the growing worklist; refuses at the first unusable whole-frame relation. */
  method Reach(i: Input, relations: seq<Relation>) returns (r: Result<set<string>, ClosureError>)
    requires RootUsable(i) && relations == SortBy(RelationLeq, i.relations)
    ensures r.Ok? ==> r.value == Least(i) && WholeFramesUsable(i, Least(i))
    ensures r.Err? ==> Blames(i, r.error)
  {
    SameRelations(i, relations);
    LeastIsLeast(i);
    var outgoing := IndexByOrigin(relations);
    var reachable := Visit(relations, outgoing, i.root, {}, Least(i));
    var worklist := EnqueueReachableWholeFrames(relations, reachable, []);
    DistinctAreFew(worklist, |relations|);
    var n := 0;
    while n < |worklist|
      invariant Searching(i, relations, reachable, worklist, n)
      decreases |relations| - n
    {
      var taken := TakeWholeFrame(i, relations, outgoing, reachable, worklist, n);
      if taken.Err? {
        assert relations[worklist[n]] in relations;
        return Err(taken.error);
      }
      reachable, worklist := taken.value.0, taken.value.1;
      n := n + 1;
    }
    ExhaustedWorklistIsLeast(i, relations, worklist, reachable);
    return Ok(reachable);
  }

  /** The last pass: every relation that leaves the reached set, in order. */
  method ValidateReachable(i: Input, relations: seq<Relation>, reachable: set<string>) returns (bad: Option<ClosureError>)
    requires forall r :: r in relations && r.kind == WholeFrame && r.from in reachable ==> UsableRelation(i, r)
    ensures bad.None? <==> forall r :: r in relations && r.from in reachable ==> UsableRelation(i, r)
    ensures bad.Some? ==> exists r :: r in relations && r.from in reachable && Faulty(i, r, bad.value)
  {
    var k := 0;
    while k < |relations|
      invariant 0 <= k <= |relations|
      invariant forall n :: 0 <= n < k && relations[n].from in reachable ==> UsableRelation(i, relations[n])
    {
      FaultsAgree(i, relations[k]);
      assert relations[k] in relations;
      if relations[k].from in reachable && RelationError(i, relations[k]).Some? {
        return RelationError(i, relations[k]);
      }
      k := k + 1;
    }
    return None;
  }

  /**
   * Succeeds exactly when the instruction is in the Context and every relation leaving the
   * least closure is usable; the content is then that closure and nothing else.
   */
  method CompileInstructionClosure(i: Input) returns (r: Result<Closure, ClosureError>)
    ensures r.Ok? <==> Compiles(i)
    ensures r.Ok? ==> r.value == Content(i)
    ensures r.Err? ==> if i.root !in i.byId then r.error == InstructionMissing
                       else if !Belongs(i, i.root) then r.error == InstructionOutsideContext
                       else Blames(i, r.error)
  {
    if i.root !in i.byId {
      return Err(InstructionMissing);
    }
    if !InContext(i, i.root) {
      return Err(InstructionOutsideContext);
    }
    var relations := SortBy(RelationLeq, i.relations);
    var reached := Reach(i, relations);
    if reached.Err? {
      return Err(reached.error);
    }
    var reachable := reached.value;
    SameRelations(i, relations);
    var bad := ValidateReachable(i, relations, reachable);
    if bad.Some? {
      return Err(bad.value);
    }
    NodesAreIndexed(i);
    var ids := ListSorted(reachable);
    return Ok(Closure(i.context, SemanticProjection(i.byId[i.root]), Leaving(relations, reachable), Project(i.byId, ids)));
  }

  // ---- what the content depends on ----

  ghost predicate WellIndexed(i: Input) {
    forall id :: id in i.byId ==> i.byId[id].id == id
  }

  /** The edge list is the sorted list of the relations that leave the closure. */
  lemma EdgesAreSortedLeaving(i: Input, s: set<string>)
    ensures Leaving(SortBy(RelationLeq, i.relations), s) == SortBy(RelationLeq, Leaving(i.relations, s))
  {
    RelationsAreOrdered();
    SelectionIsSorted(RelationLeq, StartsIn(s), i.relations);
  }

  ghost predicate SameNodes(i: Input, j: Input, s: set<string>) {
    forall id :: id in s ==> id in i.byId && id in j.byId && SameMeaning(i.byId[id], j.byId[id])
  }

  /** The same relations start in the set, each as often. */
  ghost predicate SameEdges(i: Input, j: Input, s: set<string>) {
    forall r: Relation :: r.from in s ==> multiset(i.relations)[r] == multiset(j.relations)[r]
  }

  lemma LeavingAgrees(i: Input, j: Input, s: set<string>)
    ensures SameEdges(i, j, s) <==> multiset(Leaving(i.relations, s)) == multiset(Leaving(j.relations, s))
  {
    forall r: Relation
      ensures multiset(Leaving(i.relations, s))[r] == if r.from in s then multiset(i.relations)[r] else 0
      ensures multiset(Leaving(j.relations, s))[r] == if r.from in s then multiset(j.relations)[r] else 0
    {
      FilterCounts(StartsIn(s), i.relations, r);
      FilterCounts(StartsIn(s), j.relations, r);
    }
  }

  lemma EqualNodesEqualSets(i: Input, j: Input)
    requires Compiles(i) && Compiles(j) && WellIndexed(i) && WellIndexed(j)
    requires Content(i).nodes == Content(j).nodes
    ensures Least(i) == Least(j) && SameNodes(i, j, Least(i))
  {
    NodesAreIndexed(i);
    NodesAreIndexed(j);
    var li := Listing(Least(i));
    SameProjectionsSameIds(i.byId, li, j.byId, Listing(Least(j)));
    ListingIsInjective(Least(i), Least(j));
    forall id | id in Least(i)
      ensures id in i.byId && id in j.byId && SameMeaning(i.byId[id], j.byId[id])
    {
      ListingMembers(Least(i), id);
      var k :| 0 <= k < |li| && li[k] == id;
      assert Project(i.byId, li)[k] == Project(j.byId, li)[k];
      ProjectionsAgree(i.byId[id], j.byId[id]);
    }
  }

  lemma ProjectedAlike(a: map<string, Element>, b: map<string, Element>, ids: seq<string>)
    requires forall id :: id in ids ==>
               id in a && id in b && SameMeaning(a[id], b[id])
    ensures Project(a, ids) == Project(b, ids)
  {
    forall k | 0 <= k < |ids| ensures SemanticProjection(a[ids[k]]) == SemanticProjection(b[ids[k]]) {
      assert ids[k] in ids;
      ProjectionsAgree(a[ids[k]], b[ids[k]]);
    }
  }

  lemma EqualSetsEqualNodes(i: Input, j: Input)
    requires Compiles(i) && Compiles(j) && Least(i) == Least(j) && SameNodes(i, j, Least(i))
    ensures Content(i).nodes == Content(j).nodes
  {
    ListingHolds(Least(i));
    ProjectedAlike(i.byId, j.byId, Listing(Least(i)));
  }

  lemma EqualEdges(i: Input, j: Input)
    requires Compiles(i) && Compiles(j) && Least(i) == Least(j)
    ensures Content(i).edges == Content(j).edges <==> SameEdges(i, j, Least(i))
  {
    EdgesAreSortedLeaving(i, Least(i));
    EdgesAreSortedLeaving(j, Least(j));
    LeavingAgrees(i, j, Least(i));
    RelationsAreOrdered();
    SortForgetsOrder(RelationLeq, Leaving(i.relations, Least(i)), Leaving(j.relations, Least(j)));
  }

  /** Same content: same Context and instruction, same closure set, same meanings, same edges. */
  lemma ContentEqualsExactly(i: Input, j: Input)
    requires Compiles(i) && Compiles(j) && WellIndexed(i) && WellIndexed(j)
    ensures Content(i) == Content(j) <==>
              i.context == j.context && i.root == j.root && Least(i) == Least(j)
              && SameNodes(i, j, Least(i)) && SameEdges(i, j, Least(i))
  {
    if Content(i) == Content(j) {
      EqualNodesEqualSets(i, j);
      EqualEdges(i, j);
    } else if i.root == j.root && Least(i) == Least(j) && SameNodes(i, j, Least(i)) && SameEdges(i, j, Least(i)) {
      EqualSetsEqualNodes(i, j);
      EqualEdges(i, j);
      LeastIsLeast(i);
      ProjectionsAgree(i.byId[i.root], j.byId[i.root]);
    }
  }

  lemma SameProjectionsSameIds(a: map<string, Element>, s: seq<string>, b: map<string, Element>, t: seq<string>)
    requires forall id :: id in a ==> a[id].id == id
    requires forall id :: id in b ==> b[id].id == id
    requires (forall id :: id in s ==> id in a) && (forall id :: id in t ==> id in b)
    requires Project(a, s) == Project(b, t)
    ensures s == t
  {
    assert |s| == |Project(a, s)| == |t|;
    forall k | 0 <= k < |s| ensures s[k] == t[k] {
      assert Project(a, s)[k] == Project(b, t)[k];
      assert a[s[k]].id == s[k] && b[t[k]].id == t[k];
    }
  }

  /** Neither the order of the relations nor anything else about how they are listed matters. */
  lemma ContentForgetsOrder(i: Input, j: Input)
    requires j == i.(relations := j.relations) && multiset(i.relations) == multiset(j.relations)
    ensures Least(i) == Least(j) && (Compiles(i) <==> Compiles(j))
    ensures Compiles(i) ==> Content(i) == Content(j)
  {
    forall r ensures r in i.relations <==> r in j.relations {
      assert r in multiset(i.relations) <==> r in multiset(j.relations);
    }
    assert Universe(i) == Universe(j);
    forall s ensures Closed(i, s) <==> Closed(j, s) {
    }
    RelationsAreOrdered();
    SortForgetsOrder(RelationLeq, i.relations, j.relations);
  }

  /**
   * An edit that leaves the closure alone: its nodes keep their meaning and their
   * Context, the relations leaving it are the same, and its whole frames hold the same members.
   */
  ghost predicate AgreesOnClosure(i: Input, j: Input) {
    && i.context == j.context && i.root == j.root
    && SameNodes(i, j, Least(i))
    && (forall id :: id in Least(i) ==> Belongs(j, id))
    && SameEdges(i, j, Least(i))
    && (forall r, id :: r in i.relations && r.kind == WholeFrame && r.from in Least(i) ==>
          (MemberOf(i, id, r.to) <==> MemberOf(j, id, r.to)))
  }

  lemma SameLeavingRelations(i: Input, j: Input, s: set<string>, r: Relation)
    requires SameEdges(i, j, s) && r.from in s
    ensures r in i.relations <==> r in j.relations
  {
    assert r in multiset(i.relations) <==> r in multiset(j.relations);
  }

  lemma AgreementKeepsLeast(i: Input, j: Input)
    requires Compiles(i) && AgreesOnClosure(i, j)
    ensures Least(j) == Least(i)
  {
    LeastIsLeast(i);
    LeastIsLeast(j);
    var l := Least(i);
    forall r: Relation | r.from in l ensures r in i.relations <==> r in j.relations {
      SameLeavingRelations(i, j, l, r);
    }
    assert Closed(j, l);
    var both := l * Least(j);
    assert EdgeClosed(i, both);
    assert FrameClosed(i, both);
    assert Closed(i, both);
  }

  /** Such an edit keeps the content, whatever else it did to the board. */
  lemma AgreementKeepsContent(i: Input, j: Input)
    requires Compiles(i) && AgreesOnClosure(i, j) && WellIndexed(i) && WellIndexed(j)
    ensures Compiles(j) && Content(j) == Content(i)
  {
    AgreementKeepsLeast(i, j);
    LeastIsLeast(i);
    SoundStaysInside(i);
    var l := Least(i);
    forall r | r in j.relations && r.from in l ensures UsableRelation(j, r) {
      SameLeavingRelations(i, j, l, r);
      assert UsableRelation(i, r) && r.to in l;
      assert KindOf(i.byId[r.to]) == KindOf(j.byId[r.to]);
    }
    ContentEqualsExactly(i, j);
  }
}
