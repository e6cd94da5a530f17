/**
 * Immutable board revisions keyed by their content: any number of mounts materialize at once,
 * a unique key elects one row, and the losers reuse it.
 */
module BoardRevisions {
  import opened Wrappers
  import opened Scene
  import opened Ordering
  import opened Sequences
  import opened CanonicalJson
  import opened ContentHashes
  import Frames = ContextFrames

  type RevisionId(==, !new)

  /** Everything else a revision captures: app state, files, assets and semantic relations. */
  type Rest(==, !new)

  type CallId = nat

  datatype Content = Content(elements: seq<Element>, contexts: seq<Context>, rest: Rest)

  predicate ContextLeq(a: Context, b: Context) {
    LeqString(a.id, b.id)
  }

  /** Every Context with the name its frame bears. */
  function WithFrameName(byId: map<string, Element>): Context -> Context {
    (c: Context) => c.(frameName := if c.frame in byId then byId[c.frame].name else None)
  }

  function Named(byId: map<string, Element>, contexts: seq<Context>): seq<Context> {
    Map(WithFrameName(byId), contexts)
  }

  // ---- what a captured content holds, by its fields ----

  /** The live objects of the scene and nothing else, in their order. */
  ghost predicate HoldsLive(entries: seq<Entry>, elements: seq<Element>) {
    Map((e: Element) => Entry(e), elements) == Filter((x: Entry) => x.Entry? && !x.element.deleted, entries)
  }

  /** The Context as stored, under the name of its frame in the same content. */
  ghost predicate NamedIn(elements: seq<Element>, c: Context, stored: Context) {
    && stored.id == c.id && stored.frame == c.frame && stored.pinned == c.pinned
    && exists k :: LastWithId(elements, k, c.frame) && stored.frameName == elements[k].name
  }

  ghost predicate Captured(entries: seq<Entry>, contexts: seq<Context>, rest: Rest, content: Content) {
    && content.rest == rest && HoldsLive(entries, content.elements)
    && |content.contexts| == |contexts|
    && (forall i, j :: 0 <= i < j < |contexts| ==> LeqString(content.contexts[i].id, content.contexts[j].id))
    && forall c :: c in contexts ==> exists stored :: stored in content.contexts && NamedIn(content.elements, c, stored)
  }

  lemma {:induction false} LiveIsHeld(entries: seq<Entry>)
    ensures HoldsLive(entries, LiveElements(entries))
  {
    if entries != [] {
      LiveIsHeld(entries[1..]);
      var wrap := (e: Element) => Entry(e);
      if entries[0].Entry? {
        MapSplits(wrap, [entries[0].element], LiveElements(entries[1..]));
        assert Map(wrap, [entries[0].element]) == [entries[0]];
      }
    }
  }

  lemma NamedIsNamedIn(elements: seq<Element>, c: Context)
    requires c.frame in ById(elements)
    ensures NamedIn(elements, c, WithFrameName(ById(elements))(c))
  {
    var k := ByIdKeepsTheLast(elements, c.frame);
  }

  lemma ContentCaptures(entries: seq<Entry>, contexts: seq<Context>, rest: Rest)
    requires Frames.FramesValid(ById(LiveElements(entries)), contexts)
    ensures Captured(entries, contexts, rest, ContentOf(entries, contexts, rest))
  {
    var live := LiveElements(entries);
    var named := Named(ById(live), contexts);
    LiveIsHeld(entries);
    ContextsAreOrdered();
    SortBySorts(ContextLeq, named);
    assert |multiset(SortBy(ContextLeq, named))| == |multiset(named)|;
    forall c | c in contexts ensures exists stored :: stored in SortBy(ContextLeq, named) && NamedIn(live, c, stored) {
      var i :| 0 <= i < |contexts| && contexts[i] == c;
      assert Frames.Refuse(ById(live), contexts, i).None?;
      NamedIsNamedIn(live, c);
      SortHolds(ContextLeq, named, named[i]);
    }
  }

  /** The content of a board, or why its Context frames refuse to be captured. */
  method Capture(entries: seq<Entry>, contexts: seq<Context>, rest: Rest) returns (r: Result<Content, Frames.FrameError>)
    requires Frames.UniqueContexts(contexts)
    ensures r.Ok? <==> Frames.FramesValid(ById(LiveElements(entries)), contexts)
    ensures r.Ok? ==> r.value == ContentOf(entries, contexts, rest) && Captured(entries, contexts, rest, r.value)
  {
    var live := LiveElements(entries);
    var frames := Frames.ValidateContextFrames(ById(live), contexts);
    if frames.Err? {
      return Err(frames.error);
    }
    ContentCaptures(entries, contexts, rest);
    return Ok(Content(live, SortBy(ContextLeq, Named(ById(live), contexts)), rest));
  }

  function ContentOf(entries: seq<Entry>, contexts: seq<Context>, rest: Rest): Content {
    var live := LiveElements(entries);
    Content(live, SortBy(ContextLeq, Named(ById(live), contexts)), rest)
  }

  lemma ContextsAreOrdered()
    ensures TotalPreorder(ContextLeq)
  {
    StringsAreOrdered();
    forall a, b ensures ContextLeq(a, b) || ContextLeq(b, a) {
      LeqStringTotal(a.id, b.id);
    }
    forall a, b, c | ContextLeq(a, b) && ContextLeq(b, c) ensures ContextLeq(a, c) {
      LeqStringTransitive(a.id, b.id, c.id);
    }
  }

  lemma NamedAreSeparated(byId: map<string, Element>, contexts: seq<Context>)
    requires Frames.UniqueContexts(contexts)
    ensures Separates(ContextLeq, Named(byId, contexts))
  {
    var named := Named(byId, contexts);
    forall a, b | a in named && b in named && ContextLeq(a, b) && ContextLeq(b, a) ensures a == b {
      LeqStringAntisymmetric(a.id, b.id);
      var i :| 0 <= i < |named| && named[i] == a;
      var k :| 0 <= k < |named| && named[k] == b;
      assert contexts[i].id == contexts[k].id;
    }
  }

  /** The order in which the database returns the Contexts is no part of the content. */
  lemma ContentForgetsContextOrder(entries: seq<Entry>, contexts: seq<Context>, shuffled: seq<Context>, rest: Rest)
    requires Frames.UniqueContexts(contexts) && multiset(contexts) == multiset(shuffled)
    ensures ContentOf(entries, contexts, rest) == ContentOf(entries, shuffled, rest)
  {
    var byId := ById(LiveElements(entries));
    ContextsAreOrdered();
    NamedAreSeparated(byId, contexts);
    MapForgetsOrder(WithFrameName(byId), contexts, shuffled);
    SortForgetsOrder(ContextLeq, Named(byId, contexts), Named(byId, shuffled));
  }

  // ---- a captured revision keeps its frames valid ----

  ghost predicate FramesApart(byId: map<string, Element>, contexts: seq<Context>) {
    && (forall c :: c in contexts ==> c.frame in byId && Frames.IsBoundedFrame(byId[c.frame]))
    && forall c, d :: c in contexts && d in contexts && c.id != d.id ==> c.frame != d.frame && !Frames.Clash(byId, c, d)
  }

  lemma ValidAreApart(byId: map<string, Element>, contexts: seq<Context>)
    requires Frames.FramesValid(byId, contexts)
    ensures FramesApart(byId, contexts)
  {
    forall c | c in contexts ensures c.frame in byId && Frames.IsBoundedFrame(byId[c.frame]) {
      var i :| 0 <= i < |contexts| && contexts[i] == c;
      assert Frames.Refuse(byId, contexts, i).None?;
    }
    forall c, d | c in contexts && d in contexts && c.id != d.id
      ensures c.frame != d.frame && !Frames.Clash(byId, c, d)
    {
      var i :| 0 <= i < |contexts| && contexts[i] == c;
      var k :| 0 <= k < |contexts| && contexts[k] == d;
      assert Frames.Refuse(byId, contexts, i).None? && Frames.Refuse(byId, contexts, k).None?;
      assert i < k ==> !Frames.Clash(byId, contexts[i], contexts[k]);
      assert k < i ==> !Frames.Clash(byId, contexts[k], contexts[i]);
    }
  }

  lemma ApartAreValid(byId: map<string, Element>, contexts: seq<Context>)
    requires Frames.UniqueContexts(contexts) && FramesApart(byId, contexts)
    ensures Frames.FramesValid(byId, contexts)
  {
    forall i | 0 <= i < |contexts| ensures Frames.Refuse(byId, contexts, i).None? {
      assert contexts[i] in contexts;
      forall k | 0 <= k < i ensures contexts[k].frame != contexts[i].frame {
        assert contexts[k] in contexts;
      }
    }
  }

  lemma {:induction false} UniqueOnce(contexts: seq<Context>, c: Context)
    requires Frames.UniqueContexts(contexts)
    ensures multiset(contexts)[c] <= 1
  {
    if contexts != [] {
      UniqueOnce(contexts[1..], c);
      assert contexts == [contexts[0]] + contexts[1..];
      assert contexts[0] !in contexts[1..];
    }
  }

  lemma UniqueHoweverOrdered(contexts: seq<Context>, shuffled: seq<Context>)
    requires Frames.UniqueContexts(contexts) && multiset(contexts) == multiset(shuffled)
    ensures Frames.UniqueContexts(shuffled)
  {
    forall i, k | 0 <= i < k < |shuffled| ensures shuffled[i].id != shuffled[k].id {
      assert shuffled[i] in multiset(contexts) && shuffled[k] in multiset(contexts);
      assert shuffled == shuffled[..k] + ([shuffled[k]] + shuffled[k + 1..]);
      assert shuffled[i] in shuffled[..k];
      UniqueOnce(contexts, shuffled[i]);
      assert shuffled[i] != shuffled[k];
      var a :| 0 <= a < |contexts| && contexts[a] == shuffled[i];
      var b :| 0 <= b < |contexts| && contexts[b] == shuffled[k];
    }
  }

  lemma NamedFrom(byId: map<string, Element>, contexts: seq<Context>, c: Context) returns (d: Context)
    requires c in Named(byId, contexts)
    ensures d in contexts && d.id == c.id && d.frame == c.frame
  {
    var i :| 0 <= i < |contexts| && Named(byId, contexts)[i] == c;
    d := contexts[i];
  }

  lemma NamedAreApart(byId: map<string, Element>, contexts: seq<Context>)
    requires FramesApart(byId, contexts)
    ensures FramesApart(byId, Named(byId, contexts))
  {
    var named := Named(byId, contexts);
    forall c | c in named ensures c.frame in byId && Frames.IsBoundedFrame(byId[c.frame]) {
      var d := NamedFrom(byId, contexts, c);
    }
    forall c, d | c in named && d in named && c.id != d.id ensures c.frame != d.frame && !Frames.Clash(byId, c, d) {
      var a := NamedFrom(byId, contexts, c);
      var b := NamedFrom(byId, contexts, d);
      assert !Frames.Clash(byId, a, b);
    }
  }

  /** So the tools of a mount may rely on the frames of the revision it reads. */
  lemma CapturedFramesAreValid(entries: seq<Entry>, contexts: seq<Context>, rest: Rest)
    requires Frames.UniqueContexts(contexts) && Frames.FramesValid(ById(LiveElements(entries)), contexts)
    ensures var content := ContentOf(entries, contexts, rest);
            Frames.FramesValid(ById(content.elements), content.contexts)
  {
    var byId := ById(LiveElements(entries));
    var named := Named(byId, contexts);
    var sorted := SortBy(ContextLeq, named);
    ValidAreApart(byId, contexts);
    NamedAreApart(byId, contexts);
    SortRearranges(ContextLeq, named);
    UniqueHoweverOrdered(named, sorted);
    forall c ensures c in sorted <==> c in named {
      SortHolds(ContextLeq, named, c);
    }
    ApartAreValid(byId, sorted);
  }

  // ---- materialization, step by step ----

  /** A call after its capture, with the JSON it hashes: still to insert, or settled on a revision. */
  datatype Call = Inserting(content: Json) | Settled(content: Json, revision: RevisionId)

  datatype World = World(rows: map<Hash, RevisionId>, calls: map<CallId, Call>, drawn: set<RevisionId>)

  datatype Action =
    | Find(call: CallId, content: Json)
    | Insert(call: CallId, id: RevisionId)

  function Initial(): World {
    World(map[], map[], {})
  }

  ghost predicate Enabled(w: World, a: Action) {
    match a
    case Find(k, content) => k !in w.calls && WellFormed(content)
    case Insert(k, id) => k in w.calls && w.calls[k].Inserting? && id !in w.drawn
  }

  /** An insert that meets the unique key reads the winner's row instead. */
  function Next(w: World, a: Action): World
    requires Enabled(w, a)
  {
    match a
    case Find(k, content) =>
      var key := HashOf(content);
      w.(calls := w.calls[k := if key in w.rows then Settled(content, w.rows[key]) else Inserting(content)])
    case Insert(k, id) =>
      var content := w.calls[k].content;
      var key := HashOf(content);
      if key in w.rows then w.(calls := w.calls[k := Settled(content, w.rows[key])])
      else World(w.rows[key := id], w.calls[k := Settled(content, id)], w.drawn + {id})
  }

  ghost predicate IsRun(ws: seq<World>, acts: seq<Action>) {
    |ws| == |acts| + 1 && ws[0] == Initial()
    && forall i :: 0 <= i < |acts| ==> Enabled(ws[i], acts[i]) && ws[i + 1] == Next(ws[i], acts[i])
  }

  ghost predicate Inv(w: World) {
    && (forall h :: h in w.rows ==> w.rows[h] in w.drawn)
    && (forall g, h :: g in w.rows && h in w.rows && w.rows[g] == w.rows[h] ==> g == h)
    && (forall k :: k in w.calls ==> WellFormed(w.calls[k].content))
    && forall k :: k in w.calls && w.calls[k].Settled? ==>
         HashOf(w.calls[k].content) in w.rows && w.rows[HashOf(w.calls[k].content)] == w.calls[k].revision
  }

  ghost predicate RowsKept(w: World, w': World) {
    forall h :: h in w.rows ==> h in w'.rows && w'.rows[h] == w.rows[h]
  }

  lemma NextKeeps(w: World, a: Action)
    requires Inv(w) && Enabled(w, a)
    ensures Inv(Next(w, a)) && RowsKept(w, Next(w, a))
  {
  }

  lemma {:induction false} RunKeeps(ws: seq<World>, acts: seq<Action>, i: nat)
    requires IsRun(ws, acts) && i < |ws|
    ensures Inv(ws[i])
  {
    if i > 0 {
      RunKeeps(ws, acts, i - 1);
      NextKeeps(ws[i - 1], acts[i - 1]);
    }
  }

  /** A stored revision is never replaced or reassigned. */
  lemma {:induction false} RevisionsAreImmutable(ws: seq<World>, acts: seq<Action>, i: nat, j: nat)
    requires IsRun(ws, acts) && i <= j < |ws|
    ensures RowsKept(ws[i], ws[j])
    decreases j - i
  {
    if i < j {
      RevisionsAreImmutable(ws, acts, i, j - 1);
      RunKeeps(ws, acts, j - 1);
      NextKeeps(ws[j - 1], acts[j - 1]);
    }
  }

  /**
   * However the calls interleave, two of them settle on one revision exactly if they captured
   * the same content, up to key order and undefined keys.
   */
  lemma OneRevisionPerContent(ws: seq<World>, acts: seq<Action>, i: nat, k: CallId, n: CallId)
    requires IsRun(ws, acts) && i < |ws| && k in ws[i].calls && n in ws[i].calls
    requires ws[i].calls[k].Settled? && ws[i].calls[n].Settled?
    ensures ws[i].calls[k].revision == ws[i].calls[n].revision <==> Same(ws[i].calls[k].content, ws[i].calls[n].content)
  {
    RunKeeps(ws, acts, i);
    HashesAgree(ws[i].calls[k].content, ws[i].calls[n].content);
  }
}
