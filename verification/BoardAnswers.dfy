/**
 * What every board tool answers, in terms of the stored board and the rows of the mount: the
 * promises are spelled by fields, and no tool is computed from them.
 */
module BoardAnswers {
  import opened Wrappers
  import opened Scene
  import opened Sequences
  import opened Ordering
  import opened ContextIndex
  import opened BoardTools
  import Frames = ContextFrames

  // ---- what is shown of one element ----

  ghost predicate VisibleId(m: Mount, id: string) {
    MayRead(m, id) && exists e :: e in m.elements && e.id == id
  }

  /** The element a reader finds under an id: the last one. */
  ghost predicate Found(m: Mount, id: string, e: Element) {
    MayRead(m, id) && exists k :: LastWithId(m.elements, k, id) && m.elements[k] == e
  }

  ghost predicate IdShown(m: Mount, named: Option<string>, shown: Option<string>) {
    shown == if named.Some? && VisibleId(m, named.value) then named else None
  }

  ghost predicate NestedShown(m: Mount, named: Option<Option<string>>, shown: Option<Option<string>>) {
    if named == None then shown == None else shown.Some? && IdShown(m, named.value, shown.value)
  }

  /** The visible ids of a list, sorted, each as often as it is named. */
  ghost predicate ListShown(m: Mount, named: seq<Option<string>>, shown: seq<string>) {
    Sorted(LeqString, shown)
    && forall id :: multiset(shown)[id] == if VisibleId(m, id) then multiset(named)[Some(id)] else 0
  }

  ghost predicate NumberShown(n: Option<real>, shown: real) {
    shown == if n.Some? then n.value else 0.0
  }

  ghost predicate BoxShown(e: Element, p: Projected) {
    && NumberShown(e.x, p.x) && NumberShown(e.y, p.y) && NumberShown(e.width, p.width) && NumberShown(e.height, p.height)
    && p.angle == if e.angle.Some? then e.angle.value else Rotation(1.0, 0.0)
  }

  ghost predicate LinksShown(m: Mount, e: Element, p: Projected) {
    && IdShown(m, e.frameId, p.frameId)
    && (if e.containerId == None then p.containerId == None
        else p.containerId.Some? && IdShown(m, e.containerId, p.containerId.value))
    && (if e.boundIds == None then p.boundIds == None
        else p.boundIds.Some? && ListShown(m, e.boundIds.value, p.boundIds.value))
    && NestedShown(m, e.startBinding, p.startId) && NestedShown(m, e.endBinding, p.endId)
  }

  ghost predicate AssetShown(m: Mount, e: Element, p: Projected) {
    p.asset == if e.widget.Some? && exists a :: a in m.assets && a.id == e.widget.value.assetId then e.widget else None
  }

  ghost predicate WordsShown(e: Element, p: Projected) {
    && p.id == e.id && p.text == e.text && p.link == e.link
    && p.kind == (if e.kind.Some? then e.kind.value else "unknown")
    && (p.isEdge <==> e.kind == Some("arrow") || e.kind == Some("line"))
  }

  /** The projection of a visible element: its own fields, its Context, and of what it links to only the visible. */
  ghost predicate ProjectedAs(m: Mount, e: Element, p: Projected) {
    && WordsShown(e, p) && BoxShown(e, p) && LinksShown(m, e, p) && AssetShown(m, e, p)
    && Home(m, e.id) == Some(p.contextId)
  }

  ghost predicate ShownUnder(m: Mount, id: string, p: Projected) {
    exists e :: Found(m, id, e) && ProjectedAs(m, e, p)
  }

  lemma VisibleExactly(m: Mount, id: string)
    ensures VisibleId(m, id) <==> id in AllowedIds(m)
  {
    AllowedExactly(m);
  }

  lemma IndexedIsFound(m: Mount, id: string)
    requires id in AllowedIds(m)
    ensures id in ById(m.elements) && Found(m, id, ById(m.elements)[id])
  {
    AllowedExactly(m);
    AllowedAreIndexed(m);
    var k := ByIdKeepsTheLast(m.elements, id);
  }

  lemma ReadableIdShown(m: Mount, id: Option<string>)
    ensures IdShown(m, id, ReadableId(AllowedIds(m), id))
  {
    if id.Some? {
      VisibleExactly(m, id.value);
    }
  }

  lemma {:induction false} ReadableIdsCount(allowed: set<string>, ids: seq<Option<string>>, id: string)
    ensures multiset(ReadableIds(allowed, ids))[id] == if id in allowed then multiset(ids)[Some(id)] else 0
  {
    if ids != [] {
      ReadableIdsCount(allowed, ids[1..], id);
      assert ids == [ids[0]] + ids[1..];
    }
  }

  lemma ReadableIdsShown(m: Mount, ids: seq<Option<string>>)
    ensures ListShown(m, ids, SortBy(LeqString, ReadableIds(AllowedIds(m), ids)))
  {
    var kept := ReadableIds(AllowedIds(m), ids);
    StringsAreOrdered();
    SortBySorts(LeqString, kept);
    forall id ensures multiset(kept)[id] == if VisibleId(m, id) then multiset(ids)[Some(id)] else 0 {
      ReadableIdsCount(AllowedIds(m), ids, id);
      VisibleExactly(m, id);
    }
  }

  lemma ProjectedLinks(m: Mount, e: Element)
    ensures LinksShown(m, e, Project(m, e))
  {
    ReadableIdShown(m, e.frameId);
    ReadableIdShown(m, e.containerId);
    if e.boundIds.Some? {
      ReadableIdsShown(m, e.boundIds.value);
    }
    if e.startBinding.Some? {
      ReadableIdShown(m, e.startBinding.value);
    }
    if e.endBinding.Some? {
      ReadableIdShown(m, e.endBinding.value);
    }
  }

  lemma ProjectedFields(m: Mount, e: Element)
    ensures WordsShown(e, Project(m, e)) && BoxShown(e, Project(m, e)) && AssetShown(m, e, Project(m, e))
  {
  }

  lemma ProjectsExactly(m: Mount, e: Element)
    requires MayRead(m, e.id)
    ensures ProjectedAs(m, e, Project(m, e))
  {
    ProjectedLinks(m, e);
    ProjectedFields(m, e);
  }

  lemma ProjectsFound(m: Mount, id: string)
    requires id in AllowedIds(m)
    ensures id in ById(m.elements) && Found(m, id, ById(m.elements)[id])
    ensures ProjectedAs(m, ById(m.elements)[id], Project(m, ById(m.elements)[id]))
  {
    IndexedIsFound(m, id);
    ProjectsExactly(m, ById(m.elements)[id]);
  }

  // ---- pages ----

  /** The visible elements with a property, in the order of the board. */
  ghost function Chosen(m: Mount, keep: Element -> bool): seq<Element> {
    Filter((e: Element) => MayRead(m, e.id) && keep(e), m.elements)
  }

  ghost function Fewer(n: nat, length: nat): nat {
    if length <= n then length else n
  }

  /** The first `n` of the elements, projected. */
  ghost predicate Shows(m: Mount, elements: seq<Element>, n: nat, ps: seq<Projected>) {
    |ps| == Fewer(n, |elements|) && forall k :: 0 <= k < |ps| ==> ProjectedAs(m, elements[k], ps[k])
  }

  lemma ChosenAllowed(m: Mount, keep: Element -> bool, spec: Element -> bool)
    requires forall e :: e in Allowed(m) ==> keep(e) == spec(e)
    ensures Filter(keep, Allowed(m)) == Chosen(m, spec)
    ensures forall e :: e in Chosen(m, spec) ==> MayRead(m, e.id)
  {
    var both := (e: Element) => MayRead(m, e.id) && spec(e);
    AllowedExactly(m);
    FilterAgrees(keep, spec, Allowed(m));
    FilterTwice(Visible(m), spec, both, m.elements);
  }

  lemma ProjectedPage(m: Mount, elements: seq<Element>, n: nat)
    requires forall e :: e in elements ==> MayRead(m, e.id)
    ensures Shows(m, elements, n, Map(Projector(m), Take(n, elements)))
  {
    var ps := Map(Projector(m), Take(n, elements));
    forall k | 0 <= k < |ps| ensures ProjectedAs(m, elements[k], ps[k]) {
      assert elements[k] in elements;
      ProjectsExactly(m, elements[k]);
    }
  }

  // ---- arguments ----

  ghost predicate Worded(arg: Arg) {
    arg.Text? && 1 <= |arg.text| <= 500
  }

  ghost predicate LimitIsWrong(arg: Arg) {
    arg != Absent && !(arg.Integer? && 1 <= arg.number)
  }

  ghost function Bound(arg: Arg, fallback: nat): nat {
    if arg.Integer? && 0 <= arg.number < 100 then arg.number else if arg.Integer? then 100 else fallback
  }

  lemma LimitExactly(arg: Arg, fallback: nat)
    requires fallback <= 100
    ensures Limit(arg, fallback) == if LimitIsWrong(arg) then Err(InvalidToolArguments) else Ok(Bound(arg, fallback))
  {
  }

  // ---- one promise per tool ----

  ghost predicate AnswersPage(m: Mount, keep: Element -> bool, limit: Arg, fallback: nat, r: Result<Answer, ToolError>) {
    if LimitIsWrong(limit) then r == Err(InvalidToolArguments)
    else r.Ok? && r.value.Elements? && Shows(m, Chosen(m, keep), Bound(limit, fallback), r.value.elements)
  }

  ghost function FrameElement(): Element -> bool {
    (e: Element) => e.kind == Some("frame")
  }

  /** The query stands somewhere in the text. */
  ghost predicate Holds(s: string, query: string) {
    exists i :: 0 <= i <= |s| && query <= s[i..]
  }

  ghost function Speaks(lower: string -> string, query: string): Element -> bool {
    (e: Element) => (e.text.Some? && Holds(lower(e.text.value), query)) || (e.name.Some? && Holds(lower(e.name.value), query))
  }

  ghost function SharesContext(m: Mount, frame: string): Element -> bool {
    (e: Element) => e.id != frame && Home(m, e.id) == Home(m, frame)
  }

  ghost predicate AnswersOverview(m: Mount, r: Result<Answer, ToolError>) {
    && r.Ok? && r.value.Summary?
    && r.value.contextCount == |Filter((c: Context) => c.id in m.readable, m.contexts)|
    && r.value.elementCount == |Filter(Visible(m), m.elements)|
    && forall kind :: (if kind in r.value.countsByType then r.value.countsByType[kind] else 0)
                      == |Chosen(m, OfKind(kind))| && (kind in r.value.countsByType <==> Chosen(m, OfKind(kind)) != [])
  }

  ghost function OfKind(kind: string): Element -> bool {
    (e: Element) => kind == if e.kind.Some? then e.kind.value else "unknown"
  }

  ghost predicate DescribedAs(m: Mount, c: Context, s: ContextSummary) {
    && s.id == c.id && s.frame == c.frame && s.name == c.frameName && s.pinned == c.pinned
    && forall k :: LastWithId(m.elements, k, c.frame) ==> s.bounds == Frames.FrameBounds(m.elements[k])
  }

  ghost predicate AnswersContexts(m: Mount, r: Result<Answer, ToolError>) {
    var own := Filter((c: Context) => c.id in m.readable, m.contexts);
    && r.Ok? && r.value.Contexts? && |r.value.contexts| == |own|
    && forall k :: 0 <= k < |own| ==> DescribedAs(m, own[k], r.value.contexts[k])
  }

  ghost predicate AnswersFrame(m: Mount, id: Arg, limit: Arg, r: Result<Answer, ToolError>) {
    if !Worded(id) then r == Err(InvalidToolArguments)
    else if !VisibleId(m, id.text) then r == Err(FrameNotReadable)
    else exists e :: Found(m, id.text, e) && OpensFrame(m, e, limit, r)
  }

  ghost predicate OpensFrame(m: Mount, e: Element, limit: Arg, r: Result<Answer, ToolError>) {
    if e.kind != Some("frame") then r == Err(FrameNotReadable)
    else if LimitIsWrong(limit) then r == Err(InvalidToolArguments)
    else r.Ok? && r.value.Frame? && ProjectedAs(m, e, r.value.frame)
         && Shows(m, Chosen(m, SharesContext(m, e.id)), Bound(limit, 100), r.value.members)
  }

  ghost predicate AnswersElements(m: Mount, ids: Arg, r: Result<Answer, ToolError>) {
    if !ids.Items? || !(1 <= |ids.items| <= 100) then r == Err(InvalidToolArguments)
    else if exists id :: id in ids.items && !VisibleId(m, id) then r == Err(ElementNotReadable)
    else r.Ok? && r.value.Elements? && ShownInOrder(m, ids.items, r.value.elements)
  }

  ghost predicate ShownInOrder(m: Mount, ids: seq<string>, ps: seq<Projected>) {
    |ps| == |ids| && forall k :: 0 <= k < |ids| ==> ShownUnder(m, ids[k], ps[k])
  }

  ghost predicate AnswersSearch(m: Mount, lower: string -> string, query: Arg, limit: Arg, r: Result<Answer, ToolError>) {
    if !Worded(query) then r == Err(InvalidToolArguments)
    else AnswersPage(m, Speaks(lower, lower(query.text)), limit, 20, r)
  }

  /** The element names it, or it names the element. */
  ghost predicate Linked(m: Mount, e: Element, id: string) {
    || e.containerId == Some(id) || e.frameId == Some(id) || (e.boundIds.Some? && Some(id) in e.boundIds.value)
    || LinksTo(m, id, e.id)
  }

  ghost predicate LinksTo(m: Mount, from: string, to: string) {
    exists x :: x in m.elements && x.id == from
      && (x.startBinding == Some(Some(to)) || x.endBinding == Some(Some(to)) || x.containerId == Some(to))
  }

  /** The visible linked ids, each once, sorted. */
  ghost predicate ListsLinked(m: Mount, e: Element, ids: seq<string>) {
    Sorted(LeqString, ids) && forall id :: multiset(ids)[id] == if VisibleId(m, id) && Linked(m, e, id) then 1 else 0
  }

  ghost predicate AnswersNeighbors(m: Mount, id: Arg, limit: Arg, r: Result<Answer, ToolError>) {
    if !Worded(id) then r == Err(InvalidToolArguments)
    else if !VisibleId(m, id.text) then r == Err(ElementNotReadable)
    else if LimitIsWrong(limit) then r == Err(InvalidToolArguments)
    else exists e, ids :: Found(m, id.text, e) && ListsLinked(m, e, ids)
           && r.Ok? && r.value.Elements? && ShownInOrder(m, ids[..Fewer(Bound(limit, 100), |ids|)], r.value.elements)
  }

  /** The element at this end of an edge, if the binding names one that is visible. */
  ghost predicate EndShown(m: Mount, binding: Option<Option<string>>, shown: Option<Projected>) {
    if binding.Some? && binding.value.Some? && binding.value.value != "" && VisibleId(m, binding.value.value)
    then shown.Some? && ShownUnder(m, binding.value.value, shown.value)
    else shown == None
  }

  ghost predicate AnswersEdge(m: Mount, id: Arg, r: Result<Answer, ToolError>) {
    if !Worded(id) then r == Err(InvalidToolArguments)
    else if !VisibleId(m, id.text) then r == Err(ElementNotReadable)
    else exists e :: Found(m, id.text, e) && OpensEdge(m, e, r)
  }

  ghost predicate OpensEdge(m: Mount, e: Element, r: Result<Answer, ToolError>) {
    if e.kind != Some("arrow") && e.kind != Some("line") then r == Err(InvalidToolArguments)
    else r.Ok? && r.value.Edge? && ProjectedAs(m, e, r.value.edge)
         && EndShown(m, e.startBinding, r.value.start) && EndShown(m, e.endBinding, r.value.end)
  }

  // ---- the shapes and hashes of a drawing ----

  /** The elements drawn: all the visible ones, or those of the Context asked for. */
  ghost function Drawn(m: Mount, context: Arg): Element -> bool {
    (e: Element) => context.Text? && context.text != "" ==> Home(m, e.id) == Some(context.text)
  }

  ghost predicate ShapeOf(e: Element, s: Shape) {
    && s.kind == e.kind && s.text == e.text
    && NumberShown(e.x, s.x) && NumberShown(e.y, s.y) && NumberShown(e.width, s.width) && NumberShown(e.height, s.height)
  }

  ghost predicate Outlined(shown: seq<Element>, shapes: seq<Shape>) {
    |shapes| == |shown| && forall k :: 0 <= k < |shown| ==> ShapeOf(shown[k], shapes[k])
  }

  /** Some drawn element uses this asset. */
  ghost predicate Uses(shown: seq<Element>, asset: string) {
    asset != "" && exists e :: e in shown && e.widget.Some? && e.widget.value.assetId == asset
  }

  ghost function UsedIn(shown: seq<Element>): Asset -> bool {
    (a: Asset) => Uses(shown, a.id)
  }

  ghost function HasFile(m: Mount): Element -> bool {
    (e: Element) => e.fileId.Some? && e.fileId.value != "" && e.fileId.value in m.files
  }

  ghost predicate HashesAsset(m: Mount, shown: seq<Element>, h: Hash) {
    exists a :: a in m.assets && Uses(shown, a.id) && h.asset == a.id && h.sha256 == a.contentHash
  }

  ghost predicate HashesFile(m: Mount, shown: seq<Element>, h: Hash) {
    exists e :: e in shown && HasFile(m)(e) && h.asset == "file:" + e.fileId.value && h.sha256 == m.files[e.fileId.value]
  }

  /** The hashes of what is drawn and of nothing else, one for each asset used and each file drawn, by name. */
  ghost predicate Hashed(m: Mount, shown: seq<Element>, hashes: seq<Hash>) {
    && (forall h :: h in hashes <==> HashesAsset(m, shown, h) || HashesFile(m, shown, h))
    && |hashes| == |Filter(UsedIn(shown), m.assets)| + |Filter(HasFile(m), shown)|
    && forall i, j :: 0 <= i < j < |hashes| ==> LeqString(hashes[i].asset, hashes[j].asset)
  }

  ghost predicate AnswersRender(m: Mount, context: Arg, r: Result<Answer, ToolError>) {
    if context.Text? && context.text != "" && context.text !in m.readable then r == Err(FrameNotReadable)
    else r.Ok? && r.value.Drawing? && Outlined(Chosen(m, Drawn(m, context)), r.value.shapes)
         && Hashed(m, Chosen(m, Drawn(m, context)), r.value.hashes)
  }

  // ---- assets ----

  ghost predicate VisiblyUsed(m: Mount, asset: string) {
    exists e :: e in m.elements && MayRead(m, e.id) && e.widget.Some? && e.widget.value.assetId == asset
  }

  /** The first asset of this id that the revision recorded. */
  ghost predicate Recorded(m: Mount, id: string, k: int) {
    0 <= k < |m.assets| && m.assets[k].id == id && forall j :: 0 <= j < k ==> m.assets[j].id != id
  }

  ghost predicate AnswersAsset(m: Mount, id: Arg, mode: Arg, r: Result<Answer, ToolError>) {
    if !Worded(id) then r == Err(InvalidToolArguments)
    else if !VisiblyUsed(m, id.text) || !(exists a :: a in m.assets && a.id == id.text) then r == Err(AssetNotReadable)
    else exists k :: Recorded(m, id.text, k) && OpensAsset(m, m.assets[k], mode, r)
  }

  ghost predicate OpensAsset(m: Mount, a: Asset, mode: Arg, r: Result<Answer, ToolError>) {
    if mode == Absent || mode == Text("metadata") then r == Ok(AssetMetadata(a))
    else if mode != Text("content") then r == Err(InvalidToolArguments)
    else if a.sizeBytes > 1_048_576 then r == Err(AssetTooLarge)
    else if a.id !in m.stored then r == Err(AssetNoLongerAvailable)
    else if m.stored[a.id].sha256 != a.contentHash then r == Err(AssetNotReadable)
    else r == Ok(AssetContent(a, |a.mimeType| >= 5 && a.mimeType[..5] == "text/", m.stored[a.id].bytes))
  }

  // ---- every tool ----

  ghost predicate Capable(m: Mount, t: Tool) {
    (if t.Render? then Draw else if t.ReadAsset? then ReadAssets else Explore) in m.capabilities
  }

  ghost predicate AnswersRightly(m: Mount, lower: string -> string, t: Tool, r: Result<Answer, ToolError>) {
    if !Capable(m, t) then r == Err(CapabilityMissing)
    else match t
      case Overview => AnswersOverview(m, r)
      case ListContexts => AnswersContexts(m, r)
      case ListFrames(limit) => AnswersPage(m, FrameElement(), limit, 100, r)
      case ReadFrame(id, limit) => AnswersFrame(m, id, limit, r)
      case ReadElements(ids) => AnswersElements(m, ids, r)
      case Search(query, limit) => AnswersSearch(m, lower, query, limit, r)
      case Neighbors(id, limit) => AnswersNeighbors(m, id, limit, r)
      case FollowEdge(id) => AnswersEdge(m, id, r)
      case Render(context) => AnswersRender(m, context, r)
      case ReadAsset(id, mode) => AnswersAsset(m, id, mode, r)
  }

  // ---- that it is so ----

  lemma PageIsRight(m: Mount, keep: Element -> bool, spec: Element -> bool, limit: Arg, fallback: nat)
    requires fallback <= 100 && forall e :: e in Allowed(m) ==> keep(e) == spec(e)
    ensures AnswersPage(m, spec, limit, fallback, PageOf(m, keep, limit, fallback))
  {
    LimitExactly(limit, fallback);
    if !LimitIsWrong(limit) {
      ChosenAllowed(m, keep, spec);
      ProjectedPage(m, Chosen(m, spec), Bound(limit, fallback));
    }
  }

  /** What naming an element by an argument gives. */
  lemma NamedExactly(m: Mount, id: Arg, error: ToolError)
    ensures !Worded(id) ==> Named(m, id, error) == Err(InvalidToolArguments)
    ensures Worded(id) && !VisibleId(m, id.text) ==> Named(m, id, error) == Err(error)
    ensures Worded(id) && VisibleId(m, id.text) ==>
              Named(m, id, error).Ok? && Found(m, id.text, Named(m, id, error).value)
              && Named(m, id, error).value.id == id.text
  {
    if Worded(id) {
      VisibleExactly(m, id.text);
      if VisibleId(m, id.text) {
        IndexedIsFound(m, id.text);
      }
    }
  }

  lemma FrameIsRight(m: Mount, id: Arg, limit: Arg)
    ensures AnswersFrame(m, id, limit, OpenFrame(m, id, limit))
  {
    NamedExactly(m, id, FrameNotReadable);
    LimitExactly(limit, 100);
    if Worded(id) && VisibleId(m, id.text) {
      var e := Named(m, id, FrameNotReadable).value;
      OpenedFrame(m, e, limit);
      assert Found(m, id.text, e) && OpensFrame(m, e, limit, OpenFrame(m, id, limit));
    }
  }

  lemma OpenedFrame(m: Mount, e: Element, limit: Arg)
    requires MayRead(m, e.id)
    ensures OpensFrame(m, e, limit, ShowFrame(m, Limited(FrameOnly(Ok(e)), limit)))
  {
    LimitExactly(limit, 100);
    ProjectsExactly(m, e);
    ChosenAllowed(m, MemberOf(m, e.id), SharesContext(m, e.id));
    ProjectedPage(m, Chosen(m, SharesContext(m, e.id)), Bound(limit, 100));
  }

  lemma RequiredAll(m: Mount, ids: seq<string>)
    ensures (exists id :: id in ids && !VisibleId(m, id)) ==> RequireAll(m, ids) == Err(ElementNotReadable)
    ensures (forall id :: id in ids ==> VisibleId(m, id)) ==>
              RequireAll(m, ids).Ok? && |RequireAll(m, ids).value| == |ids|
              && forall k :: 0 <= k < |ids| ==> Found(m, ids[k], RequireAll(m, ids).value[k])
  {
    forall id | id in ids
      ensures Requirer(m)(id).Err? <==> !VisibleId(m, id)
      ensures Requirer(m)(id).Err? ==> Requirer(m)(id).error == ElementNotReadable
      ensures Requirer(m)(id).Ok? ==> Found(m, id, Requirer(m)(id).value)
    {
      RequiredOne(m, id);
    }
    RequiredOrMissed(m, Requirer(m), ids);
  }

  lemma RequiredOrMissed(m: Mount, get: string -> Result<Element, ToolError>, ids: seq<string>)
    requires forall id :: id in ids ==> (get(id).Err? <==> !VisibleId(m, id))
    requires forall id :: id in ids && get(id).Err? ==> get(id).error == ElementNotReadable
    requires forall id :: id in ids && get(id).Ok? ==> Found(m, id, get(id).value)
    ensures (exists id :: id in ids && !VisibleId(m, id)) ==> AllOk(get, ids) == Err(ElementNotReadable)
    ensures (forall id :: id in ids ==> VisibleId(m, id)) ==>
              AllOk(get, ids).Ok? && |AllOk(get, ids).value| == |ids|
              && forall k :: 0 <= k < |ids| ==> Found(m, ids[k], AllOk(get, ids).value[k])
  {
    if k :| 0 <= k < |ids| && get(ids[k]).Err? {
      AllOkMisses(get, ids, k, ElementNotReadable);
    } else {
      var found := seq(|ids|, k requires 0 <= k < |ids| => get(ids[k]).value);
      AllOkFinds(get, ids, found);
    }
  }

  lemma RequiredOne(m: Mount, id: string)
    ensures Requirer(m)(id).Err? <==> !VisibleId(m, id)
    ensures Requirer(m)(id).Err? ==> Requirer(m)(id).error == ElementNotReadable
    ensures Requirer(m)(id).Ok? ==> Found(m, id, Requirer(m)(id).value)
  {
    VisibleExactly(m, id);
    if id in AllowedIds(m) {
      IndexedIsFound(m, id);
    }
  }

  lemma FoundIsShown(m: Mount, id: string, e: Element)
    requires Found(m, id, e)
    ensures ShownUnder(m, id, Project(m, e))
  {
    ProjectsExactly(m, e);
  }

  lemma ElementsAreRight(m: Mount, ids: Arg)
    ensures AnswersElements(m, ids, OpenElements(m, ids))
  {
    if ids.Items? && 1 <= |ids.items| <= 100 {
      RequiredAll(m, ids.items);
      if forall id :: id in ids.items ==> VisibleId(m, id) {
        var found := RequireAll(m, ids.items).value;
        forall k | 0 <= k < |found| ensures ShownUnder(m, ids.items[k], Map(Projector(m), found)[k]) {
          FoundIsShown(m, ids.items[k], found[k]);
        }
      }
    }
  }

  lemma {:induction false} IncludesExactly(s: string, query: string)
    ensures Includes(s, query) <==> Holds(s, query)
  {
    assert s[0..] == s;
    if s != "" {
      IncludesExactly(s[1..], query);
      if Holds(s[1..], query) {
        var i :| 0 <= i <= |s[1..]| && query <= s[1..][i..];
        assert s[1..][i..] == s[i + 1..];
      }
      if Holds(s, query) {
        var i :| 0 <= i <= |s| && query <= s[i..];
        assert i > 0 ==> s[1..][i - 1..] == s[i..];
      }
    }
  }

  lemma MentionsExactly(lower: string -> string, query: string, e: Element)
    ensures Mentions(lower, query)(e) == Speaks(lower, query)(e)
  {
    if e.text.Some? {
      IncludesExactly(lower(e.text.value), query);
    }
    if e.name.Some? {
      IncludesExactly(lower(e.name.value), query);
    }
  }

  lemma SearchIsRight(m: Mount, lower: string -> string, query: Arg, limit: Arg)
    ensures AnswersSearch(m, lower, query, limit, SearchFor(m, lower, query, limit))
  {
    if Worded(query) {
      var q := lower(query.text);
      forall e ensures Mentions(lower, q)(e) == Speaks(lower, q)(e) {
        MentionsExactly(lower, q, e);
      }
      PageIsRight(m, Mentions(lower, q), Speaks(lower, q), limit, 20);
    }
  }

  lemma EndpointIsRight(m: Mount, binding: Option<Option<string>>)
    ensures EndShown(m, binding, Endpoint(m, binding))
  {
    if binding.Some? && binding.value.Some? {
      var id := binding.value.value;
      VisibleExactly(m, id);
      if id in AllowedIds(m) {
        IndexedIsFound(m, id);
        FoundIsShown(m, id, ById(m.elements)[id]);
      }
    }
  }

  lemma OpenedEdge(m: Mount, e: Element)
    requires MayRead(m, e.id)
    ensures OpensEdge(m, e, ShowEdge(m, EdgeOnly(Ok(e))))
  {
    ProjectsExactly(m, e);
    EndpointIsRight(m, e.startBinding);
    EndpointIsRight(m, e.endBinding);
  }

  lemma EdgeIsRight(m: Mount, id: Arg)
    ensures AnswersEdge(m, id, OpenEdge(m, id))
  {
    NamedExactly(m, id, ElementNotReadable);
    if Worded(id) && VisibleId(m, id.text) {
      var e := Named(m, id, ElementNotReadable).value;
      OpenedEdge(m, e);
      assert Found(m, id.text, e) && OpensEdge(m, e, OpenEdge(m, id));
    }
  }

  lemma PointingExactly(m: Mount, source: Element, id: string)
    ensures id in Pointing(Allowed(m), source.id) <==>
              MayRead(m, id) && LinksTo(m, id, source.id)
  {
    AllowedExactly(m);
  }

  lemma NamedByExactly(m: Mount, source: Element, id: string)
    ensures id in SeqSet(ReadableIds(AllowedIds(m), NamedBy(source))) <==>
              VisibleId(m, id)
              && (source.containerId == Some(id) || source.frameId == Some(id)
                  || (source.boundIds.Some? && Some(id) in source.boundIds.value))
  {
    VisibleExactly(m, id);
    ReadableIdsCount(AllowedIds(m), NamedBy(source), id);
    assert id in multiset(ReadableIds(AllowedIds(m), NamedBy(source))) <==> id in ReadableIds(AllowedIds(m), NamedBy(source));
    assert Some(id) in multiset(NamedBy(source)) <==> Some(id) in NamedBy(source);
  }

  lemma RelatedExactly(m: Mount, source: Element, id: string)
    ensures id in Related(m, source) <==> VisibleId(m, id) && Linked(m, source, id)
  {
    NamedByExactly(m, source, id);
    PointingExactly(m, source, id);
  }

  lemma NeighborsAreLinked(m: Mount, source: Element)
    ensures ListsLinked(m, source, NeighborIds(m, source))
  {
    var related := Related(m, source);
    StringsAreOrdered();
    SortBySorts(LeqString, Members(related));
    forall id ensures multiset(NeighborIds(m, source))[id] == if VisibleId(m, id) && Linked(m, source, id) then 1 else 0 {
      RelatedExactly(m, source, id);
      assert multiset(related)[id] == if id in related then 1 else 0;
    }
  }

  ghost predicate AllFound(m: Mount, ids: seq<string>) {
    forall id :: id in ids ==> id in ById(m.elements) && id in AllowedIds(m)
  }

  lemma ProjectedInOrder(m: Mount, ids: seq<string>)
    requires AllFound(m, ids)
    ensures ShownInOrder(m, ids, ProjectIds(m, ids))
  {
    forall k | 0 <= k < |ids| ensures ShownUnder(m, ids[k], ProjectIds(m, ids)[k]) {
      ProjectsFound(m, ids[k]);
    }
  }

  lemma TakenIsPrefix(n: nat, ids: seq<string>)
    ensures Take(n, ids) == ids[..Fewer(n, |ids|)]
  {
  }

  lemma NeighbourhoodIsRight(m: Mount, source: Element, n: nat)
    ensures Neighbourhood(m, source, n).Elements?
    ensures ListsLinked(m, source, NeighborIds(m, source))
    ensures ShownInOrder(m, NeighborIds(m, source)[..Fewer(n, |NeighborIds(m, source)|)], Neighbourhood(m, source, n).elements)
  {
    var ids := NeighborIds(m, source);
    NeighborsAreLinked(m, source);
    TakenIsPrefix(n, ids);
    assert AllFound(m, Take(n, ids));
    ProjectedInOrder(m, Take(n, ids));
  }

  lemma NeighborsAreRight(m: Mount, id: Arg, limit: Arg)
    ensures AnswersNeighbors(m, id, limit, FindNeighbors(m, id, limit))
  {
    NamedExactly(m, id, ElementNotReadable);
    LimitExactly(limit, 100);
    if Worded(id) && VisibleId(m, id.text) && !LimitIsWrong(limit) {
      var e := Named(m, id, ElementNotReadable).value;
      NeighbourhoodIsRight(m, e, Bound(limit, 100));
      assert Found(m, id.text, e) && ListsLinked(m, e, NeighborIds(m, e));
    }
  }

  lemma {:induction false} CountIsFilter(elements: seq<Element>, kind: string)
    ensures CountOf(elements, kind) == |Filter(OfKind(kind), elements)|
  {
    if elements != [] {
      CountIsFilter(elements[1..], kind);
    }
  }

  lemma KindIsCounted(elements: seq<Element>, kind: string)
    ensures kind in Kinds(elements) <==> Filter(OfKind(kind), elements) != []
    ensures (if kind in Counts(elements) then Counts(elements)[kind] else 0) == |Filter(OfKind(kind), elements)|
  {
    CountIsFilter(elements, kind);
    var kept := Filter(OfKind(kind), elements);
    if kind in Kinds(elements) {
      var e :| e in elements && Kind(e) == kind;
      assert e in kept;
    }
    assert |kept| > 0 ==> kept[0] in kept;
  }

  lemma OverviewIsRight(m: Mount)
    ensures AnswersOverview(m, Ok(Summary(|Filter(Granted(m), m.contexts)|, |Allowed(m)|, Counts(Allowed(m)))))
  {
    FilterAgrees(Granted(m), (c: Context) => c.id in m.readable, m.contexts);
    AllowedExactly(m);
    var counts := Counts(Allowed(m));
    forall kind
      ensures (if kind in counts then counts[kind] else 0) == |Chosen(m, OfKind(kind))|
      ensures kind in counts <==> Chosen(m, OfKind(kind)) != []
    {
      ChosenAllowed(m, OfKind(kind), OfKind(kind));
      KindIsCounted(Allowed(m), kind);
    }
  }

  lemma DescribedExactly(m: Mount, c: Context)
    requires c.frame in ById(m.elements)
    ensures DescribedAs(m, c, Describe(m, c))
  {
    var n := ByIdKeepsTheLast(m.elements, c.frame);
    forall k | LastWithId(m.elements, k, c.frame) ensures k == n {
    }
  }

  lemma ContextsAreRight(m: Mount)
    requires forall c :: c in m.contexts ==> c.frame in ById(m.elements)
    ensures AnswersContexts(m, Ok(Contexts(Map(Describer(m), Filter(Granted(m), m.contexts)))))
  {
    var own := Filter((c: Context) => c.id in m.readable, m.contexts);
    FilterAgrees(Granted(m), (c: Context) => c.id in m.readable, m.contexts);
    forall k | 0 <= k < |own| ensures DescribedAs(m, own[k], Map(Describer(m), own)[k]) {
      assert own[k] in own;
      DescribedExactly(m, own[k]);
    }
  }

  lemma FilesHashed(m: Mount, shown: seq<Element>, h: Hash)
    ensures h in FileHashes(m.files, shown) <==> HashesFile(m, shown, h)
    ensures |FileHashes(m.files, shown)| == |Filter(HasFile(m), shown)|
  {
    if shown != [] {
      FilesHashed(m, shown[1..], h);
      assert shown == [shown[0]] + shown[1..];
      FirstFileHashed(m, shown[0], shown[1..], h);
    }
  }

  lemma FirstFileHashed(m: Mount, e: Element, rest: seq<Element>, h: Hash)
    ensures HashesFile(m, [e] + rest, h) <==> HashesFile(m, [e], h) || HashesFile(m, rest, h)
    ensures HashesFile(m, [e], h) <==> HasFile(m)(e) && h == Hash("file:" + e.fileId.value, m.files[e.fileId.value])
  {
    assert forall x :: x in [e] + rest <==> x in [e] || x in rest;
    assert e in [e];
  }

  lemma AssetsHashed(m: Mount, shown: seq<Element>, h: Hash)
    ensures h in Map(Hasher(), Filter(UsedIn(shown), m.assets)) <==> HashesAsset(m, shown, h)
  {
    var used := Filter(UsedIn(shown), m.assets);
    if HashesAsset(m, shown, h) {
      var a :| a in m.assets && Uses(shown, a.id) && h.asset == a.id && h.sha256 == a.contentHash;
      assert a in used;
      MapHolds(Hasher(), used, a);
    }
    if h in Map(Hasher(), used) {
      var k :| 0 <= k < |used| && Map(Hasher(), used)[k] == h;
      assert used[k] in used;
    }
  }

  lemma UsedExactly(m: Mount, shown: seq<Element>)
    ensures Filter(AssetIn(NamedAssets(shown) - {""}), m.assets) == Filter(UsedIn(shown), m.assets)
  {
    forall a | a in m.assets ensures AssetIn(NamedAssets(shown) - {""})(a) == UsedIn(shown)(a) {
    }
    FilterAgrees(AssetIn(NamedAssets(shown) - {""}), UsedIn(shown), m.assets);
  }

  lemma HashesAreOrdered()
    ensures TotalPreorder(HashLeq)
  {
    StringsAreOrdered();
    forall a, b, c | HashLeq(a, b) && HashLeq(b, c) ensures HashLeq(a, c) {
      assert LeqString(a.asset, b.asset) && LeqString(b.asset, c.asset);
    }
  }

  lemma DrawingHashed(m: Mount, shown: seq<Element>)
    ensures Hashed(m, shown, DrawingOf(m, shown).hashes)
  {
    UsedExactly(m, shown);
    HashesAreOrdered();
    var hashes := Map(Hasher(), Filter(UsedIn(shown), m.assets)) + FileHashes(m.files, shown);
    SortBySorts(HashLeq, hashes);
    SortedHashes(hashes);
    forall h ensures h in hashes <==> HashesAsset(m, shown, h) || HashesFile(m, shown, h) {
      FilesHashed(m, shown, h);
      AssetsHashed(m, shown, h);
    }
    FilesHashed(m, shown, Hash("", ""));
  }

  lemma SortedHashes(hashes: seq<Hash>)
    ensures |SortBy(HashLeq, hashes)| == |hashes| && forall h :: h in SortBy(HashLeq, hashes) <==> h in hashes
  {
    forall h ensures h in SortBy(HashLeq, hashes) <==> h in hashes {
      SortHolds(HashLeq, hashes, h);
    }
    SortRearranges(HashLeq, hashes);
    assert |multiset(SortBy(HashLeq, hashes))| == |multiset(hashes)|;
  }

  lemma DrawingIsRight(m: Mount, shown: seq<Element>)
    ensures DrawingOf(m, shown).Drawing? && Outlined(shown, DrawingOf(m, shown).shapes)
    ensures Hashed(m, shown, DrawingOf(m, shown).hashes)
  {
    DrawingHashed(m, shown);
  }

  lemma RenderIsRight(m: Mount, context: Arg)
    ensures AnswersRender(m, context, DrawContext(m, context))
  {
    DrawingIsRight(m, Chosen(m, Drawn(m, context)));
    if context.Text? && context.text != "" {
      ChosenAllowed(m, LivesIn(m, context.text), Drawn(m, context));
    } else {
      ChosenAllowed(m, Drawn(m, context), Drawn(m, context));
      FilterEvery(Drawn(m, context), Allowed(m));
    }
  }

  lemma {:induction false} FoundIsFirst(assets: seq<Asset>, id: string) returns (k: nat)
    ensures FindAsset(assets, id).None? ==> forall a :: a in assets ==> a.id != id
    ensures FindAsset(assets, id).Some? ==>
              k < |assets| && assets[k] == FindAsset(assets, id).value && assets[k].id == id
              && forall j :: 0 <= j < k ==> assets[j].id != id
  {
    k := 0;
    if assets != [] && assets[0].id != id {
      var n := FoundIsFirst(assets[1..], id);
      k := n + 1;
      assert forall j :: 1 <= j < |assets| ==> assets[j] == assets[1..][j - 1];
    }
  }

  lemma UsedVisibly(m: Mount, id: string)
    ensures id in NamedAssets(Allowed(m)) <==> VisiblyUsed(m, id)
  {
    AllowedExactly(m);
  }

  lemma OpenedAsset(m: Mount, a: Asset, mode: Arg)
    ensures OpensAsset(m, a, mode, InMode(mode, a, Content(m, a)))
  {
    var text := "text/";
    assert |text| == 5 && (text <= a.mimeType <==> |a.mimeType| >= 5 && a.mimeType[..5] == text);
  }

  lemma AssetIsRight(m: Mount, id: Arg, mode: Arg)
    requires Worded(id)
    ensures AnswersAsset(m, id, mode, OpenAsset(m, id.text, mode))
  {
    var k := FoundIsFirst(m.assets, id.text);
    UsedVisibly(m, id.text);
    if VisiblyUsed(m, id.text) && FindAsset(m.assets, id.text).Some? {
      OpenedAsset(m, m.assets[k], mode);
      assert Recorded(m, id.text, k);
    }
  }

  /** Every tool of every mount whose Contexts have frames answers what is stored, and only that. */
  lemma ToolsAnswerRightly(m: Mount, lower: string -> string, t: Tool)
    requires forall c :: c in m.contexts ==> c.frame in ById(m.elements)
    ensures AnswersRightly(m, lower, t, Execute(m, lower, t))
  {
    match t
    case Overview => OverviewIsRight(m);
    case ListContexts => ContextsAreRight(m);
    case ListFrames(limit) => PageIsRight(m, HasKind("frame"), FrameElement(), limit, 100);
    case Search(query, limit) => SearchIsRight(m, lower, query, limit);
    case Render(context) => RenderIsRight(m, context);
    case _ => NamingToolsAnswerRightly(m, lower, t);
  }

  /** The tools that are given the id of an element or an asset. */
  lemma NamingToolsAnswerRightly(m: Mount, lower: string -> string, t: Tool)
    requires t.ReadFrame? || t.ReadElements? || t.Neighbors? || t.FollowEdge? || t.ReadAsset?
    ensures AnswersRightly(m, lower, t, Execute(m, lower, t))
  {
    match t
    case ReadFrame(id, limit) => FrameIsRight(m, id, limit);
    case ReadElements(ids) => ElementsAreRight(m, ids);
    case Neighbors(id, limit) => NeighborsAreRight(m, id, limit);
    case FollowEdge(id) => EdgeIsRight(m, id);
    case ReadAsset(id, mode) =>
      if Worded(id) {
        AssetIsRight(m, id, mode);
      }
  }
}
