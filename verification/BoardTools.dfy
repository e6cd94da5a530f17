/** The read tools of a mounted board revision, and what of the board they let through. */
module BoardTools {
  import opened Wrappers
  import opened Scene
  import opened Sequences
  import opened Ordering
  import opened ContextIndex
  import Frames = ContextFrames
  import Provenance = ElementProvenance

  datatype Capability = Explore | Draw | ReadAssets

  datatype Asset = Asset(id: string, contentHash: string, kind: string, name: string, mimeType: string, sizeBytes: nat)

  datatype Stored = Stored(sha256: string, bytes: string)

  /** `files` holds the hash of each file entry the board carries. */
  datatype Mount = Mount(
    elements: seq<Element>,
    contexts: seq<Context>,
    readable: set<string>,
    capabilities: set<Capability>,
    assets: seq<Asset>,
    files: map<string, string>,
    stored: map<string, Stored>,
    rows: Provenance.Rows,
    contributionEnabled: bool)

  /** A tool argument as it arrives; null counts as absent. */
  datatype Arg = Absent | Text(text: string) | Integer(number: int) | Items(items: seq<string>) | Other

  datatype Tool =
    | Overview
    | ListContexts
    | ListFrames(limit: Arg)
    | ReadFrame(frame: Arg, limit: Arg)
    | ReadElements(ids: Arg)
    | Search(query: Arg, limit: Arg)
    | Neighbors(element: Arg, limit: Arg)
    | FollowEdge(edge: Arg)
    | Render(context: Arg)
    | ReadAsset(asset: Arg, mode: Arg)

  datatype ToolError =
    | CapabilityMissing
    | InvalidToolArguments
    | ElementNotReadable
    | FrameNotReadable
    | AssetNotReadable
    | AssetTooLarge
    | AssetNoLongerAvailable

  datatype Projected = Projected(
    id: string, kind: string, contextId: string,
    x: real, y: real, width: real, height: real, angle: Rotation,
    frameId: Option<string>, text: Option<string>, link: Option<string>,
    containerId: Option<Option<string>>, boundIds: Option<seq<string>>,
    startId: Option<Option<string>>, endId: Option<Option<string>>,
    asset: Option<Widget>, isEdge: bool)

  datatype ContextSummary =
    ContextSummary(id: string, frame: string, name: Option<string>, pinned: bool, bounds: Option<Frames.Bounds>)

  /** What the drawing shows of one element. */
  datatype Shape = Shape(kind: Option<string>, x: real, y: real, width: real, height: real, text: Option<string>)

  datatype Hash = Hash(asset: string, sha256: string)

  datatype Answer =
    | Summary(contextCount: nat, elementCount: nat, countsByType: map<string, nat>)
    | Contexts(contexts: seq<ContextSummary>)
    | Elements(elements: seq<Projected>)
    | Frame(frame: Projected, members: seq<Projected>)
    | Edge(edge: Projected, start: Option<Projected>, end: Option<Projected>)
    | Drawing(hashes: seq<Hash>, shapes: seq<Shape>)
    | AssetMetadata(asset: Asset)
    | AssetContent(asset: Asset, utf8: bool, bytes: string)

  const MAX_LIMIT := 100
  const MAX_IDS := 100
  const MAX_TEXT := 500
  const MAX_ASSET_BYTES := 1048576

  // ---- what the mount may read ----

  /** The first element of each id, in the order of the scene. */
  function Firsts(elements: seq<Element>): map<string, Element> {
    if elements == [] then map[]
    else
      var before, last := elements[..|elements| - 1], elements[|elements| - 1];
      if last.id in Firsts(before) then Firsts(before) else Firsts(before)[last.id := last]
  }

  ghost predicate FirstWithId(elements: seq<Element>, k: int, id: string) {
    0 <= k < |elements| && elements[k].id == id && forall j :: 0 <= j < k ==> elements[j].id != id
  }

  lemma FirstsGrow(before: seq<Element>, e: Element)
    ensures Firsts(before + [e]) == if e.id in Firsts(before) then Firsts(before) else Firsts(before)[e.id := e]
  {
    assert (before + [e])[..|before|] == before;
  }

  lemma {:induction false} FirstsHold(elements: seq<Element>, e: Element)
    requires e in elements
    ensures e.id in Firsts(elements)
    decreases |elements|
  {
    var init, last := elements[..|elements| - 1], elements[|elements| - 1];
    assert elements == init + [last];
    FirstsGrow(init, last);
    if e != last {
      FirstsHold(init, e);
    }
  }

  lemma FirstStays(init: seq<Element>, last: Element, k: nat, id: string)
    requires FirstWithId(init, k, id)
    ensures FirstWithId(init + [last], k, id) && (init + [last])[k] == init[k]
  {
  }

  lemma LastIsFirst(init: seq<Element>, last: Element, id: string)
    requires id !in Firsts(init) && id in Firsts(init + [last])
    ensures FirstWithId(init + [last], |init|, id) && Firsts(init + [last])[id] == last
  {
    FirstsGrow(init, last);
    forall j | 0 <= j < |init| ensures init[j].id != id {
      FirstsHold(init, init[j]);
    }
  }

  /** The map holds, for each id, the element standing first. */
  lemma {:induction false} FirstsKeepTheFirst(elements: seq<Element>, id: string) returns (k: nat)
    requires id in Firsts(elements)
    ensures FirstWithId(elements, k, id) && elements[k] == Firsts(elements)[id]
    decreases |elements|
  {
    var init, last := elements[..|elements| - 1], elements[|elements| - 1];
    assert elements == init + [last];
    if id in Firsts(init) {
      k := FirstsKeepTheFirst(init, id);
      FirstsGrow(init, last);
      FirstStays(init, last, k, id);
    } else {
      k := |init|;
      LastIsFirst(init, last, id);
    }
  }

  /** The cached resolver answers every element of an id as it answered the first one. */
  function Home(m: Mount, id: string): Option<string> {
    var firsts := Firsts(m.elements);
    if id !in firsts then None else Resolved(ById(m.elements), ByFrame(m.contexts), firsts[id])
  }

  /** The nearest frame around the first element of this id that bounds a Context bounds `c`. */
  ghost predicate BelongsTo(m: Mount, e: Element, c: string) {
    exists n: nat :: NearestFrame(ById(m.elements), ByFrame(m.contexts), e, n, c)
  }

  lemma FirstIsOne(elements: seq<Element>, id: string)
    requires id in Firsts(elements)
    ensures forall j :: FirstWithId(elements, j, id) ==> elements[j] == Firsts(elements)[id]
  {
    var k := FirstsKeepTheFirst(elements, id);
    forall j | FirstWithId(elements, j, id) ensures j == k {
    }
  }

  lemma NoneIsFirst(elements: seq<Element>, id: string)
    requires id !in Firsts(elements)
    ensures forall j :: !FirstWithId(elements, j, id)
  {
    forall e | e in elements ensures e.id != id {
      FirstsHold(elements, e);
    }
  }

  lemma HomeOfElement(m: Mount, id: string, e: Element, c: string)
    requires id in Firsts(m.elements) && e == Firsts(m.elements)[id]
    ensures Home(m, id) == Some(c) <==> BelongsTo(m, e, c)
  {
    ResolvedExactly(ById(m.elements), ByFrame(m.contexts), e, c);
  }

  /** An id belongs to the Context of the first element that bears it. */
  lemma HomeExactly(m: Mount, id: string, c: string)
    ensures Home(m, id) == Some(c) <==>
              exists k :: FirstWithId(m.elements, k, id) && BelongsTo(m, m.elements[k], c)
  {
    if id in Firsts(m.elements) {
      var k := FirstsKeepTheFirst(m.elements, id);
      HomeOfElement(m, id, m.elements[k], c);
      FirstIsOne(m.elements, id);
    } else {
      NoneIsFirst(m.elements, id);
    }
  }

  predicate InReach(m: Mount, id: string) {
    Home(m, id).Some? && Home(m, id).value in m.readable
  }

  /** The provenance gate; a Context's own frame passes it whatever its provenance. */
  predicate Clears(m: Mount, id: string) {
    id in ByFrame(m.contexts) || Provenance.Eligible(Provenance.StatusOf(m.rows, id), m.contributionEnabled)
  }

  predicate Readable(m: Mount, id: string) {
    InReach(m, id) && Clears(m, id)
  }

  // ---- the same by the stored rows ----

  ghost predicate FramesContext(m: Mount, id: string) {
    exists c :: c in m.contexts && c.frame == id
  }

  /** The id resolves to a Context the mount was given. */
  ghost predicate InGranted(m: Mount, id: string) {
    exists c :: c in m.readable && Home(m, id) == Some(c)
  }

  /** No Context frame, guests may not contribute, and no row says that only members touched it. */
  ghost predicate Withheld(m: Mount, id: string) {
    !FramesContext(m, id) && !m.contributionEnabled && (id !in m.rows || m.rows[id].touched)
  }

  ghost predicate MayRead(m: Mount, id: string) {
    InGranted(m, id) && !Withheld(m, id)
  }

  ghost function Visible(m: Mount): Element -> bool {
    (e: Element) => MayRead(m, e.id)
  }

  /** In a granted Context, and withheld for its provenance. */
  ghost function Excluded(m: Mount): Element -> bool {
    (e: Element) => InGranted(m, e.id) && Withheld(m, e.id)
  }

  lemma ReadableExactly(m: Mount, id: string)
    ensures InReach(m, id) <==> InGranted(m, id)
    ensures Clears(m, id) <==> !Withheld(m, id)
    ensures Readable(m, id) <==> MayRead(m, id)
  {
  }

  lemma AllowedExactly(m: Mount)
    ensures Allowed(m) == Filter(Visible(m), m.elements)
    ensures forall e :: e in Allowed(m) <==> e in m.elements && MayRead(m, e.id)
    ensures forall id :: id in AllowedIds(m) <==> MayRead(m, id) && exists e :: e in m.elements && e.id == id
  {
    forall e | e in m.elements ensures Reader(m)(e) == Visible(m)(e) {
      ReadableExactly(m, e.id);
    }
    FilterAgrees(Reader(m), Visible(m), m.elements);
  }

  function Reader(m: Mount): Element -> bool {
    (e: Element) => Readable(m, e.id)
  }

  function Allowed(m: Mount): seq<Element> {
    Filter(Reader(m), m.elements)
  }

  function AllowedIds(m: Mount): set<string> {
    set e | e in Allowed(m) :: e.id
  }

  function HomeId(m: Mount, id: string): string {
    if Home(m, id).Some? then Home(m, id).value else ""
  }

  function AssetIds(assets: seq<Asset>): set<string> {
    set a | a in assets :: a.id
  }

  function NamedAssets(elements: seq<Element>): set<string> {
    set e | e in elements && e.widget.Some? :: e.widget.value.assetId
  }

  function NamedFiles(elements: seq<Element>): set<string> {
    set e | e in elements && e.fileId.Some? :: e.fileId.value
  }

  // ---- arguments ----

  function Limit(arg: Arg, fallback: nat): Result<nat, ToolError> {
    match arg
    case Absent => Ok(if fallback < MAX_LIMIT then fallback else MAX_LIMIT)
    case Integer(n) => if n < 1 then Err(InvalidToolArguments) else Ok(if n < MAX_LIMIT then n else MAX_LIMIT)
    case _ => Err(InvalidToolArguments)
  }

  function TextArg(arg: Arg): Result<string, ToolError> {
    if arg.Text? && 0 < |arg.text| <= MAX_TEXT then Ok(arg.text) else Err(InvalidToolArguments)
  }

  function Require(m: Mount, id: string, error: ToolError): Result<Element, ToolError> {
    if id in ById(m.elements) && id in AllowedIds(m) then Ok(ById(m.elements)[id]) else Err(error)
  }

  function Named(m: Mount, id: Arg, error: ToolError): Result<Element, ToolError> {
    var wanted :- TextArg(id);
    Require(m, wanted, error)
  }

  function Requirer(m: Mount): string -> Result<Element, ToolError> {
    id => Require(m, id, ElementNotReadable)
  }

  function RequireAll(m: Mount, ids: seq<string>): Result<seq<Element>, ToolError> {
    AllOk(Requirer(m), ids)
  }

  // ---- projections ----

  function NumberOrZero(n: Option<real>): real {
    if n.Some? then n.value else 0.0
  }

  function ReadableId(allowed: set<string>, id: Option<string>): Option<string> {
    if id.Some? && id.value in allowed then id else None
  }

  function ReadableIds(allowed: set<string>, ids: seq<Option<string>>): (r: seq<string>)
    ensures forall id :: id in r ==> id in allowed
  {
    if ids == [] then []
    else (if ids[0].Some? && ids[0].value in allowed then [ids[0].value] else []) + ReadableIds(allowed, ids[1..])
  }

  function MapOption<T, U>(f: T -> U, o: Option<T>): Option<U> {
    if o.Some? then Some(f(o.value)) else None
  }

  predicate IsEdge(e: Element) {
    e.kind == Some("arrow") || e.kind == Some("line")
  }

  function Kind(e: Element): string {
    if e.kind.Some? then e.kind.value else "unknown"
  }

  function ProjectElement(e: Element, allowed: set<string>, contextId: string, assetIds: set<string>): Projected {
    Projected(
      e.id, Kind(e), contextId,
      NumberOrZero(e.x), NumberOrZero(e.y), NumberOrZero(e.width), NumberOrZero(e.height), Frames.Turn(e),
      ReadableId(allowed, e.frameId), e.text, e.link,
      MapOption(id => ReadableId(allowed, Some(id)), e.containerId),
      MapOption(ids => SortBy(LeqString, ReadableIds(allowed, ids)), e.boundIds),
      MapOption(id => ReadableId(allowed, id), e.startBinding),
      MapOption(id => ReadableId(allowed, id), e.endBinding),
      if e.widget.Some? && e.widget.value.assetId in assetIds then e.widget else None,
      IsEdge(e))
  }

  function Project(m: Mount, e: Element): Projected {
    ProjectElement(e, AllowedIds(m), HomeId(m, e.id), AssetIds(m.assets))
  }

  function Projector(m: Mount): Element -> Projected {
    e => Project(m, e)
  }

  function Page(m: Mount, elements: seq<Element>, n: nat): Answer {
    Elements(Map(Projector(m), Take(n, elements)))
  }

  // ---- the tools ----

  function CountOf(elements: seq<Element>, kind: string): nat {
    if elements == [] then 0
    else (if Kind(elements[0]) == kind then 1 else 0) + CountOf(elements[1..], kind)
  }

  function Kinds(elements: seq<Element>): set<string> {
    set e | e in elements :: Kind(e)
  }

  function Counts(elements: seq<Element>): map<string, nat> {
    map kind | kind in Kinds(elements) :: CountOf(elements, kind)
  }

  function Granted(m: Mount): Context -> bool {
    (c: Context) => c.id in m.readable
  }

  function Describe(m: Mount, c: Context): ContextSummary {
    ContextSummary(c.id, c.frame, c.frameName, c.pinned,
      if c.frame in ById(m.elements) then Frames.FrameBounds(ById(m.elements)[c.frame]) else None)
  }

  function Describer(m: Mount): Context -> ContextSummary {
    c => Describe(m, c)
  }

  function HasKind(kind: string): Element -> bool {
    (e: Element) => e.kind == Some(kind)
  }

  function LivesIn(m: Mount, contextId: string): Element -> bool {
    (e: Element) => Home(m, e.id) == Some(contextId)
  }

  function MemberOf(m: Mount, frame: string): Element -> bool {
    (e: Element) => e.id != frame && Home(m, e.id) == Home(m, frame)
  }

  predicate Includes(s: string, query: string) {
    query <= s || (s != "" && Includes(s[1..], query))
  }

  function Mentions(lower: string -> string, query: string): Element -> bool {
    (e: Element) =>
      (e.text.Some? && Includes(lower(e.text.value), query)) || (e.name.Some? && Includes(lower(e.name.value), query))
  }

  predicate PointsAt(e: Element, id: string) {
    e.startBinding == Some(Some(id)) || e.endBinding == Some(Some(id)) || e.containerId == Some(id)
  }

  function Pointing(elements: seq<Element>, id: string): set<string> {
    set e | e in elements && PointsAt(e, id) :: e.id
  }

  /** What the source names of itself: its container, its frame and its bound elements. */
  function NamedBy(source: Element): seq<Option<string>> {
    [source.containerId, source.frameId] + if source.boundIds.Some? then source.boundIds.value else []
  }

  function Related(m: Mount, source: Element): set<string> {
    SeqSet(ReadableIds(AllowedIds(m), NamedBy(source))) + Pointing(Allowed(m), source.id)
  }

  function ProjectIds(m: Mount, ids: seq<string>): seq<Projected>
    requires forall id :: id in ids ==> id in ById(m.elements)
  {
    seq(|ids|, k requires 0 <= k < |ids| => Project(m, ById(m.elements)[ids[k]]))
  }

  lemma RelatedAreAllowed(m: Mount, source: Element)
    ensures Related(m, source) <= AllowedIds(m)
  {
  }

  ghost function NeighborIds(m: Mount, source: Element): (r: seq<string>)
    ensures r == Listing(Related(m, source))
    ensures forall id :: id in r ==> id in AllowedIds(m) && id in ById(m.elements)
  {
    AllowedAreIndexed(m);
    RelatedAreAllowed(m, source);
    ListingHolds(Related(m, source));
    Listing(Related(m, source))
  }

  ghost function Neighbourhood(m: Mount, source: Element, n: nat): Answer {
    Elements(ProjectIds(m, Take(n, NeighborIds(m, source))))
  }

  lemma AllowedAreIndexed(m: Mount)
    ensures forall id :: id in AllowedIds(m) ==> id in ById(m.elements)
  {
  }

  function Endpoint(m: Mount, binding: Option<Option<string>>): Option<Projected> {
    if binding.Some? && binding.value.Some? && binding.value.value != "" && binding.value.value in AllowedIds(m)
    then
      AllowedAreIndexed(m);
      Some(Project(m, ById(m.elements)[binding.value.value]))
    else None
  }

  function Outline(e: Element): Shape {
    Shape(e.kind, NumberOrZero(e.x), NumberOrZero(e.y), NumberOrZero(e.width), NumberOrZero(e.height), e.text)
  }

  function Outliner(): Element -> Shape {
    e => Outline(e)
  }

  function AssetIn(ids: set<string>): Asset -> bool {
    (a: Asset) => a.id in ids
  }

  function Hasher(): Asset -> Hash {
    (a: Asset) => Hash(a.id, a.contentHash)
  }

  function FileHashes(files: map<string, string>, elements: seq<Element>): seq<Hash> {
    if elements == [] then []
    else
      var file := elements[0].fileId;
      (if file.Some? && file.value != "" && file.value in files then [Hash("file:" + file.value, files[file.value])] else [])
      + FileHashes(files, elements[1..])
  }

  predicate HashLeq(a: Hash, b: Hash) {
    LeqString(a.asset, b.asset)
  }

  function DrawingOf(m: Mount, shown: seq<Element>): Answer {
    Drawing(
      SortBy(HashLeq,
        Map(Hasher(), Filter(AssetIn(NamedAssets(shown) - {""}), m.assets)) + FileHashes(m.files, shown)),
      Map(Outliner(), shown))
  }

  function FindAsset(assets: seq<Asset>, id: string): Option<Asset> {
    if assets == [] then None
    else if assets[0].id == id then Some(assets[0])
    else FindAsset(assets[1..], id)
  }

  predicate IsText(a: Asset) {
    "text/" <= a.mimeType
  }

  function Content(m: Mount, a: Asset): Result<Answer, ToolError> {
    if a.sizeBytes > MAX_ASSET_BYTES then Err(AssetTooLarge)
    else if a.id !in m.stored then Err(AssetNoLongerAvailable)
    else if m.stored[a.id].sha256 != a.contentHash then Err(AssetNotReadable)
    else Ok(AssetContent(a, IsText(a), m.stored[a.id].bytes))
  }

  function InMode(mode: Arg, a: Asset, content: Result<Answer, ToolError>): Result<Answer, ToolError> {
    if mode.Absent? || mode == Text("metadata") then Ok(AssetMetadata(a))
    else if mode == Text("content") then content
    else Err(InvalidToolArguments)
  }

  /** The asset and what reading its content would give, if some readable element names it. */
  function AssetInReach(m: Mount, id: string): Option<(Asset, Result<Answer, ToolError>)> {
    var found := FindAsset(m.assets, id);
    if id !in NamedAssets(Allowed(m)) || found.None? then None else Some((found.value, Content(m, found.value)))
  }

  function OpenAsset(m: Mount, id: string, mode: Arg): Result<Answer, ToolError> {
    var reached := AssetInReach(m, id);
    if reached.None? then Err(AssetNotReadable) else InMode(mode, reached.value.0, reached.value.1)
  }

  function Needs(t: Tool): Capability {
    if t.Render? then Draw else if t.ReadAsset? then ReadAssets else Explore
  }

  function FrameAndMembers(m: Mount, frame: Element, n: nat): Answer {
    Frame(Project(m, frame), Map(Projector(m), Take(n, Filter(MemberOf(m, frame.id), Allowed(m)))))
  }

  function Limited(e: Result<Element, ToolError>, limit: Arg): Result<(Element, nat), ToolError> {
    var element :- e;
    var n :- Limit(limit, 100);
    Ok((element, n))
  }

  function FrameOnly(e: Result<Element, ToolError>): Result<Element, ToolError> {
    if e.Ok? && e.value.kind != Some("frame") then Err(FrameNotReadable) else e
  }

  function FrameArgs(m: Mount, id: Arg, limit: Arg): Result<(Element, nat), ToolError> {
    Limited(FrameOnly(Named(m, id, FrameNotReadable)), limit)
  }

  function ShowFrame(m: Mount, args: Result<(Element, nat), ToolError>): Result<Answer, ToolError> {
    var a :- args;
    Ok(FrameAndMembers(m, a.0, a.1))
  }

  function OpenFrame(m: Mount, id: Arg, limit: Arg): Result<Answer, ToolError> {
    ShowFrame(m, FrameArgs(m, id, limit))
  }

  function OpenElements(m: Mount, ids: Arg): Result<Answer, ToolError> {
    if !ids.Items? || ids.items == [] || |ids.items| > MAX_IDS then Err(InvalidToolArguments)
    else
      var elements :- RequireAll(m, ids.items);
      Ok(Elements(Map(Projector(m), elements)))
  }

  ghost function ShowNeighbors(m: Mount, args: Result<(Element, nat), ToolError>): Result<Answer, ToolError> {
    var a :- args;
    Ok(Neighbourhood(m, a.0, a.1))
  }

  ghost function FindNeighbors(m: Mount, id: Arg, limit: Arg): Result<Answer, ToolError> {
    ShowNeighbors(m, Limited(Named(m, id, ElementNotReadable), limit))
  }

  function EdgeOnly(e: Result<Element, ToolError>): Result<Element, ToolError> {
    if e.Ok? && !IsEdge(e.value) then Err(InvalidToolArguments) else e
  }

  function ShowEdge(m: Mount, edge: Result<Element, ToolError>): Result<Answer, ToolError> {
    var e :- edge;
    Ok(Edge(Project(m, e), Endpoint(m, e.startBinding), Endpoint(m, e.endBinding)))
  }

  function OpenEdge(m: Mount, id: Arg): Result<Answer, ToolError> {
    ShowEdge(m, EdgeOnly(Named(m, id, ElementNotReadable)))
  }

  function DrawContext(m: Mount, context: Arg): Result<Answer, ToolError> {
    if !context.Text? || context.text == "" then Ok(DrawingOf(m, Allowed(m)))
    else if context.text !in m.readable then Err(FrameNotReadable)
    else Ok(DrawingOf(m, Filter(LivesIn(m, context.text), Allowed(m))))
  }

  function PageOf(m: Mount, keep: Element -> bool, limit: Arg, fallback: nat): Result<Answer, ToolError> {
    var n :- Limit(limit, fallback);
    Ok(Page(m, Filter(keep, Allowed(m)), n))
  }

  function SearchFor(m: Mount, lower: string -> string, query: Arg, limit: Arg): Result<Answer, ToolError> {
    var q :- TextArg(query);
    PageOf(m, Mentions(lower, lower(q)), limit, 20)
  }

  /** The tools that only filter and project. */
  function Answered(m: Mount, lower: string -> string, t: Tool): Result<Answer, ToolError>
    requires !t.Overview? && !t.Neighbors?
  {
    match t
    case ListContexts =>
      Ok(Contexts(Map(Describer(m), Filter(Granted(m), m.contexts))))
    case ListFrames(limit) => PageOf(m, HasKind("frame"), limit, 100)
    case ReadFrame(id, limit) => OpenFrame(m, id, limit)
    case ReadElements(ids) => OpenElements(m, ids)
    case Search(query, limit) => SearchFor(m, lower, query, limit)
    case FollowEdge(id) => OpenEdge(m, id)
    case Render(context) => DrawContext(m, context)
    case ReadAsset(id, mode) =>
      var asset :- TextArg(id);
      OpenAsset(m, asset, mode)
  }

  ghost function Execute(m: Mount, lower: string -> string, t: Tool): Result<Answer, ToolError> {
    if Needs(t) !in m.capabilities then Err(CapabilityMissing)
    else if t.Overview? then Ok(Summary(|Filter(Granted(m), m.contexts)|, |Allowed(m)|, Counts(Allowed(m))))
    else if t.Neighbors? then FindNeighbors(m, t.element, t.limit)
    else Answered(m, lower, t)
  }

  // ---- the tools as they run ----

  function Reaching(m: Mount): Element -> bool {
    (e: Element) => InReach(m, e.id)
  }

  /** A later element never displaces the first one of its id. */
  lemma {:induction false} FirstsStay(before: seq<Element>, rest: seq<Element>, id: string)
    requires id in Firsts(before)
    ensures id in Firsts(before + rest) && Firsts(before + rest)[id] == Firsts(before)[id]
    decreases |rest|
  {
    if rest == [] {
      assert before + rest == before;
    } else {
      FirstsGrow(before, rest[0]);
      assert before + rest == (before + [rest[0]]) + rest[1..];
      FirstsStay(before + [rest[0]], rest[1..], id);
    }
  }

  lemma AskedGrows(elements: seq<Element>, i: nat)
    requires i < |elements|
    ensures Firsts(elements[..i + 1])
            == var asked, e := Firsts(elements[..i]), elements[i]; if e.id in asked then asked else asked[e.id := e]
  {
    assert elements[..i + 1] == elements[..i] + [elements[i]];
    FirstsGrow(elements[..i], elements[i]);
  }

  lemma AskedIsFirst(elements: seq<Element>, i: nat, id: string)
    requires i <= |elements| && id in Firsts(elements[..i])
    ensures id in Firsts(elements) && Firsts(elements)[id] == Firsts(elements[..i])[id]
  {
    assert elements == elements[..i] + elements[i..];
    FirstsStay(elements[..i], elements[i..], id);
  }

  lemma HomeOfFirst(m: Mount, id: string)
    requires id in Firsts(m.elements)
    ensures Home(m, id) == Resolved(ById(m.elements), ByFrame(m.contexts), Firsts(m.elements)[id])
  {
  }

  /** One question to the resolver, asked of the elements in their order. */
  method ReachNext(m: Mount, index: Index, i: nat) returns (inside: bool)
    requires i < |m.elements| && index.Valid() && index.asked == Firsts(m.elements[..i])
    requires index.byId == ById(m.elements) && index.byFrame == ByFrame(m.contexts)
    modifies index`cache, index`asked
    ensures index.Valid() && index.asked == Firsts(m.elements[..i + 1])
    ensures inside == Reaching(m)(m.elements[i])
  {
    var e := m.elements[i];
    AskedGrows(m.elements, i);
    var home := index.Resolve(e);
    AskedIsFirst(m.elements, i + 1, e.id);
    HomeOfFirst(m, e.id);
    return home.Some? && home.value in m.readable;
  }

  method ReadThrough(m: Mount, index: Index) returns (reached: seq<Element>)
    requires index.Valid() && index.asked == map[]
    requires index.byId == ById(m.elements) && index.byFrame == ByFrame(m.contexts)
    modifies index`cache, index`asked
    ensures reached == Filter(Reaching(m), m.elements)
  {
    ghost var reaching := Reaching(m);
    reached := [];
    var i := 0;
    while i < |m.elements|
      invariant 0 <= i <= |m.elements|
      invariant index.Valid() && index.asked == Firsts(m.elements[..i])
      invariant reached == Filter(reaching, m.elements[..i])
    {
      FilterNext(reaching, m.elements, i);
      var inside := ReachNext(m, index, i);
      if inside {
        reached := reached + [m.elements[i]];
      }
      i := i + 1;
    }
    FilterAll(reaching, m.elements);
  }

  /** The elements of the granted Contexts, read through one cached resolver. */
  method InGrantedContexts(m: Mount) returns (reached: seq<Element>)
    ensures reached == Filter(Reaching(m), m.elements)
  {
    var index := new Index(m.elements, m.contexts);
    reached := ReadThrough(m, index);
  }

  function Clearing(m: Mount): Element -> bool {
    (e: Element) => Clears(m, e.id)
  }

  /** What is left of them after the provenance gate, and how many it withheld. */
  method Cleared(m: Mount, reached: seq<Element>) returns (allowed: seq<Element>, excluded: nat)
    ensures allowed == Filter(Clearing(m), reached) && excluded == |reached| - |allowed|
  {
    allowed, excluded := [], 0;
    var eligible := Clearing(m);
    var i := 0;
    while i < |reached|
      invariant 0 <= i <= |reached|
      invariant allowed == Filter(eligible, reached[..i])
      invariant excluded == i - |allowed|
    {
      FilterNext(eligible, reached, i);
      if eligible(reached[i]) {
        allowed := allowed + [reached[i]];
      } else {
        excluded := excluded + 1;
      }
      i := i + 1;
    }
    FilterAll(eligible, reached);
  }

  lemma ReachedAndCleared(m: Mount)
    ensures Filter(Clearing(m), Filter(Reaching(m), m.elements)) == Allowed(m)
  {
    FilterTwice(Reaching(m), Clearing(m), Reader(m), m.elements);
  }

  lemma {:induction false} FilterSplits(whole: Element -> bool, kept: Element -> bool, lost: Element -> bool, s: seq<Element>)
    requires forall e :: e in s ==> (whole(e) <==> kept(e) || lost(e)) && !(kept(e) && lost(e))
    ensures |Filter(whole, s)| == |Filter(kept, s)| + |Filter(lost, s)|
  {
    if s != [] {
      FilterSplits(whole, kept, lost, s[1..]);
    }
  }

  lemma ExcludedIsTheRest(m: Mount)
    ensures |Filter(Reaching(m), m.elements)| - |Allowed(m)| == |Filter(Excluded(m), m.elements)|
  {
    forall e | e in m.elements
      ensures Reaching(m)(e) <==> Reader(m)(e) || Excluded(m)(e)
      ensures !(Reader(m)(e) && Excluded(m)(e))
    {
      ReadableExactly(m, e.id);
    }
    FilterSplits(Reaching(m), Reader(m), Excluded(m), m.elements);
  }

  /** The elements the mount may read, in their order; the others of its Contexts are counted. */
  method AllowedElements(m: Mount) returns (allowed: seq<Element>, excluded: nat)
    ensures allowed == Allowed(m) == Filter(Visible(m), m.elements)
    ensures forall e :: e in allowed <==> e in m.elements && MayRead(m, e.id)
    ensures excluded == |Filter(Excluded(m), m.elements)|
  {
    var reached := InGrantedContexts(m);
    allowed, excluded := Cleared(m, reached);
    ReachedAndCleared(m);
    ExcludedIsTheRest(m);
    AllowedExactly(m);
  }

  lemma {:induction false} CountGrows(elements: seq<Element>, e: Element, kind: string)
    ensures CountOf(elements + [e], kind) == CountOf(elements, kind) + if Kind(e) == kind then 1 else 0
  {
    if elements == [] {
      assert elements + [e] == [e];
    } else {
      assert (elements + [e])[1..] == elements[1..] + [e];
      CountGrows(elements[1..], e, kind);
    }
  }

  lemma KindsGrow(elements: seq<Element>, e: Element)
    ensures Kinds(elements + [e]) == Kinds(elements) + {Kind(e)}
  {
    forall kind ensures kind in Kinds(elements + [e]) <==> kind in Kinds(elements) || kind == Kind(e) {
      assert e in elements + [e];
      if kind in Kinds(elements) {
        var x :| x in elements && Kind(x) == kind;
        assert x in elements + [e];
      }
    }
  }

  lemma {:induction false} UncountedKind(elements: seq<Element>, kind: string)
    requires kind !in Kinds(elements)
    ensures CountOf(elements, kind) == 0
  {
    if elements != [] {
      assert elements[0] in elements && forall e :: e in elements[1..] ==> e in elements;
      UncountedKind(elements[1..], kind);
    }
  }

  method CountByType(elements: seq<Element>) returns (counts: map<string, nat>)
    ensures counts == Counts(elements)
  {
    counts := map[];
    var i := 0;
    while i < |elements|
      invariant 0 <= i <= |elements|
      invariant counts == Counts(elements[..i])
    {
      var before, e := elements[..i], elements[i];
      assert elements[..i + 1] == before + [e];
      CountsGrow(before, e);
      counts := counts[Kind(e) := CountedIn(counts, Kind(e)) + 1];
      i := i + 1;
    }
    assert elements[..i] == elements;
  }

  function CountedIn(counts: map<string, nat>, kind: string): nat {
    if kind in counts then counts[kind] else 0
  }

  lemma CountedIsCount(elements: seq<Element>, kind: string)
    ensures CountedIn(Counts(elements), kind) == CountOf(elements, kind)
  {
    if kind !in Kinds(elements) {
      UncountedKind(elements, kind);
    }
  }

  lemma CountsGrow(elements: seq<Element>, e: Element)
    ensures Counts(elements + [e]) == Counts(elements)[Kind(e) := CountedIn(Counts(elements), Kind(e)) + 1]
  {
    var was, now := Counts(elements), Counts(elements + [e]);
    KindsGrow(elements, e);
    forall kind | kind in Kinds(elements + [e])
      ensures now[kind] == CountedIn(was, kind) + if Kind(e) == kind then 1 else 0
    {
      OneMore(elements, e, kind);
    }
    CountsOneMore(was, now, Kind(e));
  }

  lemma CountsOneMore(was: map<string, nat>, now: map<string, nat>, k: string)
    requires now.Keys == was.Keys + {k}
    requires forall kind :: kind in now ==> now[kind] == CountedIn(was, kind) + if k == kind then 1 else 0
    ensures now == was[k := CountedIn(was, k) + 1]
  {
  }

  lemma OneMore(elements: seq<Element>, e: Element, kind: string)
    requires kind in Kinds(elements + [e])
    ensures Counts(elements + [e])[kind] == CountedIn(Counts(elements), kind) + if Kind(e) == kind then 1 else 0
  {
    CountGrows(elements, e, kind);
    CountedIsCount(elements, kind);
  }

  /** The neighbour ids collected in two passes, then sorted. */
  method RelatedIds(allowed: seq<Element>, allowedIds: set<string>, source: Element) returns (ids: seq<string>)
    ensures ids == Listing(SeqSet(ReadableIds(allowedIds, NamedBy(source))) + Pointing(allowed, source.id))
  {
    var named := NamedBy(source);
    var related: set<string> := {};
    var i := 0;
    while i < |named|
      invariant 0 <= i <= |named|
      invariant related == SeqSet(ReadableIds(allowedIds, named[..i]))
    {
      assert named[..i + 1] == named[..i] + [named[i]];
      ReadableAppend(allowedIds, named[..i], named[i]);
      if named[i].Some? && named[i].value in allowedIds {
        related := related + {named[i].value};
      }
      i := i + 1;
    }
    assert named[..i] == named;
    i := 0;
    ghost var mentioned := related;
    while i < |allowed|
      invariant 0 <= i <= |allowed|
      invariant related == mentioned + Pointing(allowed[..i], source.id)
    {
      assert allowed[..i + 1] == allowed[..i] + [allowed[i]];
      PointingGrows(allowed[..i], allowed[i], source.id);
      if PointsAt(allowed[i], source.id) {
        related := related + {allowed[i].id};
      }
      i := i + 1;
    }
    assert allowed[..i] == allowed;
    ids := ListSorted(related);
  }

  lemma PointingGrows(elements: seq<Element>, e: Element, id: string)
    ensures Pointing(elements + [e], id) == Pointing(elements, id) + if PointsAt(e, id) then {e.id} else {}
  {
    assert forall x :: x in elements + [e] <==> x in elements || x == e;
  }

  lemma {:induction false} ReadableAppend(allowed: set<string>, ids: seq<Option<string>>, id: Option<string>)
    ensures ReadableIds(allowed, ids + [id])
            == ReadableIds(allowed, ids) + if id.Some? && id.value in allowed then [id.value] else []
  {
    if ids == [] {
      assert ids + [id] == [id];
    } else {
      assert (ids + [id])[1..] == ids[1..] + [id];
      ReadableAppend(allowed, ids[1..], id);
    }
  }

  /** What every tool of one call reads: the filters' outcome and the indexes over it. */
  datatype Reading = Reading(byId: map<string, Element>, allowed: seq<Element>, ids: set<string>, assetIds: set<string>)

  ghost predicate Reads(m: Mount, v: Reading) {
    v == Reading(ById(m.elements), Allowed(m), AllowedIds(m), AssetIds(m.assets))
  }

  method ReadMount(m: Mount) returns (v: Reading, excluded: nat)
    ensures Reads(m, v) && excluded == |Filter(Excluded(m), m.elements)|
  {
    var allowed;
    allowed, excluded := AllowedElements(m);
    v := Reading(ById(m.elements), allowed, set e | e in allowed :: e.id, AssetIds(m.assets));
  }

  method ProjectOne(m: Mount, v: Reading, e: Element) returns (p: Projected)
    requires Reads(m, v)
    ensures p == Project(m, e)
  {
    p := ProjectElement(e, v.ids, HomeId(m, e.id), v.assetIds);
  }

  method ProjectAll(m: Mount, v: Reading, elements: seq<Element>) returns (ps: seq<Projected>)
    requires Reads(m, v)
    ensures ps == Map(Projector(m), elements)
  {
    ps := [];
    var i := 0;
    while i < |elements|
      invariant 0 <= i <= |elements| && |ps| == i
      invariant forall k :: 0 <= k < i ==> ps[k] == Project(m, elements[k])
    {
      var p := ProjectOne(m, v, elements[i]);
      ps := ps + [p];
      i := i + 1;
    }
  }

  method RequireId(m: Mount, v: Reading, id: string, error: ToolError) returns (r: Result<Element, ToolError>)
    requires Reads(m, v)
    ensures r == Require(m, id, error)
  {
    if id !in v.byId || id !in v.ids {
      return Err(error);
    }
    return Ok(v.byId[id]);
  }

  method RequireReadable(m: Mount, v: Reading, id: Arg, error: ToolError) returns (r: Result<Element, ToolError>)
    requires Reads(m, v)
    ensures r == Named(m, id, error)
  {
    if !id.Text? || id.text == "" || |id.text| > MAX_TEXT {
      return Err(InvalidToolArguments);
    }
    r := RequireId(m, v, id.text, error);
  }

  method PageTool(m: Mount, v: Reading, keep: Element -> bool, limit: Arg, fallback: nat)
    returns (r: Result<Answer, ToolError>)
    requires Reads(m, v)
    ensures r == PageOf(m, keep, limit, fallback)
  {
    var n := Limit(limit, fallback);
    if n.Err? {
      return Err(n.error);
    }
    var ps := ProjectAll(m, v, Take(n.value, Filter(keep, v.allowed)));
    return Ok(Elements(ps));
  }

  method ReadFrameTool(m: Mount, v: Reading, id: Arg, limit: Arg) returns (r: Result<Answer, ToolError>)
    requires Reads(m, v)
    ensures r == OpenFrame(m, id, limit)
  {
    var frame := RequireReadable(m, v, id, FrameNotReadable);
    frame := FrameOnly(frame);
    var n := Limit(limit, 100);
    if frame.Err? || n.Err? {
      return Err(if frame.Err? then frame.error else n.error);
    }
    var p := ProjectOne(m, v, frame.value);
    var ps := ProjectAll(m, v, Take(n.value, Filter(MemberOf(m, frame.value.id), v.allowed)));
    return Ok(Frame(p, ps));
  }

  ghost predicate Looks(v: Reading, get: string -> Result<Element, ToolError>) {
    forall id :: get(id) == if id in v.byId && id in v.ids then Ok(v.byId[id]) else Err(ElementNotReadable)
  }

  lemma RequirerLooks(m: Mount, v: Reading)
    requires Reads(m, v)
    ensures Looks(v, Requirer(m))
  {
  }

  /** Every id is required before any is projected; the first unreadable one refuses the call. */
  method RequireEach(v: Reading, ids: seq<string>, ghost get: string -> Result<Element, ToolError>)
    returns (r: Result<seq<Element>, ToolError>)
    requires Looks(v, get)
    ensures r == AllOk(get, ids)
  {
    var found: seq<Element> := [];
    var i := 0;
    while i < |ids|
      invariant 0 <= i <= |ids| && |found| == i
      invariant forall k :: 0 <= k < i ==> get(ids[k]) == Ok(found[k])
    {
      if ids[i] !in v.byId || ids[i] !in v.ids {
        AllOkMisses(get, ids, i, ElementNotReadable);
        return Err(ElementNotReadable);
      }
      found := found + [v.byId[ids[i]]];
      i := i + 1;
    }
    AllOkFinds(get, ids, found);
    return Ok(found);
  }

  method ReadElementsTool(m: Mount, v: Reading, ids: Arg) returns (r: Result<Answer, ToolError>)
    requires Reads(m, v)
    ensures r == OpenElements(m, ids)
  {
    if !ids.Items? || ids.items == [] || |ids.items| > MAX_IDS {
      return Err(InvalidToolArguments);
    }
    RequirerLooks(m, v);
    var found := RequireEach(v, ids.items, Requirer(m));
    if found.Err? {
      return Err(found.error);
    }
    var ps := ProjectAll(m, v, found.value);
    return Ok(Elements(ps));
  }

  method NeighborsTool(m: Mount, v: Reading, id: Arg, limit: Arg) returns (r: Result<Answer, ToolError>)
    requires Reads(m, v)
    ensures r == FindNeighbors(m, id, limit)
  {
    var source := RequireReadable(m, v, id, ElementNotReadable);
    var args := Limited(source, limit);
    if args.Err? {
      return Err(args.error);
    }
    var ids := RelatedIds(v.allowed, v.ids, args.value.0);
    assert ids == NeighborIds(m, args.value.0);
    return Ok(Elements(ProjectIds(m, Take(args.value.1, ids))));
  }

  method ProjectEndpoint(m: Mount, v: Reading, binding: Option<Option<string>>) returns (p: Option<Projected>)
    requires Reads(m, v)
    ensures p == Endpoint(m, binding)
  {
    if binding.None? || binding.value.None? || binding.value.value == "" || binding.value.value !in v.ids {
      return None;
    }
    AllowedAreIndexed(m);
    var e := ProjectOne(m, v, v.byId[binding.value.value]);
    return Some(e);
  }

  method FollowEdgeTool(m: Mount, v: Reading, id: Arg) returns (r: Result<Answer, ToolError>)
    requires Reads(m, v)
    ensures r == OpenEdge(m, id)
  {
    var edge := RequireReadable(m, v, id, ElementNotReadable);
    edge := EdgeOnly(edge);
    if edge.Err? {
      return Err(edge.error);
    }
    var p := ProjectOne(m, v, edge.value);
    var start := ProjectEndpoint(m, v, edge.value.startBinding);
    var end := ProjectEndpoint(m, v, edge.value.endBinding);
    return Ok(Edge(p, start, end));
  }

  method RenderTool(m: Mount, v: Reading, context: Arg) returns (r: Result<Answer, ToolError>)
    requires Reads(m, v)
    ensures r == DrawContext(m, context)
  {
    var requested := if context.Text? && context.text != "" then Some(context.text) else None;
    if requested.Some? && requested.value !in m.readable {
      return Err(FrameNotReadable);
    }
    var shown := if requested.Some? then Filter(LivesIn(m, requested.value), v.allowed) else v.allowed;
    return Ok(DrawingOf(m, shown));
  }

  method ReadAssetTool(m: Mount, v: Reading, id: Arg, mode: Arg) returns (r: Result<Answer, ToolError>)
    requires Reads(m, v)
    ensures r == if TextArg(id).Err? then Err(TextArg(id).error) else OpenAsset(m, TextArg(id).value, mode)
  {
    var asset := TextArg(id);
    if asset.Err? {
      return Err(asset.error);
    }
    var named := exists e :: e in v.allowed && e.widget.Some? && e.widget.value.assetId == asset.value;
    assert named <==> asset.value in NamedAssets(Allowed(m));
    var found := FindAsset(m.assets, asset.value);
    if !named || found.None? {
      return Err(AssetNotReadable);
    }
    return InMode(mode, found.value, Content(m, found.value));
  }

  method SearchTool(m: Mount, v: Reading, lower: string -> string, query: Arg, limit: Arg)
    returns (r: Result<Answer, ToolError>)
    requires Reads(m, v)
    ensures r == SearchFor(m, lower, query, limit)
  {
    var q := TextArg(query);
    if q.Err? {
      return Err(q.error);
    }
    r := PageTool(m, v, Mentions(lower, lower(q.value)), limit, 20);
  }

  method AnswerTool(m: Mount, v: Reading, lower: string -> string, t: Tool) returns (r: Result<Answer, ToolError>)
    requires Reads(m, v) && !t.Overview? && !t.Neighbors?
    ensures r == Answered(m, lower, t)
  {
    match t {
      case ListContexts =>
        r := Ok(Contexts(Map(Describer(m), Filter(Granted(m), m.contexts))));
      case ListFrames(limit) =>
        r := PageTool(m, v, HasKind("frame"), limit, 100);
      case ReadFrame(id, limit) =>
        r := ReadFrameTool(m, v, id, limit);
      case ReadElements(ids) =>
        r := ReadElementsTool(m, v, ids);
      case Search(query, limit) =>
        r := SearchTool(m, v, lower, query, limit);
      case FollowEdge(id) =>
        r := FollowEdgeTool(m, v, id);
      case Render(context) =>
        r := RenderTool(m, v, context);
      case ReadAsset(id, mode) =>
        r := ReadAssetTool(m, v, id, mode);
    }
  }

  method ExecuteAgentBoardTool(m: Mount, lower: string -> string, t: Tool)
    returns (r: Result<Answer, ToolError>, excluded: nat)
    ensures r == Execute(m, lower, t)
    ensures excluded == |Filter(Excluded(m), m.elements)|
  {
    var v;
    v, excluded := ReadMount(m);
    if Needs(t) !in m.capabilities {
      return Err(CapabilityMissing), excluded;
    }
    if t.Overview? {
      var counts := CountByType(v.allowed);
      r := Ok(Summary(|Filter(Granted(m), m.contexts)|, |v.allowed|, counts));
    } else if t.Neighbors? {
      r := NeighborsTool(m, v, t.element, t.limit);
    } else {
      r := AnswerTool(m, v, lower, t);
    }
  }
}
