/**
 * What the board tools cannot reveal: answers depend only on the mount's view, name nothing
 * outside it, and do not move when anything unreadable is edited.
 */
module BoardConfinement {
  import opened Wrappers
  import opened Scene
  import opened Sequences
  import opened Ordering
  import opened ContextIndex
  import opened BoardTools

  // ---- the same view gives the same answer ----

  datatype View = View(
    elements: seq<Element>, homes: map<string, string>, contexts: seq<Context>, readable: set<string>,
    capabilities: set<Capability>, assets: seq<Asset>, files: map<string, string>, stored: map<string, Stored>)

  function Homes(m: Mount): map<string, string> {
    map id | id in AllowedIds(m) :: HomeId(m, id)
  }

  function Restrict<T>(entries: map<string, T>, names: set<string>): map<string, T> {
    map n | n in entries && n in names :: entries[n]
  }

  /** The readable elements with their Contexts, the readable Contexts, and what those elements name. */
  function ViewOf(m: Mount): View {
    View(
      Allowed(m), Homes(m), Filter(Granted(m), m.contexts), m.readable, m.capabilities,
      Filter(AssetIn(NamedAssets(Allowed(m))), m.assets),
      Restrict(m.files, NamedFiles(Allowed(m))), Restrict(m.stored, NamedAssets(Allowed(m))))
  }

  /** What a mounted revision was checked for when it was stored. */
  ghost predicate Validated(m: Mount) {
    Frames.FramesValid(ById(m.elements), m.contexts) && forall c :: c in m.contexts ==> c.id != ""
  }

  ghost predicate SameLookup(a: seq<Element>, b: seq<Element>, id: string) {
    (id in ById(a) <==> id in ById(b)) && (id in ById(a) ==> ById(a)[id] == ById(b)[id])
  }

  lemma SameLookupGrows(a: seq<Element>, b: seq<Element>, last: Element, id: string)
    requires SameLookup(a, b, id)
    ensures SameLookup(a + [last], b + [last], id) && (last.id != id ==> SameLookup(a + [last], b, id))
  {
    ByIdAppend(a, last);
    ByIdAppend(b, last);
  }

  /** Readability goes by id, so looking an id up among the readable elements finds the same one. */
  lemma {:induction false} LookupStaysInside(keep: Element -> bool, elements: seq<Element>, id: string)
    requires forall e :: e in elements && e.id == id ==> keep(e)
    ensures SameLookup(elements, Filter(keep, elements), id)
  {
    if elements != [] {
      var before, last := elements[..|elements| - 1], elements[|elements| - 1];
      assert elements == before + [last];
      LookupStaysInside(keep, before, id);
      SameLookupGrows(before, Filter(keep, before), last, id);
      FilterAppendOne(keep, before, last);
    }
  }

  lemma Lookup(m: Mount, id: string)
    requires id in AllowedIds(m)
    ensures id in ById(Allowed(m)) && id in ById(m.elements)
    ensures ById(m.elements)[id] == ById(Allowed(m))[id] && ById(m.elements)[id] in Allowed(m)
  {
    LookupStaysInside(Reader(m), m.elements, id);
  }

  lemma SameAssetIds(named: set<string>, a: seq<Asset>, b: seq<Asset>, id: string)
    requires Filter(AssetIn(named), a) == Filter(AssetIn(named), b) && id in named
    ensures id in AssetIds(a) ==> id in AssetIds(b)
  {
    if id in AssetIds(a) {
      var x :| x in a && x.id == id;
      assert AssetIn(named)(x);
      assert x in Filter(AssetIn(named), b);
    }
  }

  lemma SameRestricted<T>(names: set<string>, a: map<string, T>, b: map<string, T>, n: string)
    requires Restrict(a, names) == Restrict(b, names) && n in names
    ensures n in a <==> n in b
    ensures n in a ==> a[n] == b[n]
  {
    assert n in a <==> n in Restrict(a, names);
    assert n in b <==> n in Restrict(b, names);
  }

  lemma SameAsset(m: Mount, k: Mount, id: string)
    requires ViewOf(m) == ViewOf(k) && id in NamedAssets(Allowed(m))
    ensures id in AssetIds(m.assets) <==> id in AssetIds(k.assets)
    ensures id in m.stored <==> id in k.stored
    ensures id in m.stored ==> m.stored[id] == k.stored[id]
  {
    var named := NamedAssets(Allowed(m));
    SameAssetIds(named, m.assets, k.assets, id);
    SameAssetIds(named, k.assets, m.assets, id);
    SameRestricted(named, m.stored, k.stored, id);
  }

  lemma SameProjection(m: Mount, k: Mount, e: Element)
    requires ViewOf(m) == ViewOf(k) && e in Allowed(m)
    ensures Project(m, e) == Project(k, e)
  {
    assert AllowedIds(m) == AllowedIds(k);
    assert HomeId(m, e.id) == ViewOf(m).homes[e.id] == ViewOf(k).homes[e.id] == HomeId(k, e.id);
    if e.widget.Some? {
      SameAsset(m, k, e.widget.value.assetId);
    }
  }

  lemma SameProjections(m: Mount, k: Mount, s: seq<Element>)
    requires ViewOf(m) == ViewOf(k) && forall e :: e in s ==> e in Allowed(m)
    ensures Map(Projector(m), s) == Map(Projector(k), s)
  {
    forall e | e in s ensures Projector(m)(e) == Projector(k)(e) {
      SameProjection(m, k, e);
    }
    MapAgrees(Projector(m), Projector(k), s);
  }

  lemma SameElement(m: Mount, k: Mount, id: string)
    requires ViewOf(m) == ViewOf(k) && id in AllowedIds(m)
    ensures id in AllowedIds(k) && id in ById(m.elements) && id in ById(k.elements)
    ensures ById(m.elements)[id] == ById(k.elements)[id] && ById(m.elements)[id] in Allowed(m)
  {
    Lookup(m, id);
    Lookup(k, id);
  }

  lemma SameRequired(m: Mount, k: Mount, id: string, error: ToolError)
    requires ViewOf(m) == ViewOf(k)
    ensures Require(m, id, error) == Require(k, id, error)
    ensures Require(m, id, error).Ok? ==>
              Require(m, id, error).value in Allowed(m) && Require(m, id, error).value.id in AllowedIds(m)
  {
    if id in AllowedIds(m) {
      SameElement(m, k, id);
    }
  }

  lemma SameRequirers(m: Mount, k: Mount)
    requires ViewOf(m) == ViewOf(k)
    ensures forall id :: Requirer(m)(id) == Requirer(k)(id)
    ensures forall id :: Requirer(m)(id).Ok? ==> Requirer(m)(id).value in Allowed(m)
  {
    forall id
      ensures Requirer(m)(id) == Requirer(k)(id) && (Requirer(m)(id).Ok? ==> Requirer(m)(id).value in Allowed(m))
    {
      SameRequired(m, k, id, ElementNotReadable);
    }
  }

  lemma GottenAllOf(get: string -> Result<Element, ToolError>, allowed: seq<Element>, ids: seq<string>)
    requires forall id :: get(id).Ok? ==> get(id).value in allowed
    ensures AllOk(get, ids).Ok? ==> forall e :: e in AllOk(get, ids).value ==> e in allowed
  {
    if AllOk(get, ids).Ok? {
      AllOkAt(get, ids);
    }
  }

  lemma SameRequiredAll(m: Mount, k: Mount, ids: seq<string>)
    requires ViewOf(m) == ViewOf(k)
    ensures RequireAll(m, ids) == RequireAll(k, ids)
    ensures RequireAll(m, ids).Ok? ==> forall e :: e in RequireAll(m, ids).value ==> e in Allowed(m)
  {
    SameRequirers(m, k);
    AllOkAgrees(Requirer(m), Requirer(k), ids);
    GottenAllOf(Requirer(m), Allowed(m), ids);
  }

  lemma SameProjectedId(m: Mount, k: Mount, id: string)
    requires ViewOf(m) == ViewOf(k) && id in AllowedIds(m) && id in ById(m.elements) && id in ById(k.elements)
    ensures Project(m, ById(m.elements)[id]) == Project(k, ById(k.elements)[id])
  {
    SameElement(m, k, id);
    SameProjection(m, k, ById(m.elements)[id]);
  }

  lemma SameProjectedIds(m: Mount, k: Mount, ids: seq<string>)
    requires ViewOf(m) == ViewOf(k) && forall id :: id in ids ==> id in AllowedIds(m)
    requires forall id :: id in ids ==> id in ById(m.elements) && id in ById(k.elements)
    ensures ProjectIds(m, ids) == ProjectIds(k, ids)
  {
    forall n | 0 <= n < |ids| ensures ProjectIds(m, ids)[n] == ProjectIds(k, ids)[n] {
      SameProjectedId(m, k, ids[n]);
    }
  }

  lemma SameNeighbourhood(m: Mount, k: Mount, source: Element, n: nat)
    requires ViewOf(m) == ViewOf(k)
    ensures Neighbourhood(m, source, n) == Neighbourhood(k, source, n)
  {
    assert AllowedIds(m) == AllowedIds(k);
    assert Related(m, source) == Related(k, source);
    SameProjectedIds(m, k, Take(n, NeighborIds(m, source)));
  }

  lemma SameEndpoint(m: Mount, k: Mount, binding: Option<Option<string>>)
    requires ViewOf(m) == ViewOf(k)
    ensures Endpoint(m, binding) == Endpoint(k, binding)
  {
    assert AllowedIds(m) == AllowedIds(k);
    if binding.Some? && binding.value.Some? && binding.value.value in AllowedIds(m) {
      SameElement(m, k, binding.value.value);
      SameProjection(m, k, ById(m.elements)[binding.value.value]);
    }
  }

  lemma SameHome(m: Mount, k: Mount, e: Element)
    requires ViewOf(m) == ViewOf(k) && e in Allowed(m)
    ensures Home(m, e.id).Some? && Home(m, e.id) == Home(k, e.id)
  {
    assert e.id in AllowedIds(m) && e.id in AllowedIds(k);
    assert HomeId(m, e.id) == ViewOf(m).homes[e.id] == ViewOf(k).homes[e.id] == HomeId(k, e.id);
    assert e in Allowed(k);
  }

  lemma SameFile(m: Mount, k: Mount, file: string)
    requires ViewOf(m) == ViewOf(k) && file in NamedFiles(Allowed(m))
    ensures file in m.files <==> file in k.files
    ensures file in m.files ==> m.files[file] == k.files[file]
  {
    SameRestricted(NamedFiles(Allowed(m)), m.files, k.files, file);
  }

  lemma {:induction false} SameFileHashes(files: map<string, string>, others: map<string, string>, shown: seq<Element>)
    requires forall f :: f in NamedFiles(shown) ==>
               (f in files <==> f in others) && (f in files ==> files[f] == others[f])
    ensures FileHashes(files, shown) == FileHashes(others, shown)
  {
    if shown != [] {
      assert shown == [shown[0]] + shown[1..];
      assert NamedFiles(shown[1..]) <= NamedFiles(shown);
      SameFileHashes(files, others, shown[1..]);
      assert shown[0].fileId.Some? ==> shown[0].fileId.value in NamedFiles(shown);
    }
  }

  lemma ShownAssets(m: Mount, shown: seq<Element>)
    requires forall e :: e in shown ==> e in Allowed(m)
    ensures Filter(AssetIn(NamedAssets(shown) - {""}), m.assets)
            == Filter(AssetIn(NamedAssets(shown) - {""}), Filter(AssetIn(NamedAssets(Allowed(m))), m.assets))
  {
    FilterAfter(AssetIn(NamedAssets(Allowed(m))), AssetIn(NamedAssets(shown) - {""}), m.assets);
  }

  lemma SameDrawing(m: Mount, k: Mount, shown: seq<Element>)
    requires ViewOf(m) == ViewOf(k) && forall e :: e in shown ==> e in Allowed(m)
    ensures DrawingOf(m, shown) == DrawingOf(k, shown)
  {
    ShownAssets(m, shown);
    ShownAssets(k, shown);
    forall f | f in NamedFiles(shown)
      ensures f in m.files <==> f in k.files
      ensures f in m.files ==> m.files[f] == k.files[f]
    {
      assert f in NamedFiles(Allowed(m));
      SameFile(m, k, f);
    }
    SameFileHashes(m.files, k.files, shown);
  }

  lemma FindCons(a: Asset, rest: seq<Asset>, id: string)
    ensures FindAsset([a] + rest, id) == if a.id == id then Some(a) else FindAsset(rest, id)
  {
    assert ([a] + rest)[1..] == rest;
  }

  lemma {:induction false} FindNamed(assets: seq<Asset>, ids: set<string>, id: string)
    requires id in ids
    ensures FindAsset(Filter(AssetIn(ids), assets), id) == FindAsset(assets, id)
  {
    if assets != [] {
      var first, rest := assets[0], assets[1..];
      assert assets == [first] + rest;
      FindNamed(rest, ids, id);
      FindCons(first, rest, id);
      FindCons(first, Filter(AssetIn(ids), rest), id);
      if first.id !in ids {
        assert Filter(AssetIn(ids), assets) == Filter(AssetIn(ids), rest);
      }
    }
  }

  lemma {:induction false} FoundHasId(assets: seq<Asset>, id: string)
    ensures FindAsset(assets, id).Some? ==> FindAsset(assets, id).value in assets && FindAsset(assets, id).value.id == id
  {
    if assets != [] {
      FoundHasId(assets[1..], id);
    }
  }

  lemma SameFound(m: Mount, k: Mount, id: string)
    requires ViewOf(m) == ViewOf(k) && id in NamedAssets(Allowed(m))
    ensures FindAsset(m.assets, id) == FindAsset(k.assets, id)
  {
    FindNamed(m.assets, NamedAssets(Allowed(m)), id);
    FindNamed(k.assets, NamedAssets(Allowed(m)), id);
    assert ViewOf(m).assets == ViewOf(k).assets;
  }

  lemma SameContent(m: Mount, k: Mount, a: Asset)
    requires a.id in m.stored <==> a.id in k.stored
    requires a.id in m.stored ==> m.stored[a.id] == k.stored[a.id]
    ensures Content(m, a) == Content(k, a)
  {
  }

  lemma SameFoundContent(m: Mount, k: Mount, id: string)
    requires ViewOf(m) == ViewOf(k) && id in NamedAssets(Allowed(m))
    ensures FindAsset(m.assets, id) == FindAsset(k.assets, id)
    ensures FindAsset(m.assets, id).Some? ==>
              Content(m, FindAsset(m.assets, id).value) == Content(k, FindAsset(m.assets, id).value)
  {
    SameFound(m, k, id);
    SameAsset(m, k, id);
    FoundHasId(m.assets, id);
    if FindAsset(m.assets, id).Some? {
      SameContent(m, k, FindAsset(m.assets, id).value);
    }
  }

  lemma SameAssetInReach(m: Mount, k: Mount, id: string)
    requires ViewOf(m) == ViewOf(k)
    ensures AssetInReach(m, id) == AssetInReach(k, id)
  {
    assert NamedAssets(Allowed(m)) == NamedAssets(Allowed(k));
    if id in NamedAssets(Allowed(m)) {
      SameFoundContent(m, k, id);
    }
  }

  lemma NearestIsItself(byId: map<string, Element>, byFrame: map<string, string>, e: Element)
    requires e.id in byFrame && byFrame[e.id] != ""
    ensures Resolved(byId, byFrame, e) == Some(byFrame[e.id])
  {
  }

  lemma FrameOfContext(m: Mount, c: Context)
    requires Validated(m) && c in m.contexts
    ensures c.frame in ById(m.elements) && Frames.FrameBounds(ById(m.elements)[c.frame]).Some?
    ensures c.frame in ByFrame(m.contexts) && ByFrame(m.contexts)[c.frame] == c.id
  {
    var i :| 0 <= i < |m.contexts| && m.contexts[i] == c;
    assert Frames.Refuse(ById(m.elements), m.contexts, i).None?;
    var d :| d in m.contexts && d.frame == c.frame && d.id == ByFrame(m.contexts)[c.frame];
    var j :| 0 <= j < |m.contexts| && m.contexts[j] == d;
    assert Frames.Refuse(ById(m.elements), m.contexts, j).None?;
    assert i == j;
  }

  lemma ReadableIsAllowed(m: Mount, e: Element)
    requires e in m.elements && Readable(m, e.id)
    ensures e in Allowed(m) && e.id in AllowedIds(m)
  {
  }

  lemma FrameIsHome(m: Mount, id: string)
    requires id in Firsts(m.elements) && id in ByFrame(m.contexts) && ByFrame(m.contexts)[id] != ""
    ensures Home(m, id) == Some(ByFrame(m.contexts)[id])
  {
    var n := FirstsKeepTheFirst(m.elements, id);
    NearestIsItself(ById(m.elements), ByFrame(m.contexts), Firsts(m.elements)[id]);
  }

  /** The frame of a readable Context is readable, whatever its provenance. */
  lemma FrameIsAllowed(m: Mount, c: Context)
    requires Validated(m) && c in m.contexts && c.id in m.readable
    ensures c.frame in AllowedIds(m) && Home(m, c.frame) == Some(c.id)
  {
    FrameOfContext(m, c);
    FirstsHold(m.elements, ById(m.elements)[c.frame]);
    FrameIsHome(m, c.frame);
    ReadableIsAllowed(m, ById(m.elements)[c.frame]);
  }

  lemma SameContexts(m: Mount, k: Mount)
    requires Validated(m) && Validated(k) && ViewOf(m) == ViewOf(k)
    ensures Map(Describer(m), Filter(Granted(m), m.contexts)) == Map(Describer(k), Filter(Granted(k), k.contexts))
  {
    var granted := Filter(Granted(m), m.contexts);
    assert granted == Filter(Granted(k), k.contexts);
    forall c | c in granted ensures Describer(m)(c) == Describer(k)(c) {
      FrameIsAllowed(m, c);
      SameElement(m, k, c.frame);
    }
    MapAgrees(Describer(m), Describer(k), granted);
  }

  lemma SameFrameAndMembers(m: Mount, k: Mount, frame: Element, n: nat)
    requires ViewOf(m) == ViewOf(k) && frame in Allowed(m)
    ensures FrameAndMembers(m, frame, n) == FrameAndMembers(k, frame, n)
  {
    SameProjection(m, k, frame);
    SameHome(m, k, frame);
    forall e | e in Allowed(m) ensures MemberOf(m, frame.id)(e) == MemberOf(k, frame.id)(e) {
      SameHome(m, k, e);
    }
    FilterAgrees(MemberOf(m, frame.id), MemberOf(k, frame.id), Allowed(m));
    SameProjections(m, k, Take(n, Filter(MemberOf(m, frame.id), Allowed(m))));
  }

  lemma SameNamed(m: Mount, k: Mount, id: Arg, error: ToolError)
    requires ViewOf(m) == ViewOf(k)
    ensures Named(m, id, error) == Named(k, id, error)
    ensures Named(m, id, error).Ok? ==> Named(m, id, error).value in Allowed(m)
  {
    if TextArg(id).Ok? {
      SameRequired(m, k, id.text, error);
    }
  }

  lemma FrameArgsAreNamed(m: Mount, id: Arg, limit: Arg)
    ensures FrameArgs(m, id, limit).Ok? ==>
              var e := Named(m, id, FrameNotReadable); e.Ok? && FrameArgs(m, id, limit).value.0 == e.value
  {
  }

  lemma SameFrameArgs(m: Mount, k: Mount, id: Arg, limit: Arg)
    requires ViewOf(m) == ViewOf(k)
    ensures FrameArgs(m, id, limit) == FrameArgs(k, id, limit)
    ensures FrameArgs(m, id, limit).Ok? ==> FrameArgs(m, id, limit).value.0 in Allowed(m)
  {
    SameNamed(m, k, id, FrameNotReadable);
    FrameArgsAreNamed(m, id, limit);
  }

  lemma SameShown(m: Mount, k: Mount, args: Result<(Element, nat), ToolError>)
    requires ViewOf(m) == ViewOf(k) && (args.Ok? ==> args.value.0 in Allowed(m))
    ensures ShowFrame(m, args) == ShowFrame(k, args)
  {
    if args.Ok? {
      SameFrameAndMembers(m, k, args.value.0, args.value.1);
    }
  }

  lemma SameFrame(m: Mount, k: Mount, id: Arg, limit: Arg)
    requires ViewOf(m) == ViewOf(k)
    ensures OpenFrame(m, id, limit) == OpenFrame(k, id, limit)
  {
    SameFrameArgs(m, k, id, limit);
    SameShown(m, k, FrameArgs(m, id, limit));
  }

  lemma SameContextDrawing(m: Mount, k: Mount, context: string)
    requires ViewOf(m) == ViewOf(k)
    ensures DrawingOf(m, Filter(LivesIn(m, context), Allowed(m))) == DrawingOf(k, Filter(LivesIn(k, context), Allowed(k)))
  {
    forall e | e in Allowed(m) ensures LivesIn(m, context)(e) == LivesIn(k, context)(e) {
      SameHome(m, k, e);
    }
    FilterAgrees(LivesIn(m, context), LivesIn(k, context), Allowed(m));
    SameDrawing(m, k, Filter(LivesIn(m, context), Allowed(m)));
  }

  lemma SameRender(m: Mount, k: Mount, context: Arg)
    requires ViewOf(m) == ViewOf(k)
    ensures DrawContext(m, context) == DrawContext(k, context)
  {
    assert m.readable == ViewOf(m).readable == ViewOf(k).readable == k.readable;
    if !context.Text? || context.text == "" {
      assert Allowed(m) == Allowed(k);
      SameDrawing(m, k, Allowed(m));
    } else {
      SameContextDrawing(m, k, context.text);
    }
  }

  lemma SamePage(m: Mount, k: Mount, keep: Element -> bool, limit: Arg, fallback: nat)
    requires ViewOf(m) == ViewOf(k)
    ensures PageOf(m, keep, limit, fallback) == PageOf(k, keep, limit, fallback)
  {
    var n := Limit(limit, fallback);
    if n.Ok? {
      SameProjections(m, k, Take(n.value, Filter(keep, Allowed(m))));
    }
  }

  lemma SameSearch(m: Mount, k: Mount, lower: string -> string, query: Arg, limit: Arg)
    requires ViewOf(m) == ViewOf(k)
    ensures SearchFor(m, lower, query, limit) == SearchFor(k, lower, query, limit)
  {
    var q := TextArg(query);
    if q.Ok? {
      SamePage(m, k, Mentions(lower, lower(q.value)), limit, 20);
    }
  }

  lemma SameElements(m: Mount, k: Mount, ids: Arg)
    requires ViewOf(m) == ViewOf(k)
    ensures OpenElements(m, ids) == OpenElements(k, ids)
  {
    if ids.Items? {
      SameRequiredAll(m, k, ids.items);
      if RequireAll(m, ids.items).Ok? {
        SameProjections(m, k, RequireAll(m, ids.items).value);
      }
    }
  }

  lemma SameShownNeighbors(m: Mount, k: Mount, args: Result<(Element, nat), ToolError>)
    requires ViewOf(m) == ViewOf(k)
    ensures ShowNeighbors(m, args) == ShowNeighbors(k, args)
  {
    if args.Ok? {
      SameNeighbourhood(m, k, args.value.0, args.value.1);
    }
  }

  lemma SameNeighbors(m: Mount, k: Mount, id: Arg, limit: Arg)
    requires ViewOf(m) == ViewOf(k)
    ensures FindNeighbors(m, id, limit) == FindNeighbors(k, id, limit)
  {
    SameNamed(m, k, id, ElementNotReadable);
    SameShownNeighbors(m, k, Limited(Named(m, id, ElementNotReadable), limit));
  }

  lemma EdgeIsNamed(m: Mount, id: Arg)
    ensures var e := EdgeOnly(Named(m, id, ElementNotReadable));
            e.Ok? ==> e == Named(m, id, ElementNotReadable) && e.value in Allowed(m)
  {
    SameNamed(m, m, id, ElementNotReadable);
  }

  lemma SameShownEdge(m: Mount, k: Mount, edge: Result<Element, ToolError>)
    requires ViewOf(m) == ViewOf(k) && (edge.Ok? ==> edge.value in Allowed(m))
    ensures ShowEdge(m, edge) == ShowEdge(k, edge)
  {
    if edge.Ok? {
      SameProjection(m, k, edge.value);
      SameEndpoint(m, k, edge.value.startBinding);
      SameEndpoint(m, k, edge.value.endBinding);
    }
  }

  lemma SameEdge(m: Mount, k: Mount, id: Arg)
    requires ViewOf(m) == ViewOf(k)
    ensures OpenEdge(m, id) == OpenEdge(k, id)
  {
    SameNamed(m, k, id, ElementNotReadable);
    EdgeIsNamed(m, id);
    SameShownEdge(m, k, EdgeOnly(Named(m, id, ElementNotReadable)));
  }

  lemma SameAnswered(m: Mount, k: Mount, lower: string -> string, t: Tool)
    requires Validated(m) && Validated(k) && ViewOf(m) == ViewOf(k) && !t.Overview? && !t.Neighbors?
    ensures Answered(m, lower, t) == Answered(k, lower, t)
  {
    if t.ListContexts? {
      SameContexts(m, k);
    } else if t.ListFrames? {
      SamePage(m, k, HasKind("frame"), t.limit, 100);
    } else if t.ReadFrame? {
      SameFrame(m, k, t.frame, t.limit);
    } else if t.ReadElements? {
      SameElements(m, k, t.ids);
    } else if t.Search? {
      SameSearch(m, k, lower, t.query, t.limit);
    } else if t.FollowEdge? {
      SameEdge(m, k, t.edge);
    } else if t.Render? {
      SameRender(m, k, t.context);
    } else if TextArg(t.asset).Ok? {
      SameAssetInReach(m, k, t.asset.text);
    }
  }

  /** Two mounts with the same view give the same answer, or the same error, to every tool call. */
  lemma SameViewSameAnswer(m: Mount, k: Mount, lower: string -> string, t: Tool)
    requires Validated(m) && Validated(k) && ViewOf(m) == ViewOf(k)
    ensures Execute(m, lower, t) == Execute(k, lower, t)
  {
    assert m.capabilities == ViewOf(m).capabilities == ViewOf(k).capabilities == k.capabilities;
    if t.Overview? {
      assert Allowed(m) == Allowed(k) && Filter(Granted(m), m.contexts) == Filter(Granted(k), k.contexts);
    } else if t.Neighbors? {
      SameNeighbors(m, k, t.element, t.limit);
    } else {
      SameAnswered(m, k, lower, t);
    }
  }

  // ---- nothing unreadable is named ----

  function OptionSet(o: Option<string>): set<string> {
    if o.Some? then {o.value} else {}
  }

  function Nested(o: Option<Option<string>>): set<string> {
    if o.Some? then OptionSet(o.value) else {}
  }

  /** Every element id a projection carries. */
  function IdsOf(p: Projected): set<string> {
    {p.id} + OptionSet(p.frameId) + Nested(p.containerId) + Nested(p.startId) + Nested(p.endId)
    + if p.boundIds.Some? then SeqSet(p.boundIds.value) else {}
  }

  ghost predicate Inside(m: Mount, p: Projected) {
    && IdsOf(p) <= AllowedIds(m)
    && p.contextId in m.readable
    && (p.asset.Some? ==> p.asset.value.assetId in NamedAssets(Allowed(m)))
  }

  ghost predicate AllInside(m: Mount, ps: seq<Projected>) {
    forall p :: p in ps ==> Inside(m, p)
  }

  ghost predicate HashInside(m: Mount, h: Hash) {
    h.asset in NamedAssets(Allowed(m))
    || exists f :: f in NamedFiles(Allowed(m)) && h == Hash("file:" + f, if f in m.files then m.files[f] else "")
  }

  ghost predicate ShapeInside(m: Mount, s: Shape) {
    exists e :: e in Allowed(m) && s == Outline(e)
  }

  ghost predicate Confined(m: Mount, a: Answer) {
    match a
    case Summary(_, _, _) => true
    case Contexts(contexts) => forall c :: c in contexts ==> c.id in m.readable && c.frame in AllowedIds(m) && c.bounds.Some?
    case Elements(elements) => AllInside(m, elements)
    case Frame(frame, members) => Inside(m, frame) && AllInside(m, members)
    case Edge(edge, start, end) =>
      Inside(m, edge) && (start.Some? ==> Inside(m, start.value)) && (end.Some? ==> Inside(m, end.value))
    case Drawing(hashes, shapes) =>
      (forall h :: h in hashes ==> HashInside(m, h)) && forall s :: s in shapes ==> ShapeInside(m, s)
    case AssetMetadata(asset) => asset in m.assets && asset.id in NamedAssets(Allowed(m))
    case AssetContent(asset, _, _) => asset in m.assets && asset.id in NamedAssets(Allowed(m))
  }

  lemma SortedInside(allowed: set<string>, ids: seq<Option<string>>, id: string)
    requires id in SortBy(LeqString, ReadableIds(allowed, ids))
    ensures id in allowed
  {
    SortHolds(LeqString, ReadableIds(allowed, ids), id);
  }

  lemma BoundIdsInside(allowed: set<string>, ids: seq<Option<string>>)
    ensures SeqSet(SortBy(LeqString, ReadableIds(allowed, ids))) <= allowed
  {
    forall id | id in SortBy(LeqString, ReadableIds(allowed, ids)) ensures id in allowed {
      SortedInside(allowed, ids, id);
    }
  }

  lemma ProjectedIdsInside(allowed: set<string>, e: Element, contextId: string, assetIds: set<string>)
    requires e.id in allowed
    ensures IdsOf(ProjectElement(e, allowed, contextId, assetIds)) <= allowed
  {
    var p := ProjectElement(e, allowed, contextId, assetIds);
    if e.boundIds.Some? {
      BoundIdsInside(allowed, e.boundIds.value);
    }
    assert Nested(p.containerId) <= allowed && Nested(p.startId) <= allowed && Nested(p.endId) <= allowed;
    assert OptionSet(p.frameId) <= allowed;
  }

  lemma HomeIsReadable(m: Mount, e: Element)
    requires e in Allowed(m)
    ensures e.id in AllowedIds(m) && HomeId(m, e.id) in m.readable
  {
  }

  lemma ProjectionIsInside(m: Mount, e: Element)
    requires e in Allowed(m)
    ensures Inside(m, Project(m, e))
  {
    HomeIsReadable(m, e);
    ProjectedIdsInside(AllowedIds(m), e, HomeId(m, e.id), AssetIds(m.assets));
    var p := Project(m, e);
    assert p.asset.Some? ==> p.asset == e.widget;
  }

  lemma ProjectionsAreInside(m: Mount, s: seq<Element>)
    requires forall e :: e in s ==> e in Allowed(m)
    ensures AllInside(m, Map(Projector(m), s))
  {
    forall p | p in Map(Projector(m), s) ensures Inside(m, p) {
      var i :| 0 <= i < |s| && Map(Projector(m), s)[i] == p;
      ProjectionIsInside(m, s[i]);
    }
  }

  lemma ProjectedIdIsInside(m: Mount, id: string)
    requires id in ById(m.elements) && id in AllowedIds(m)
    ensures Inside(m, Project(m, ById(m.elements)[id]))
  {
    Lookup(m, id);
    ProjectionIsInside(m, ById(m.elements)[id]);
  }

  lemma ProjectedIdsAreInside(m: Mount, ids: seq<string>)
    requires forall id :: id in ids ==> id in ById(m.elements) && id in AllowedIds(m)
    ensures AllInside(m, ProjectIds(m, ids))
  {
    var ps := ProjectIds(m, ids);
    forall k | 0 <= k < |ps| ensures Inside(m, ps[k]) {
      ProjectedIdIsInside(m, ids[k]);
    }
  }

  lemma NeighbourhoodIsInside(m: Mount, source: Element, n: nat)
    ensures Confined(m, Neighbourhood(m, source, n))
  {
    ProjectedIdsAreInside(m, Take(n, NeighborIds(m, source)));
  }

  lemma EndpointIsInside(m: Mount, binding: Option<Option<string>>)
    ensures Endpoint(m, binding).Some? ==> Inside(m, Endpoint(m, binding).value)
  {
    if Endpoint(m, binding).Some? {
      Lookup(m, binding.value.value);
      ProjectionIsInside(m, ById(m.elements)[binding.value.value]);
    }
  }

  lemma {:induction false} FileHashesInside(m: Mount, shown: seq<Element>, h: Hash)
    requires forall e :: e in shown ==> e in Allowed(m)
    requires h in FileHashes(m.files, shown)
    ensures HashInside(m, h)
  {
    var file, rest := shown[0].fileId, FileHashes(m.files, shown[1..]);
    if h in rest {
      FileHashesInside(m, shown[1..], h);
    } else {
      assert shown[0] in Allowed(m);
      assert file.value in NamedFiles(Allowed(m));
    }
  }

  lemma DrawingIsInside(m: Mount, shown: seq<Element>)
    requires forall e :: e in shown ==> e in Allowed(m)
    ensures Confined(m, DrawingOf(m, shown))
  {
    var kept := Filter(AssetIn(NamedAssets(shown) - {""}), m.assets);
    var hashes := Map(Hasher(), kept) + FileHashes(m.files, shown);
    forall h | h in SortBy(HashLeq, hashes) ensures HashInside(m, h) {
      SortHolds(HashLeq, hashes, h);
      if h in FileHashes(m.files, shown) {
        FileHashesInside(m, shown, h);
      } else {
        var i :| 0 <= i < |kept| && Map(Hasher(), kept)[i] == h;
        assert kept[i] in kept;
      }
    }
    forall s | s in Map(Outliner(), shown) ensures ShapeInside(m, s) {
      var i :| 0 <= i < |shown| && Map(Outliner(), shown)[i] == s;
      assert shown[i] in Allowed(m);
    }
  }

  lemma ContextsAreInside(m: Mount)
    requires Validated(m)
    ensures Confined(m, Contexts(Map(Describer(m), Filter(Granted(m), m.contexts))))
  {
    var granted := Filter(Granted(m), m.contexts);
    forall s | s in Map(Describer(m), granted)
      ensures s.id in m.readable && s.frame in AllowedIds(m) && s.bounds.Some?
    {
      var i :| 0 <= i < |granted| && Map(Describer(m), granted)[i] == s;
      assert granted[i] in granted;
      FrameOfContext(m, granted[i]);
      FrameIsAllowed(m, granted[i]);
    }
  }

  lemma ModesAnswer(mode: Arg, a: Asset, content: Result<Answer, ToolError>)
    ensures var r := InMode(mode, a, content); r.Ok? ==> r == Ok(AssetMetadata(a)) || r == content
  {
  }

  lemma ContentIsOfAsset(m: Mount, a: Asset)
    ensures Content(m, a).Ok? ==> Content(m, a).value.AssetContent? && Content(m, a).value.asset == a
  {
  }

  lemma AssetInReachIsNamed(m: Mount, id: string)
    ensures var r := AssetInReach(m, id);
            r.Some? ==> r.value.0 in m.assets && r.value.0.id in NamedAssets(Allowed(m)) && r.value.1 == Content(m, r.value.0)
  {
    FoundHasId(m.assets, id);
  }

  lemma AssetIsInside(m: Mount, id: string, mode: Arg)
    ensures OpenAsset(m, id, mode).Ok? ==> Confined(m, OpenAsset(m, id, mode).value)
  {
    AssetInReachIsNamed(m, id);
    var reached := AssetInReach(m, id);
    if reached.Some? {
      ModesAnswer(mode, reached.value.0, reached.value.1);
      ContentIsOfAsset(m, reached.value.0);
    }
  }

  lemma RequiredAllAreAllowed(m: Mount, ids: seq<string>)
    ensures RequireAll(m, ids).Ok? ==> forall e :: e in RequireAll(m, ids).value ==> e in Allowed(m)
  {
    SameRequiredAll(m, m, ids);
  }

  lemma ShownIsInside(m: Mount, args: Result<(Element, nat), ToolError>)
    requires args.Ok? && args.value.0 in Allowed(m)
    ensures Confined(m, ShowFrame(m, args).value)
  {
    ProjectionIsInside(m, args.value.0);
    ProjectionsAreInside(m, Take(args.value.1, Filter(MemberOf(m, args.value.0.id), Allowed(m))));
  }

  lemma FrameIsInside(m: Mount, id: Arg, limit: Arg)
    ensures OpenFrame(m, id, limit).Ok? ==> Confined(m, OpenFrame(m, id, limit).value)
  {
    SameFrameArgs(m, m, id, limit);
    if FrameArgs(m, id, limit).Ok? {
      ShownIsInside(m, FrameArgs(m, id, limit));
    }
  }

  lemma PageIsInside(m: Mount, keep: Element -> bool, limit: Arg, fallback: nat)
    ensures PageOf(m, keep, limit, fallback).Ok? ==> Confined(m, PageOf(m, keep, limit, fallback).value)
  {
    var n := Limit(limit, fallback);
    if n.Ok? {
      ProjectionsAreInside(m, Take(n.value, Filter(keep, Allowed(m))));
    }
  }

  lemma SearchIsInside(m: Mount, lower: string -> string, query: Arg, limit: Arg)
    ensures SearchFor(m, lower, query, limit).Ok? ==> Confined(m, SearchFor(m, lower, query, limit).value)
  {
    if TextArg(query).Ok? {
      PageIsInside(m, Mentions(lower, lower(TextArg(query).value)), limit, 20);
    }
  }

  lemma ElementsAreInside(m: Mount, ids: Arg)
    ensures OpenElements(m, ids).Ok? ==> Confined(m, OpenElements(m, ids).value)
  {
    if OpenElements(m, ids).Ok? {
      RequiredAllAreAllowed(m, ids.items);
      ProjectionsAreInside(m, RequireAll(m, ids.items).value);
    }
  }

  lemma NeighborsAreInside(m: Mount, id: Arg, limit: Arg)
    ensures FindNeighbors(m, id, limit).Ok? ==> Confined(m, FindNeighbors(m, id, limit).value)
  {
    var args := Limited(Named(m, id, ElementNotReadable), limit);
    if args.Ok? {
      NeighbourhoodIsInside(m, args.value.0, args.value.1);
    }
  }

  lemma ContextDrawingIsInside(m: Mount, context: Arg)
    ensures DrawContext(m, context).Ok? ==> Confined(m, DrawContext(m, context).value)
  {
    if context.Text? && context.text != "" {
      DrawingIsInside(m, Filter(LivesIn(m, context.text), Allowed(m)));
    } else {
      DrawingIsInside(m, Allowed(m));
    }
  }

  lemma EdgeIsInside(m: Mount, id: Arg)
    ensures OpenEdge(m, id).Ok? ==> Confined(m, OpenEdge(m, id).value)
  {
    EdgeIsNamed(m, id);
    var edge := EdgeOnly(Named(m, id, ElementNotReadable));
    if edge.Ok? {
      ProjectionIsInside(m, edge.value);
      EndpointIsInside(m, edge.value.startBinding);
      EndpointIsInside(m, edge.value.endBinding);
    }
  }

  /** Every id, Context, asset and shape in an answer is one the mount may read. */
  lemma AnswersAreConfined(m: Mount, lower: string -> string, t: Tool)
    requires Validated(m) && Execute(m, lower, t).Ok?
    ensures Confined(m, Execute(m, lower, t).value)
  {
    if t.ListContexts? {
      ContextsAreInside(m);
    } else if t.ListFrames? {
      PageIsInside(m, HasKind("frame"), t.limit, 100);
    } else if t.ReadFrame? {
      FrameIsInside(m, t.frame, t.limit);
    } else if t.ReadElements? {
      ElementsAreInside(m, t.ids);
    } else if t.Search? {
      SearchIsInside(m, lower, t.query, t.limit);
    } else if t.Neighbors? {
      NeighborsAreInside(m, t.element, t.limit);
    } else if t.FollowEdge? {
      EdgeIsInside(m, t.edge);
    } else if t.Render? {
      ContextDrawingIsInside(m, t.context);
    } else if t.ReadAsset? {
      AssetIsInside(m, t.asset.text, t.mode);
    }
  }

  // ---- nothing withheld is carried ----

  ghost predicate CarriedBy(ps: seq<Projected>, id: string) {
    exists p :: p in ps && id in IdsOf(p)
  }

  /** The answer carries this element id somewhere. */
  ghost predicate Carries(a: Answer, id: string) {
    match a
    case Summary(_, _, _) => false
    case Contexts(contexts) => exists c :: c in contexts && c.frame == id
    case Elements(elements) => CarriedBy(elements, id)
    case Frame(frame, members) => id in IdsOf(frame) || CarriedBy(members, id)
    case Edge(edge, start, end) =>
      id in IdsOf(edge) || (start.Some? && id in IdsOf(start.value)) || (end.Some? && id in IdsOf(end.value))
    case Drawing(_, _) => false
    case AssetMetadata(_) => false
    case AssetContent(_, _, _) => false
  }

  lemma ConfinedCarriesAllowed(m: Mount, a: Answer, id: string)
    requires Confined(m, a) && Carries(a, id)
    ensures id in AllowedIds(m)
  {
  }

  /**
   * Every element id an answer carries is in a granted Context; while guests may not contribute
   * it is a Context frame or has a row that no guest touched.
   */
  lemma WithheldIsNeverAnswered(m: Mount, lower: string -> string, t: Tool, id: string)
    requires Validated(m) && Execute(m, lower, t).Ok? && Carries(Execute(m, lower, t).value, id)
    ensures exists e :: e in m.elements && e.id == id
    ensures exists c :: c in m.readable && Home(m, id) == Some(c)
    ensures m.contributionEnabled || (exists c :: c in m.contexts && c.frame == id)
            || (id in m.rows && !m.rows[id].touched)
  {
    AnswersAreConfined(m, lower, t);
    ConfinedCarriesAllowed(m, Execute(m, lower, t).value, id);
    AllowedExactly(m);
    assert MayRead(m, id);
  }

  /** The same for the shapes of a drawing and for what the assets are named by. */
  lemma DrawnAndNamedAreVisible(m: Mount, lower: string -> string, t: Tool)
    requires Validated(m) && Execute(m, lower, t).Ok?
    ensures var a := Execute(m, lower, t).value;
            && (a.Drawing? ==> forall s :: s in a.shapes ==>
                  exists e :: e in m.elements && MayRead(m, e.id) && s == Outline(e))
            && (a.AssetMetadata? || a.AssetContent? ==>
                  exists e :: e in m.elements && MayRead(m, e.id) && e.widget.Some? && e.widget.value.assetId == a.asset.id)
  {
    AnswersAreConfined(m, lower, t);
    AllowedExactly(m);
    VisiblyConfined(m, Execute(m, lower, t).value);
  }

  lemma VisiblyConfined(m: Mount, a: Answer)
    requires Confined(m, a) && forall e :: e in Allowed(m) <==> e in m.elements && MayRead(m, e.id)
    ensures a.Drawing? ==> forall s :: s in a.shapes ==>
              exists e :: e in m.elements && MayRead(m, e.id) && s == Outline(e)
    ensures a.AssetMetadata? || a.AssetContent? ==>
              exists e :: e in m.elements && MayRead(m, e.id) && e.widget.Some? && e.widget.value.assetId == a.asset.id
  {
    if a.Drawing? {
      forall s | s in a.shapes ensures exists e :: e in m.elements && MayRead(m, e.id) && s == Outline(e) {
        assert ShapeInside(m, s);
        var e :| e in Allowed(m) && s == Outline(e);
      }
    }
  }

  // ---- edits outside the view ----

  /** The same ids with the same parents at the same places, and the same content where readable. */
  ghost predicate SameOutside(m: Mount, k: Mount) {
    && k == m.(elements := k.elements)
    && |m.elements| == |k.elements|
    && forall i :: 0 <= i < |m.elements| ==>
         && m.elements[i].id == k.elements[i].id
         && m.elements[i].frameId == k.elements[i].frameId
         && (MayRead(m, m.elements[i].id) ==> m.elements[i] == k.elements[i])
  }

  ghost predicate SameLinks(a: seq<Element>, b: seq<Element>) {
    |a| == |b| && forall i :: 0 <= i < |a| ==> a[i].id == b[i].id && a[i].frameId == b[i].frameId
  }

  ghost predicate SameFrameOf(a: map<string, Element>, b: map<string, Element>, id: string) {
    (id in a <==> id in b) && (id in a ==> a[id].frameId == b[id].frameId)
  }

  lemma SameFrameGrows(a: seq<Element>, b: seq<Element>, x: Element, y: Element, id: string)
    requires SameFrameOf(ById(a), ById(b), id) && x.id == y.id && x.frameId == y.frameId
    ensures SameFrameOf(ById(a + [x]), ById(b + [y]), id)
  {
    ByIdAppend(a, x);
    ByIdAppend(b, y);
  }

  lemma LastLinks(a: seq<Element>, b: seq<Element>)
    returns (p: seq<Element>, q: seq<Element>, x: Element, y: Element)
    requires SameLinks(a, b) && a != []
    ensures SameLinks(p, q) && |p| < |a| && a == p + [x] && b == q + [y] && x.id == y.id && x.frameId == y.frameId
  {
    p, q, x, y := a[..|a| - 1], b[..|b| - 1], a[|a| - 1], b[|b| - 1];
  }

  lemma {:induction false} SameFrames(a: seq<Element>, b: seq<Element>, id: string)
    requires SameLinks(a, b)
    ensures SameFrameOf(ById(a), ById(b), id)
    decreases |a|
  {
    if a != [] {
      var p, q, x, y := LastLinks(a, b);
      SameFrames(p, q, id);
      SameFrameGrows(p, q, x, y, id);
    }
  }

  lemma SameParents(a: seq<Element>, b: seq<Element>, id: string)
    requires SameLinks(a, b)
    ensures Parent(ById(a), id) == Parent(ById(b), id)
  {
    SameFrames(a, b, id);
  }

  lemma AncestorsUnroll(byId: map<string, Element>, id: string, visited: set<string>)
    requires id !in visited
    ensures Ancestors(byId, Some(id), visited) == [id] + Ancestors(byId, Parent(byId, id), visited + {id})
  {
  }

  ghost predicate SameParentage(a: map<string, Element>, b: map<string, Element>) {
    forall id :: Parent(a, id) == Parent(b, id)
  }

  lemma {:induction false} SameAncestors(
      a: map<string, Element>, b: map<string, Element>, start: Option<string>, visited: set<string>)
    requires SameParentage(a, b)
    ensures Ancestors(a, start, visited) == Ancestors(b, start, visited)
    decreases |a.Keys - visited|, if start.Some? then 1 else 0
  {
    if start.Some? && start.value !in visited {
      var id := start.value;
      VisitedGrows(a, visited, id);
      AncestorsUnroll(a, id, visited);
      AncestorsUnroll(b, id, visited);
      assert Parent(a, id) == Parent(b, id);
      SameAncestors(a, b, Parent(a, id), visited + {id});
    }
  }

  lemma {:induction false} SameFirst(a: seq<Element>, b: seq<Element>, id: string)
    requires SameLinks(a, b)
    ensures SameFrameOf(Firsts(a), Firsts(b), id)
    decreases |a|
  {
    if a != [] {
      var p, q, x, y := LastLinks(a, b);
      SameFirst(p, q, id);
      FirstsGrow(p, x);
      FirstsGrow(q, y);
    }
  }

  lemma SameResolved(a: map<string, Element>, b: map<string, Element>, byFrame: map<string, string>, x: Element, y: Element)
    requires SameParentage(a, b) && x.id == y.id && x.frameId == y.frameId
    ensures Resolved(a, byFrame, x) == Resolved(b, byFrame, y)
  {
    SameAncestors(a, b, Truthy(x.frameId), {});
  }

  lemma SameHomes(m: Mount, k: Mount, id: string)
    requires SameOutside(m, k)
    ensures Home(m, id) == Home(k, id)
  {
    SameFirst(m.elements, k.elements, id);
    if id in Firsts(m.elements) {
      var i := FirstsKeepTheFirst(m.elements, id);
      var j := FirstsKeepTheFirst(k.elements, id);
      forall x ensures Parent(ById(m.elements), x) == Parent(ById(k.elements), x) {
        SameParents(m.elements, k.elements, x);
      }
      SameResolved(ById(m.elements), ById(k.elements), ByFrame(m.contexts), Firsts(m.elements)[id], Firsts(k.elements)[id]);
    }
  }

  lemma {:induction false} FilterPairs(p: Element -> bool, q: Element -> bool, a: seq<Element>, b: seq<Element>)
    requires |a| == |b|
    requires forall i :: 0 <= i < |a| ==> p(a[i]) == q(b[i]) && (p(a[i]) ==> a[i] == b[i])
    ensures Filter(p, a) == Filter(q, b)
  {
    if a != [] {
      FilterPairs(p, q, a[1..], b[1..]);
    }
  }

  lemma SameReading(m: Mount, k: Mount, id: string)
    requires SameOutside(m, k)
    ensures Readable(m, id) == Readable(k, id)
  {
    SameHomes(m, k, id);
  }

  lemma SameAllowed(m: Mount, k: Mount)
    requires SameOutside(m, k)
    ensures Allowed(m) == Allowed(k)
  {
    forall i | 0 <= i < |m.elements|
      ensures Reader(m)(m.elements[i]) == Reader(k)(k.elements[i])
      ensures Reader(m)(m.elements[i]) ==> m.elements[i] == k.elements[i]
    {
      SameReading(m, k, m.elements[i].id);
      ReadableExactly(m, m.elements[i].id);
    }
    FilterPairs(Reader(m), Reader(k), m.elements, k.elements);
  }

  lemma SameGranted(m: Mount, k: Mount)
    requires m.readable == k.readable && m.contexts == k.contexts
    ensures Filter(Granted(m), m.contexts) == Filter(Granted(k), k.contexts)
  {
    FilterAgrees(Granted(m), Granted(k), m.contexts);
  }

  lemma SameHomeMap(m: Mount, k: Mount)
    requires Allowed(m) == Allowed(k) && forall id :: HomeId(m, id) == HomeId(k, id)
    ensures Homes(m) == Homes(k)
  {
    assert AllowedIds(m) == AllowedIds(k);
  }

  lemma SameViewOutside(m: Mount, k: Mount)
    requires SameOutside(m, k)
    ensures ViewOf(m) == ViewOf(k)
  {
    SameAllowed(m, k);
    SameGranted(m, k);
    forall id ensures HomeId(m, id) == HomeId(k, id) {
      SameHomes(m, k, id);
    }
    SameHomeMap(m, k);
  }

  /**
   * Text, geometry, bindings and assets of elements the mount may not read, whether they lie
   * outside its Contexts or were withheld for their provenance, never show in any answer.
   */
  lemma HiddenContentIsInvisible(m: Mount, k: Mount, lower: string -> string, t: Tool)
    requires Validated(m) && Validated(k) && SameOutside(m, k)
    ensures Execute(m, lower, t) == Execute(k, lower, t)
  {
    SameViewOutside(m, k);
    SameViewSameAnswer(m, k, lower, t);
  }
}
