/**
 * The hashes of approvals and revisions: SHA-256 of canonical JSON, taken to be injective on
 * normal forms, and what that makes two hashed contents share.
 */
module ContentHashes {
  import opened Wrappers
  import opened Ordering
  import opened CanonicalJson
  import opened InstructionClosure

  /** The digest of a canonical text, as an injective function of the normal form it writes out. */
  datatype Hash = Sha256(form: Json)

  function HashOf(j: Json): Hash {
    Sha256(Normal(LeqString, j))
  }

  /** Two values share a hash exactly when they are the same up to key order and undefined keys. */
  lemma HashesAgree(a: Json, b: Json)
    requires WellFormed(a) && WellFormed(b)
    ensures HashOf(a) == HashOf(b) <==> Same(a, b)
  {
    StringsAreOrdered();
    NormalFormsAgree(LeqString, a, b);
  }

  // ---- the JSON of a closure ----

  function KindName(k: RelationKind): string {
    match k
    case DependsOn => "depends_on"
    case References => "references"
    case WholeFrame => "whole_frame"
    case Group => "group"
    case UnknownKind => ""
  }

  function Field(key: Key, text: Option<string>): seq<Property> {
    if text.Some? then [Property(key, Text(text.value))] else []
  }

  function ProjectionEntries(p: Projection): seq<Property> {
    [Property("id", Text(p.id)), Property("type", Text(p.kind))] + Field("text", p.text) + Field("link", p.link)
  }

  function ProjectionJson(p: Projection): Json {
    Object(ProjectionEntries(p))
  }

  function EdgeEntries(r: Relation): seq<Property> {
    [Property("fromElementId", Text(r.from)), Property("kind", Text(KindName(r.kind))), Property("toElementId", Text(r.to))]
  }

  function EdgeJson(r: Relation): Json {
    Object(EdgeEntries(r))
  }

  function Edges(edges: seq<Relation>): seq<Json> {
    seq(|edges|, i requires 0 <= i < |edges| => EdgeJson(edges[i]))
  }

  function Nodes(nodes: seq<Projection>): seq<Json> {
    seq(|nodes|, i requires 0 <= i < |nodes| => ProjectionJson(nodes[i]))
  }

  function DependencyEntries(c: Closure): seq<Property> {
    [Property("edges", Array(Edges(c.edges))), Property("nodes", Array(Nodes(c.nodes)))]
  }

  function ClosureEntries(version: int, c: Closure): seq<Property> {
    [Property("schemaVersion", Number(version as real)), Property("contextId", Text(c.context)),
     Property("instruction", ProjectionJson(c.root)), Property("dependencies", Object(DependencyEntries(c)))]
  }

  function ClosureJson(version: int, c: Closure): Json {
    Object(ClosureEntries(version, c))
  }

  function SemanticEntries(version: int, root: Projection): seq<Property> {
    [Property("schemaVersion", Number(version as real)), Property("root", ProjectionJson(root))]
  }

  function SemanticJson(version: int, root: Projection): Json {
    Object(SemanticEntries(version, root))
  }

  function ClosureHash(version: int, c: Closure): Hash {
    HashOf(ClosureJson(version, c))
  }

  function SemanticHash(version: int, root: Projection): Hash {
    HashOf(SemanticJson(version, root))
  }

  // ---- reading it back ----

  lemma KindNamesDiffer(k: RelationKind, l: RelationKind)
    ensures KindName(k) == KindName(l) ==> k == l
  {
    assert |KindName(DependsOn)| == 10 && |KindName(References)| == 10 && |KindName(WholeFrame)| == 11;
    assert |KindName(Group)| == 5 && |KindName(UnknownKind)| == 0;
    assert KindName(DependsOn)[0] == 'd' && KindName(References)[0] == 'r';
  }

  /** Objects that are the same hold the same value under a key both define. */
  lemma SameAt(a: seq<Property>, b: seq<Property>, i: nat, k: nat)
    requires Same(Object(a), Object(b)) && i < |a| && k < |b| && a[i].key == b[k].key
    requires !a[i].value.Undefined? && !b[k].value.Undefined?
    ensures Same(a[i].value, b[k].value)
  {
  }

  lemma KeysOfProjection()
    ensures "id" != "type" && "id" != "text" && "id" != "link"
    ensures "type" != "text" && "type" != "link" && "text" != "link"
  {
    assert |"id"| == 2 && |"type"| == 4 && |"text"| == 4 && |"link"| == 4;
    assert "type"[1] == 'y' && "text"[1] == 'e' && "link"[1] == 'i';
  }

  lemma ProjectionDefines(p: Projection)
    ensures DistinctKeys(ProjectionEntries(p)) && WellFormed(ProjectionJson(p))
    ensures Defines(ProjectionEntries(p), "text") <==> p.text.Some?
    ensures Defines(ProjectionEntries(p), "link") <==> p.link.Some?
  {
    KeysOfProjection();
    var es := ProjectionEntries(p);
    if p.text.Some? {
      assert es[2] == Property("text", Text(p.text.value));
    }
    if p.link.Some? {
      assert es[|es| - 1] == Property("link", Text(p.link.value));
    }
  }

  lemma SameProjections(p: Projection, q: Projection)
    requires Same(ProjectionJson(p), ProjectionJson(q))
    ensures p == q
  {
    var a, b := ProjectionEntries(p), ProjectionEntries(q);
    ProjectionDefines(p);
    ProjectionDefines(q);
    SameAt(a, b, 0, 0);
    SameAt(a, b, 1, 1);
    if p.text.Some? {
      SameAt(a, b, 2, 2);
    }
    if p.link.Some? {
      SameAt(a, b, |a| - 1, |b| - 1);
    }
  }

  lemma EdgeIsWellFormed(r: Relation)
    ensures WellFormed(EdgeJson(r))
  {
    assert |"fromElementId"| == 13 && |"kind"| == 4 && |"toElementId"| == 11;
  }

  lemma SameEdges(r: Relation, s: Relation)
    requires Same(EdgeJson(r), EdgeJson(s))
    ensures r == s
  {
    var a, b := EdgeEntries(r), EdgeEntries(s);
    SameAt(a, b, 0, 0);
    SameAt(a, b, 1, 1);
    SameAt(a, b, 2, 2);
    KindNamesDiffer(r.kind, s.kind);
  }

  lemma SameEdgeLists(a: seq<Relation>, b: seq<Relation>)
    requires Same(Array(Edges(a)), Array(Edges(b)))
    ensures a == b
  {
    forall i | 0 <= i < |a| ensures a[i] == b[i] {
      assert Same(Edges(a)[i], Edges(b)[i]);
      SameEdges(a[i], b[i]);
    }
  }

  lemma SameNodeLists(a: seq<Projection>, b: seq<Projection>)
    requires Same(Array(Nodes(a)), Array(Nodes(b)))
    ensures a == b
  {
    forall i | 0 <= i < |a| ensures a[i] == b[i] {
      assert Same(Nodes(a)[i], Nodes(b)[i]);
      SameProjections(a[i], b[i]);
    }
  }

  lemma DependenciesAreWellFormed(c: Closure)
    ensures WellFormed(Object(DependencyEntries(c)))
  {
    assert "edges"[0] == 'e' && "nodes"[0] == 'n';
    forall i | 0 <= i < |c.edges| ensures !Edges(c.edges)[i].Undefined? && WellFormed(Edges(c.edges)[i]) {
      EdgeIsWellFormed(c.edges[i]);
    }
    forall i | 0 <= i < |c.nodes| ensures !Nodes(c.nodes)[i].Undefined? && WellFormed(Nodes(c.nodes)[i]) {
      ProjectionDefines(c.nodes[i]);
    }
    assert WellFormed(Array(Edges(c.edges))) && WellFormed(Array(Nodes(c.nodes)));
  }

  lemma ClosureIsWellFormed(version: int, c: Closure)
    ensures WellFormed(ClosureJson(version, c))
  {
    assert |"schemaVersion"| == 13 && |"contextId"| == 9 && |"instruction"| == 11 && |"dependencies"| == 12;
    ProjectionDefines(c.root);
    DependenciesAreWellFormed(c);
  }

  lemma SemanticIsWellFormed(version: int, root: Projection)
    ensures WellFormed(SemanticJson(version, root))
  {
    assert |"schemaVersion"| == 13 && |"root"| == 4;
    ProjectionDefines(root);
  }

  lemma SameClosures(version: int, c: Closure, d: Closure)
    requires Same(ClosureJson(version, c), ClosureJson(version, d))
    ensures c == d
  {
    var a, b := ClosureEntries(version, c), ClosureEntries(version, d);
    SameAt(a, b, 1, 1);
    SameAt(a, b, 2, 2);
    SameAt(a, b, 3, 3);
    SameProjections(c.root, d.root);
    SameAt(DependencyEntries(c), DependencyEntries(d), 0, 0);
    SameAt(DependencyEntries(c), DependencyEntries(d), 1, 1);
    SameEdgeLists(c.edges, d.edges);
    SameNodeLists(c.nodes, d.nodes);
  }

  lemma SameSemantics(version: int, p: Projection, q: Projection)
    requires Same(SemanticJson(version, p), SemanticJson(version, q))
    ensures p == q
  {
    SameAt(SemanticEntries(version, p), SemanticEntries(version, q), 1, 1);
    SameProjections(p, q);
  }

  /** The closure hash identifies the closure: its Context, its root, its edges and its nodes. */
  lemma ClosureHashIsExact(version: int, c: Closure, d: Closure)
    ensures ClosureHash(version, c) == ClosureHash(version, d) <==> c == d
  {
    ClosureIsWellFormed(version, c);
    ClosureIsWellFormed(version, d);
    HashesAgree(ClosureJson(version, c), ClosureJson(version, d));
    if Same(ClosureJson(version, c), ClosureJson(version, d)) {
      SameClosures(version, c, d);
    }
  }

  lemma SemanticHashIsExact(version: int, p: Projection, q: Projection)
    ensures SemanticHash(version, p) == SemanticHash(version, q) <==> p == q
  {
    SemanticIsWellFormed(version, p);
    SemanticIsWellFormed(version, q);
    HashesAgree(SemanticJson(version, p), SemanticJson(version, q));
    if Same(SemanticJson(version, p), SemanticJson(version, q)) {
      SameSemantics(version, p, q);
    }
  }
}
