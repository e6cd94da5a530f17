/** Board elements and Contexts as every reader of a scene sees them. */
module Scene {
  import opened Wrappers

  datatype Rotation = Rotation(cos: real, sin: real)

  datatype Widget = Widget(assetId: string, kind: string)

  /** An optional field is None when it is absent or not of its type. */
  datatype Element = Element(
    id: string,
    deleted: bool,
    kind: Option<string>,
    frameId: Option<string>,
    name: Option<string>,
    text: Option<string>,
    originalText: Option<string>,
    link: Option<string>,
    containerId: Option<string>,
    boundIds: Option<seq<Option<string>>>,
    startBinding: Option<Option<string>>,
    endBinding: Option<Option<string>>,
    widget: Option<Widget>,
    fileId: Option<string>,
    x: Option<real>,
    y: Option<real>,
    width: Option<real>,
    height: Option<real>,
    angle: Option<Rotation>)

  /** One entry of a scene array: an object with a string id, or anything else. */
  datatype Entry = Junk | Entry(element: Element)

  datatype Context = Context(id: string, frame: string, pinned: bool, frameName: Option<string>)

  function LiveElements(entries: seq<Entry>): (r: seq<Element>)
    ensures forall e :: e in r <==> Entry(e) in entries && !e.deleted
  {
    if entries == [] then []
    else
      var rest := LiveElements(entries[1..]);
      if entries[0].Entry? && !entries[0].element.deleted then [entries[0].element] + rest else rest
  }

  /** `new Map(elements.map(e => [e.id, e]))`: a repeated id keeps its last element. */
  function ById(elements: seq<Element>): (m: map<string, Element>)
    ensures forall id :: id in m ==> m[id] in elements && m[id].id == id
    ensures forall e :: e in elements ==> e.id in m
  {
    if elements == [] then map[]
    else
      var last := elements[|elements| - 1];
      assert elements == elements[..|elements| - 1] + [last];
      ById(elements[..|elements| - 1])[last.id := last]
  }

  /** `k` is the last place an element of this id stands. */
  ghost predicate LastWithId(elements: seq<Element>, k: int, id: string) {
    0 <= k < |elements| && elements[k].id == id && forall j :: k < j < |elements| ==> elements[j].id != id
  }

  /** The map holds, for each id, the element standing last. */
  lemma {:induction false} ByIdKeepsTheLast(elements: seq<Element>, id: string) returns (k: nat)
    requires id in ById(elements)
    ensures LastWithId(elements, k, id) && elements[k] == ById(elements)[id]
    decreases |elements|
  {
    var n := |elements| - 1;
    var init, last := elements[..n], elements[n];
    assert elements == init + [last];
    ByIdAppend(init, last);
    if last.id == id {
      k := n;
    } else {
      k := ByIdKeepsTheLast(init, id);
      LastStays(init, last, k, id);
    }
  }

  lemma LastStays(init: seq<Element>, last: Element, k: nat, id: string)
    requires LastWithId(init, k, id) && last.id != id
    ensures LastWithId(init + [last], k, id) && (init + [last])[k] == init[k]
  {
  }

  ghost predicate LastWithFrame(contexts: seq<Context>, k: int, frame: string) {
    0 <= k < |contexts| && contexts[k].frame == frame && forall j :: k < j < |contexts| ==> contexts[j].frame != frame
  }

  lemma {:induction false} ByFrameKeepsTheLast(contexts: seq<Context>, frame: string) returns (k: nat)
    requires frame in ByFrame(contexts)
    ensures LastWithFrame(contexts, k, frame) && contexts[k].id == ByFrame(contexts)[frame]
    decreases |contexts|
  {
    var n := |contexts| - 1;
    if contexts[n].frame == frame {
      k := n;
    } else {
      k := ByFrameKeepsTheLast(contexts[..n], frame);
    }
  }

  lemma ByIdAppend(elements: seq<Element>, last: Element)
    ensures ById(elements + [last]) == ById(elements)[last.id := last]
  {
    assert (elements + [last])[..|elements|] == elements;
  }

  predicate UniqueIds(elements: seq<Element>) {
    forall i, j :: 0 <= i < j < |elements| ==> elements[i].id != elements[j].id
  }

  lemma UniqueIdsIndexThemselves(elements: seq<Element>, e: Element)
    requires UniqueIds(elements) && e in elements
    ensures ById(elements)[e.id] == e
  {
  }

  function ByFrame(contexts: seq<Context>): (m: map<string, string>)
    ensures forall f :: f in m <==> exists c :: c in contexts && c.frame == f
    ensures forall f :: f in m ==> exists c :: c in contexts && c.frame == f && c.id == m[f]
  {
    if contexts == [] then map[]
    else
      var last := contexts[|contexts| - 1];
      assert contexts == contexts[..|contexts| - 1] + [last];
      ByFrame(contexts[..|contexts| - 1])[last.frame := last.id]
  }

  /** An empty string is not a frame id: the walks stop there. */
  function Truthy(id: Option<string>): Option<string> {
    if id == Some("") then None else id
  }

  function Parent(byId: map<string, Element>, id: string): Option<string> {
    if id in byId then Truthy(byId[id].frameId) else None
  }
}
