/** Frames that identify Contexts: bounds, overlap, and the registry they are checked in. */
module ContextFrames {
  import opened Wrappers
  import opened Scene

  datatype Bounds = Bounds(x: real, y: real, width: real, height: real)

  datatype FrameError = FrameMissing | FrameInvalid | FramesOverlap

  function Abs(r: real): real {
    if r < 0.0 then -r else r
  }

  function Turn(e: Element): Rotation {
    match e.angle
    case None => Rotation(1.0, 0.0)
    case Some(r) => r
  }

  /** A `w` by `h` rectangle about a centre, turned. */
  datatype Rect = Rect(cx: real, cy: real, w: real, h: real, turn: Rotation)

  predicate IsPlaced(e: Element) {
    e.x.Some? && e.y.Some? && e.width.Some? && e.height.Some?
  }

  function RectOf(e: Element): (r: Rect)
    requires IsPlaced(e)
    ensures r.w >= 0.0 && r.h >= 0.0 && r.turn == Turn(e)
  {
    Rect(e.x.value + e.width.value / 2.0, e.y.value + e.height.value / 2.0,
         Abs(e.width.value), Abs(e.height.value), Turn(e))
  }

  /** Side of the axis-aligned box around a `w` by `h` rectangle turned by `(cos, sin)`. */
  function Span(w: real, h: real, cos: real, sin: real): real {
    Abs(w * cos) + Abs(h * sin)
  }

  function FrameBounds(e: Element): (b: Option<Bounds>)
    ensures b.Some? ==> IsPlaced(e)
  {
    if !IsPlaced(e) || e.width.value == 0.0 || e.height.value == 0.0 then None
    else Some(Enclosing(RectOf(e)))
  }

  function Around(cx: real, cy: real, width: real, height: real): Bounds {
    Bounds(cx - width / 2.0, cy - height / 2.0, width, height)
  }

  function Enclosing(r: Rect): Bounds {
    Around(r.cx, r.cy, Span(r.w, r.h, r.turn.cos, r.turn.sin), Span(r.w, r.h, r.turn.sin, r.turn.cos))
  }

  predicate Overlaps(l: Bounds, r: Bounds) {
    l.x < r.x + r.width && l.x + l.width > r.x && l.y < r.y + r.height && l.y + l.height > r.y
  }

  predicate IsBoundedFrame(e: Element) {
    e.kind == Some("frame") && FrameBounds(e).Some?
  }

  /** What the first pass says about the context at `i`. */
  function Refuse(byId: map<string, Element>, contexts: seq<Context>, i: nat): Option<FrameError>
    requires i < |contexts|
  {
    if exists k :: 0 <= k < i && contexts[k].frame == contexts[i].frame then Some(FrameInvalid)
    else if contexts[i].frame !in byId then Some(FrameMissing)
    else if !IsBoundedFrame(byId[contexts[i].frame]) then Some(FrameInvalid)
    else None
  }

  ghost predicate FramesNamed(byId: map<string, Element>, contexts: seq<Context>) {
    forall i :: 0 <= i < |contexts| ==> Refuse(byId, contexts, i).None?
  }

  predicate Clash(byId: map<string, Element>, l: Context, r: Context) {
    l.frame in byId && r.frame in byId
    && FrameBounds(byId[l.frame]).Some? && FrameBounds(byId[r.frame]).Some?
    && Overlaps(FrameBounds(byId[l.frame]).value, FrameBounds(byId[r.frame]).value)
  }

  ghost predicate NoClash(byId: map<string, Element>, contexts: seq<Context>) {
    forall i, j :: 0 <= i < j < |contexts| ==> !Clash(byId, contexts[i], contexts[j])
  }

  ghost predicate FramesValid(byId: map<string, Element>, contexts: seq<Context>) {
    FramesNamed(byId, contexts) && NoClash(byId, contexts)
  }

  ghost predicate UniqueContexts(contexts: seq<Context>) {
    forall i, j :: 0 <= i < j < |contexts| ==> contexts[i].id != contexts[j].id
  }

  /** The frames by Context, or why the first offending Context was refused. */
  method ValidateContextFrames(byId: map<string, Element>, contexts: seq<Context>)
    returns (r: Result<map<string, Element>, FrameError>)
    requires UniqueContexts(contexts)
    ensures r.Ok? <==> FramesValid(byId, contexts)
    ensures r.Ok? ==> forall c :: c in contexts ==>
              c.id in r.value && c.frame in byId && r.value[c.id] == byId[c.frame]
    ensures r.Err? ==> (r.error == FramesOverlap <==> FramesNamed(byId, contexts))
    ensures r.Err? && r.error != FramesOverlap ==>
              exists i :: 0 <= i < |contexts| && Refuse(byId, contexts, i) == Some(r.error)
                          && Faulty(byId, contexts, i, r.error)
                          && forall k :: 0 <= k < i ==> Refuse(byId, contexts, k).None?
  {
    var frames: map<string, Element> := map[];
    var seen: set<string> := {};
    var i := 0;
    while i < |contexts|
      invariant 0 <= i <= |contexts|
      invariant forall f :: f in seen <==> exists k :: 0 <= k < i && contexts[k].frame == f
      invariant forall k :: 0 <= k < i ==> Refuse(byId, contexts, k).None?
      invariant forall k :: 0 <= k < i ==>
                  contexts[k].frame in byId && contexts[k].id in frames
                  && frames[contexts[k].id] == byId[contexts[k].frame]
    {
      var c := contexts[i];
      if c.frame in seen {
        assert Refuse(byId, contexts, i) == Some(FrameInvalid);
        FaultsAgree(byId, contexts, i);
        return Err(FrameInvalid);
      }
      assert Refuse(byId, contexts, i) ==
             if c.frame !in byId then Some(FrameMissing)
             else if !IsBoundedFrame(byId[c.frame]) then Some(FrameInvalid) else None;
      FaultsAgree(byId, contexts, i);
      seen := seen + {c.frame};
      if c.frame !in byId {
        return Err(FrameMissing);
      }
      if byId[c.frame].kind != Some("frame") || FrameBounds(byId[c.frame]).None? {
        return Err(FrameInvalid);
      }
      frames := frames[c.id := byId[c.frame]];
      i := i + 1;
    }
    var left := 0;
    while left < |contexts|
      invariant 0 <= left <= |contexts|
      invariant forall a, b :: 0 <= a < left && a < b < |contexts| ==> !Clash(byId, contexts[a], contexts[b])
    {
      var right := left + 1;
      while right < |contexts|
        invariant left < right <= |contexts|
        invariant forall b :: left < b < right ==> !Clash(byId, contexts[left], contexts[b])
      {
        assert Refuse(byId, contexts, left).None? && Refuse(byId, contexts, right).None?;
        var lb := FrameBounds(frames[contexts[left].id]).value;
        var rb := FrameBounds(frames[contexts[right].id]).value;
        if Overlaps(lb, rb) {
          assert Clash(byId, contexts[left], contexts[right]);
          return Err(FramesOverlap);
        }
        right := right + 1;
      }
      left := left + 1;
    }
    return Ok(frames);
  }

  // ---- geometry ----

  predicate IsUnit(r: Rotation) {
    r.cos * r.cos + r.sin * r.sin == 1.0
  }

  predicate UnitRotation(e: Element) {
    IsUnit(Turn(e))
  }

  predicate InsideTurned(r: Rotation, w: real, h: real, dx: real, dy: real) {
    Abs(r.cos * dx + r.sin * dy) < w / 2.0 && Abs(r.cos * dy - r.sin * dx) < h / 2.0
  }

  predicate InsideRect(r: Rect, px: real, py: real) {
    InsideTurned(r.turn, r.w, r.h, px - r.cx, py - r.cy)
  }

  ghost function CosOf(e: Element): real {
    if e.angle.Some? then e.angle.value.cos else 1.0
  }

  ghost function SinOf(e: Element): real {
    if e.angle.Some? then e.angle.value.sin else 0.0
  }

  ghost predicate Within(cos: real, sin: real, dx: real, dy: real, w: real, h: real) {
    Abs(cos * dx + sin * dy) < w / 2.0 && Abs(cos * dy - sin * dx) < h / 2.0
  }

  /** The point lies strictly inside the element's rectangle, turned about its centre. */
  ghost predicate StrictlyInside(e: Element, px: real, py: real)
    requires FrameBounds(e).Some?
  {
    Within(CosOf(e), SinOf(e), px - (e.x.value + e.width.value / 2.0), py - (e.y.value + e.height.value / 2.0),
           Abs(e.width.value), Abs(e.height.value))
  }

  lemma WithinTurned(cos: real, sin: real, dx: real, dy: real, w: real, h: real)
    ensures Within(cos, sin, dx, dy, w, h) <==> InsideTurned(Rotation(cos, sin), w, h, dx, dy)
  {
  }

  lemma AbsProduct(a: real, b: real)
    ensures Abs(a * b) == Abs(a) * Abs(b)
  {
  }

  lemma Stretch(k: real, a: real, b: real)
    requires 0.0 <= k && a < b
    ensures k * a <= k * b && (k > 0.0 ==> k * a < k * b)
  {
    assert k * (b - a) >= 0.0 && (k > 0.0 ==> k * (b - a) > 0.0);
  }

  /** One coordinate's share: at most half of the stretched side, and less unless it vanishes. */
  lemma HalfProduct(a: real, u: real, w: real)
    requires w >= 0.0 && Abs(u) < w / 2.0
    ensures Abs(a * u) <= Abs(w * a) / 2.0 && (a != 0.0 ==> Abs(a * u) < Abs(w * a) / 2.0)
  {
    AbsProduct(a, u);
    AbsProduct(w, a);
    Stretch(Abs(a), Abs(u), w / 2.0);
    assert Abs(a) * (w / 2.0) == (w * Abs(a)) / 2.0;
  }

  lemma SumBelow(p: real, x: real, y: real, x': real, y': real)
    requires p == x + y || p == x - y
    requires Abs(x) <= x' && Abs(y) <= y' && (Abs(x) < x' || Abs(y) < y')
    ensures Abs(p) < x' + y'
  {
  }

  lemma TurnBack(c: real, s: real, dx: real, dy: real)
    requires c * c + s * s == 1.0
    ensures c * (c * dx + s * dy) - s * (c * dy - s * dx) == dx
    ensures s * (c * dx + s * dy) + c * (c * dy - s * dx) == dy
  {
    var n := c * c + s * s;
    assert c * (c * dx + s * dy) - s * (c * dy - s * dx) == n * dx by {
      Expand(c, s, dx, dy);
    }
    assert s * (c * dx + s * dy) + c * (c * dy - s * dx) == n * dy by {
      Expand(s, c, dy, dx);
      Expand(c, s, dx, dy);
    }
  }

  lemma Substitute(c: real, u: real, t: real)
    requires u == t
    ensures c * u == c * t
  {
  }

  lemma Expand(c: real, s: real, dx: real, dy: real)
    ensures c * (c * dx + s * dy) == c * c * dx + c * s * dy
    ensures s * (c * dy - s * dx) == s * c * dy - s * s * dx
    ensures s * (c * dx + s * dy) == s * c * dx + s * s * dy
    ensures c * (c * dy - s * dx) == c * c * dy - c * s * dx
    ensures (c * c + s * s) * dx == c * c * dx + s * s * dx
    ensures (c * c + s * s) * dy == c * c * dy + s * s * dy
    ensures s * c * dx == c * s * dx && s * c * dy == c * s * dy
  {
  }

  lemma TwoTerms(a: real, b: real, u: real, v: real, w: real, h: real, p: real)
    requires a != 0.0 || b != 0.0
    requires w >= 0.0 && h >= 0.0 && Abs(u) < w / 2.0 && Abs(v) < h / 2.0
    requires p == a * u + b * v || p == a * u - b * v
    ensures Abs(p) < Span(w, h, a, b) / 2.0
  {
    HalfProduct(a, u, w);
    HalfProduct(b, v, h);
    SumBelow(p, a * u, b * v, Abs(w * a) / 2.0, Abs(h * b) / 2.0);
  }

  lemma TurnBackNamed(c: real, s: real, dx: real, dy: real, u: real, v: real)
    requires c * c + s * s == 1.0 && u == c * dx + s * dy && v == c * dy - s * dx
    ensures dx == c * u - s * v && dy == s * u + c * v && (c != 0.0 || s != 0.0)
  {
    TurnBack(c, s, dx, dy);
    Substitute(c, u, c * dx + s * dy);
    Substitute(s, u, c * dx + s * dy);
    Substitute(c, v, c * dy - s * dx);
    Substitute(s, v, c * dy - s * dx);
  }

  lemma EncloseOffsets(c: real, s: real, w: real, h: real, dx: real, dy: real, u: real, v: real)
    requires w >= 0.0 && h >= 0.0 && Abs(u) < w / 2.0 && Abs(v) < h / 2.0 && (c != 0.0 || s != 0.0)
    requires dx == c * u - s * v && dy == s * u + c * v
    ensures Abs(dx) < Span(w, h, c, s) / 2.0 && Abs(dy) < Span(w, h, s, c) / 2.0
  {
    TwoTerms(c, s, u, v, w, h, dx);
    TwoTerms(s, c, u, v, w, h, dy);
  }

  lemma EncloseTurned(r: Rotation, w: real, h: real, dx: real, dy: real)
    requires IsUnit(r) && w >= 0.0 && h >= 0.0 && InsideTurned(r, w, h, dx, dy)
    ensures Abs(dx) < Span(w, h, r.cos, r.sin) / 2.0 && Abs(dy) < Span(w, h, r.sin, r.cos) / 2.0
  {
    var u, v := r.cos * dx + r.sin * dy, r.cos * dy - r.sin * dx;
    TurnBackNamed(r.cos, r.sin, dx, dy, u, v);
    EncloseOffsets(r.cos, r.sin, w, h, dx, dy, u, v);
  }

  predicate Contains(b: Bounds, px: real, py: real) {
    b.x < px < b.x + b.width && b.y < py < b.y + b.height
  }

  lemma AroundContains(cx: real, cy: real, width: real, height: real, px: real, py: real)
    requires Abs(px - cx) < width / 2.0 && Abs(py - cy) < height / 2.0
    ensures Contains(Around(cx, cy, width, height), px, py)
  {
  }

  lemma EnclosingContains(r: Rect, px: real, py: real)
    requires IsUnit(r.turn) && r.w >= 0.0 && r.h >= 0.0 && InsideRect(r, px, py)
    ensures Contains(Enclosing(r), px, py)
  {
    EncloseTurned(r.turn, r.w, r.h, px - r.cx, py - r.cy);
    AroundContains(r.cx, r.cy, Span(r.w, r.h, r.turn.cos, r.turn.sin), Span(r.w, r.h, r.turn.sin, r.turn.cos), px, py);
  }

  /** The axis-aligned bounds strictly contain the turned rectangle's interior. */
  lemma BoundsEnclose(e: Element, px: real, py: real)
    requires UnitRotation(e) && FrameBounds(e).Some? && StrictlyInside(e, px, py)
    ensures Contains(FrameBounds(e).value, px, py)
  {
    var r := RectOf(e);
    WithinTurned(r.turn.cos, r.turn.sin, px - r.cx, py - r.cy, r.w, r.h);
    EnclosingContains(RectOf(e), px, py);
  }

  // ---- the bounds are the tightest ones ----

  ghost function Half(up: bool, side: real): real {
    if up then side / 2.0 else -side / 2.0
  }

  /** One coordinate of a corner: half of each turned side, to one hand or the other. */
  ghost function Corner(centre: real, p: real, q: real, a: bool, b: bool): real {
    centre + Half(a, p) + Half(b, q)
  }

  /** No corner is below, and one is here. */
  ghost predicate LeastCorner(centre: real, p: real, q: real, x: real) {
    (forall a, b :: x <= Corner(centre, p, q, a, b)) && exists a, b :: x == Corner(centre, p, q, a, b)
  }

  ghost predicate GreatestCorner(centre: real, p: real, q: real, x: real) {
    (forall a, b :: Corner(centre, p, q, a, b) <= x) && exists a, b :: x == Corner(centre, p, q, a, b)
  }

  /** How far a turned side reaches in one direction. */
  ghost function Turned(side: real, part: real): real {
    side * part
  }

  ghost function MidX(e: Element): real
    requires IsPlaced(e)
  {
    e.x.value + e.width.value / 2.0
  }

  ghost function MidY(e: Element): real
    requires IsPlaced(e)
  {
    e.y.value + e.height.value / 2.0
  }

  /** The corners of a turned element span this interval across. */
  ghost predicate Across(e: Element, low: real, high: real)
    requires IsPlaced(e)
  {
    var p, q := Turned(e.width.value, CosOf(e)), Turned(e.height.value, SinOf(e));
    LeastCorner(MidX(e), p, q, low) && GreatestCorner(MidX(e), p, q, high)
  }

  ghost predicate Along(e: Element, low: real, high: real)
    requires IsPlaced(e)
  {
    var p, q := Turned(e.width.value, SinOf(e)), Turned(e.height.value, CosOf(e));
    LeastCorner(MidY(e), p, q, low) && GreatestCorner(MidY(e), p, q, high)
  }

  lemma CornersReach(centre: real, p: real, q: real, low: real, high: real)
    ensures LeastCorner(centre, p, q, low) && GreatestCorner(centre, p, q, high)
            <==> low == centre - (Abs(p) + Abs(q)) / 2.0 && high == centre + (Abs(p) + Abs(q)) / 2.0
  {
    assert Corner(centre, p, q, p >= 0.0, q >= 0.0) == centre + (Abs(p) + Abs(q)) / 2.0;
    assert Corner(centre, p, q, p < 0.0, q < 0.0) == centre - (Abs(p) + Abs(q)) / 2.0;
  }

  lemma SpanOfSides(w: real, h: real, cos: real, sin: real)
    ensures Span(Abs(w), Abs(h), cos, sin) == Abs(w * cos) + Abs(h * sin)
  {
    AbsProduct(Abs(w), cos);
    AbsProduct(w, cos);
    AbsProduct(Abs(h), sin);
    AbsProduct(h, sin);
  }

  /** The sides of a box, given how far the turned sides reach across and along. */
  ghost predicate HasSides(b: Bounds, cx: real, cy: real, p: real, q: real, u: real, v: real) {
    && b.width == Abs(p) + Abs(q) && b.x == cx - (Abs(p) + Abs(q)) / 2.0
    && b.height == Abs(u) + Abs(v) && b.y == cy - (Abs(u) + Abs(v)) / 2.0
  }

  lemma SidesOfAround(cx: real, cy: real, width: real, height: real, p: real, q: real, u: real, v: real)
    requires width == Abs(p) + Abs(q) && height == Abs(u) + Abs(v)
    ensures HasSides(Around(cx, cy, width, height), cx, cy, p, q, u, v)
  {
  }

  lemma SidesOfRect(cx: real, cy: real, w: real, h: real, c: real, s: real)
    ensures HasSides(Enclosing(Rect(cx, cy, Abs(w), Abs(h), Rotation(c, s))), cx, cy,
                     Turned(w, c), Turned(h, s), Turned(w, s), Turned(h, c))
  {
    SpanOfSides(w, h, c, s);
    SpanOfSides(w, h, s, c);
    SidesOfAround(cx, cy, Span(Abs(w), Abs(h), c, s), Span(Abs(w), Abs(h), s, c),
                  Turned(w, c), Turned(h, s), Turned(w, s), Turned(h, c));
  }

  lemma RectOfFields(e: Element, w: real, h: real, c: real, s: real)
    requires IsPlaced(e) && w == e.width.value && h == e.height.value && c == CosOf(e) && s == SinOf(e)
    ensures RectOf(e) == Rect(MidX(e), MidY(e), Abs(w), Abs(h), Rotation(c, s))
  {
  }

  lemma SidesOfBounds(e: Element, b: Bounds, w: real, h: real, c: real, s: real)
    requires IsPlaced(e) && w == e.width.value && h == e.height.value && c == CosOf(e) && s == SinOf(e)
    requires b == Enclosing(RectOf(e))
    ensures HasSides(b, MidX(e), MidY(e), Turned(w, c), Turned(h, s), Turned(w, s), Turned(h, c))
  {
    RectOfFields(e, w, h, c, s);
    SidesOfRect(MidX(e), MidY(e), w, h, c, s);
  }

  lemma SidesReach(b: Bounds, cx: real, cy: real, p: real, q: real, u: real, v: real, low: real, high: real)
    requires HasSides(b, cx, cy, p, q, u, v)
    ensures LeastCorner(cx, p, q, low) && GreatestCorner(cx, p, q, high) <==> low == b.x && high == b.x + b.width
    ensures LeastCorner(cy, u, v, low) && GreatestCorner(cy, u, v, high) <==> low == b.y && high == b.y + b.height
  {
    CornersReach(cx, p, q, low, high);
    CornersReach(cy, u, v, low, high);
  }

  lemma BoundsSpanCorners(e: Element, b: Bounds, low: real, high: real)
    requires FrameBounds(e) == Some(b)
    ensures Across(e, low, high) <==> low == b.x && high == b.x + b.width
    ensures Along(e, low, high) <==> low == b.y && high == b.y + b.height
  {
    var w, h, c, s := e.width.value, e.height.value, CosOf(e), SinOf(e);
    SidesOfBounds(e, b, w, h, c, s);
    SidesReach(b, MidX(e), MidY(e), Turned(w, c), Turned(h, s), Turned(w, s), Turned(h, c), low, high);
  }

  /** A frame has bounds exactly if it is placed and not flat, and they are the box around its four corners. */
  lemma BoundsAreTight(e: Element)
    ensures FrameBounds(e).Some? <==>
              e.x != None && e.y != None && e.width.Some? && e.height.Some? && e.width != Some(0.0) && e.height != Some(0.0)
    ensures FrameBounds(e).Some? ==>
              var b := FrameBounds(e).value;
              Across(e, b.x, b.x + b.width) && Along(e, b.y, b.y + b.height)
  {
    if FrameBounds(e).Some? {
      var b := FrameBounds(e).value;
      BoundsSpanCorners(e, b, b.x, b.x + b.width);
      BoundsSpanCorners(e, b, b.y, b.y + b.height);
    }
  }

  lemma BoundsAreOpen(e: Element)
    requires FrameBounds(e).Some? && UnitRotation(e)
    ensures FrameBounds(e).value.width > 0.0 && FrameBounds(e).value.height > 0.0
  {
    var b := FrameBounds(e).value;
    SidesOfBounds(e, b, e.width.value, e.height.value, CosOf(e), SinOf(e));
    TurnedSidesReach(e.width.value, e.height.value, CosOf(e), SinOf(e));
  }

  lemma TurnedSidesReach(w: real, h: real, c: real, s: real)
    requires w != 0.0 && h != 0.0 && (c != 0.0 || s != 0.0)
    ensures Abs(Turned(w, c)) + Abs(Turned(h, s)) > 0.0 && Abs(Turned(w, s)) + Abs(Turned(h, c)) > 0.0
  {
    NonZeroProduct(w, c);
    NonZeroProduct(w, s);
    NonZeroProduct(h, c);
    NonZeroProduct(h, s);
  }

  lemma NonZeroProduct(a: real, b: real)
    ensures a != 0.0 && b != 0.0 ==> a * b != 0.0
  {
  }

  lemma OpenIntervalsMeet(a: real, b: real, c: real, d: real) returns (p: real)
    requires a < b && c < d && a < d && c < b
    ensures a < p < b && c < p < d
  {
    var low, high := if a < c then c else a, if b < d then b else d;
    p := (low + high) / 2.0;
  }

  /** Boxes overlap exactly when some point lies strictly inside both; touching sides do not. */
  lemma OverlapIsCommonPoint(l: Bounds, r: Bounds)
    requires l.width > 0.0 && l.height > 0.0 && r.width > 0.0 && r.height > 0.0
    ensures Overlaps(l, r) <==> exists px, py :: Contains(l, px, py) && Contains(r, px, py)
  {
    if Overlaps(l, r) {
      var px := OpenIntervalsMeet(l.x, l.x + l.width, r.x, r.x + r.width);
      var py := OpenIntervalsMeet(l.y, l.y + l.height, r.y, r.y + r.height);
      assert Contains(l, px, py) && Contains(r, px, py);
    }
  }

  // ---- what makes a set of frames valid, by their fields ----

  ghost predicate BoundedFrame(e: Element) {
    && e.kind == Some("frame") && e.x != None && e.y != None
    && e.width.Some? && e.height.Some? && e.width.value != 0.0 && e.height.value != 0.0
  }

  /** The point is strictly between corners of the element both ways. */
  ghost predicate BetweenCorners(e: Element, px: real, py: real)
    requires BoundedFrame(e)
  {
    && (exists low, high :: Across(e, low, high) && low < px < high)
    && (exists low, high :: Along(e, low, high) && low < py < high)
  }

  lemma BetweenCornersExactly(e: Element, px: real, py: real)
    requires BoundedFrame(e)
    ensures BetweenCorners(e, px, py) <==> Contains(FrameBounds(e).value, px, py)
  {
    BoundsAreTight(e);
    if BetweenCorners(e, px, py) {
      var l, r :| Across(e, l, r) && l < px < r;
      BoundsSpanCorners(e, FrameBounds(e).value, l, r);
      var k, h :| Along(e, k, h) && k < py < h;
      BoundsSpanCorners(e, FrameBounds(e).value, k, h);
    }
  }

  /** What the checks say against the Context at `i`, taken before any overlap is looked for. */
  ghost predicate Faulty(byId: map<string, Element>, contexts: seq<Context>, i: nat, e: FrameError)
    requires i < |contexts|
  {
    var frame, taken := contexts[i].frame, exists k :: 0 <= k < i && contexts[k].frame == contexts[i].frame;
    match e
    case FrameMissing => !taken && frame !in byId
    case FrameInvalid => taken || (frame in byId && !BoundedFrame(byId[frame]))
    case FramesOverlap => false
  }

  lemma FaultsAgree(byId: map<string, Element>, contexts: seq<Context>, i: nat)
    requires i < |contexts|
    ensures forall e :: Refuse(byId, contexts, i) == Some(e) <==> Faulty(byId, contexts, i, e)
  {
    var frame := contexts[i].frame;
    assert frame in byId ==> (IsBoundedFrame(byId[frame]) <==> BoundedFrame(byId[frame]));
  }

  /** Distinct frames, each a live bounded frame, no point strictly within the corners of two. */
  ghost predicate Separate(byId: map<string, Element>, contexts: seq<Context>) {
    && (forall i, j :: 0 <= i < j < |contexts| ==> contexts[i].frame != contexts[j].frame)
    && (forall c :: c in contexts ==> c.frame in byId && BoundedFrame(byId[c.frame]))
    && forall i, j, px, py :: 0 <= i < j < |contexts| ==>
         !(BetweenCorners(byId[contexts[i].frame], px, py) && BetweenCorners(byId[contexts[j].frame], px, py))
  }

  lemma NamedExactly(byId: map<string, Element>, contexts: seq<Context>)
    ensures FramesNamed(byId, contexts) <==>
              (forall i, j :: 0 <= i < j < |contexts| ==> contexts[i].frame != contexts[j].frame)
              && forall c :: c in contexts ==> c.frame in byId && BoundedFrame(byId[c.frame])
  {
    if FramesNamed(byId, contexts) {
      forall c | c in contexts ensures c.frame in byId && BoundedFrame(byId[c.frame]) {
        var i :| 0 <= i < |contexts| && contexts[i] == c;
        assert Refuse(byId, contexts, i).None?;
      }
      forall i, j | 0 <= i < j < |contexts| ensures contexts[i].frame != contexts[j].frame {
        assert Refuse(byId, contexts, j).None?;
      }
    }
  }

  lemma ClashIsCommonPoint(l: Element, r: Element)
    requires BoundedFrame(l) && BoundedFrame(r) && UnitRotation(l) && UnitRotation(r)
    ensures Overlaps(FrameBounds(l).value, FrameBounds(r).value)
            <==> exists px, py :: BetweenCorners(l, px, py) && BetweenCorners(r, px, py)
  {
    var lb, rb := FrameBounds(l).value, FrameBounds(r).value;
    BoundsAreOpen(l);
    BoundsAreOpen(r);
    OverlapIsCommonPoint(lb, rb);
    if Overlaps(lb, rb) {
      var px, py :| Contains(lb, px, py) && Contains(rb, px, py);
      BetweenCornersExactly(l, px, py);
      BetweenCornersExactly(r, px, py);
    }
    if px, py :| BetweenCorners(l, px, py) && BetweenCorners(r, px, py) {
      BetweenCornersExactly(l, px, py);
      BetweenCornersExactly(r, px, py);
    }
  }

  /** What validation accepts, told from the fields of the frames alone. */
  lemma ValidExactlyWhenSeparate(byId: map<string, Element>, contexts: seq<Context>)
    requires forall c :: c in contexts && c.frame in byId ==> UnitRotation(byId[c.frame])
    ensures FramesValid(byId, contexts) <==> Separate(byId, contexts)
  {
    NamedExactly(byId, contexts);
    if FramesNamed(byId, contexts) {
      forall i, j | 0 <= i < j < |contexts|
        ensures Clash(byId, contexts[i], contexts[j]) <==>
                  exists px, py :: BetweenCorners(byId[contexts[i].frame], px, py)
                                   && BetweenCorners(byId[contexts[j].frame], px, py)
      {
        ClashIsCommonPoint(byId[contexts[i].frame], byId[contexts[j].frame]);
      }
    }
  }

  /** In an accepted board no point lies strictly inside two Context frames, however they are turned. */
  lemma AcceptedFramesShareNoPoint(byId: map<string, Element>, contexts: seq<Context>, i: nat, j: nat, px: real, py: real)
    requires FramesValid(byId, contexts) && i < j < |contexts|
    ensures contexts[i].frame in byId && contexts[j].frame in byId && contexts[i].frame != contexts[j].frame
    ensures UnitRotation(byId[contexts[i].frame]) && UnitRotation(byId[contexts[j].frame])
            && FrameBounds(byId[contexts[i].frame]).Some? && FrameBounds(byId[contexts[j].frame]).Some? ==>
              !(StrictlyInside(byId[contexts[i].frame], px, py) && StrictlyInside(byId[contexts[j].frame], px, py))
  {
    assert Refuse(byId, contexts, i).None? && Refuse(byId, contexts, j).None?;
    var l, r := byId[contexts[i].frame], byId[contexts[j].frame];
    assert !Clash(byId, contexts[i], contexts[j]);
    if UnitRotation(l) && UnitRotation(r) && StrictlyInside(l, px, py) && StrictlyInside(r, px, py) {
      BoundsEnclose(l, px, py);
      BoundsEnclose(r, px, py);
      assert false;
    }
  }

  // ---- the registry over time ----

  datatype Change =
    | Register(frame: string, pinned: bool, newId: string)
    | Replace(entries: seq<Entry>)

  datatype Board = Board(entries: seq<Entry>, contexts: seq<Context>)

  function Live(entries: seq<Entry>): map<string, Element> {
    ById(LiveElements(entries))
  }

  predicate IsCandidateId(id: string) {
    "candidate:" <= id
  }

  function Candidate(frame: string, pinned: bool): Context {
    Context("candidate:" + frame, frame, pinned, None)
  }

  ghost predicate Accepts(b: Board, change: Change) {
    match change
    case Register(frame, pinned, _) => FramesValid(Live(b.entries), b.contexts + [Candidate(frame, pinned)])
    case Replace(entries) => FramesValid(Live(entries), b.contexts)
  }

  ghost function After(b: Board, change: Change): Board {
    if !Accepts(b, change) then b
    else match change
      case Register(frame, pinned, newId) => b.(contexts := b.contexts + [Context(newId, frame, pinned, None)])
      case Replace(entries) => b.(entries := entries)
  }

  /** Ids the database hands out: not taken, and never of the shape of a candidate. */
  predicate FreshId(b: Board, change: Change) {
    change.Register? ==> !IsCandidateId(change.newId) && forall c :: c in b.contexts ==> c.id != change.newId
  }

  ghost predicate BoardValid(b: Board) {
    && FramesValid(Live(b.entries), b.contexts)
    && UniqueContexts(b.contexts)
    && forall c :: c in b.contexts ==> !IsCandidateId(c.id)
  }

  class Registry {
    var entries: seq<Entry>
    var contexts: seq<Context>

    constructor ()
      ensures State() == Board([], []) && BoardValid(State())
    {
      entries, contexts := [], [];
    }

    function State(): Board
      reads this
    {
      Board(entries, contexts)
    }

    method RegisterAgentContext(frame: string, pinned: bool, newId: string) returns (r: Result<Context, FrameError>)
      requires BoardValid(State()) && FreshId(State(), Register(frame, pinned, newId))
      modifies this
      ensures State() == After(old(State()), Register(frame, pinned, newId)) && BoardValid(State())
      ensures r.Ok? <==> Accepts(old(State()), Register(frame, pinned, newId))
      ensures r.Ok? ==> r.value == Context(newId, frame, pinned, None)
    {
      var candidate := Candidate(frame, pinned);
      assert IsCandidateId(candidate.id);
      var checked := ValidateContextFrames(Live(entries), contexts + [candidate]);
      if checked.Err? {
        return Err(checked.error);
      }
      var created := Context(newId, frame, pinned, None);
      AfterStaysValid(State(), Register(frame, pinned, newId));
      contexts := contexts + [created];
      return Ok(created);
    }

    method ReplaceScene(next: seq<Entry>) returns (accepted: bool)
      requires BoardValid(State())
      modifies this
      ensures State() == After(old(State()), Replace(next)) && BoardValid(State())
      ensures accepted <==> Accepts(old(State()), Replace(next))
    {
      accepted := true;
      if |contexts| > 0 {
        var checked := ValidateContextFrames(Live(next), contexts);
        accepted := checked.Ok?;
      }
      if accepted {
        entries := next;
      }
    }
  }

  lemma AfterStaysValid(b: Board, change: Change)
    requires BoardValid(b) && FreshId(b, change)
    ensures BoardValid(After(b, change))
  {
    if change.Register? && Accepts(b, change) {
      var byId := Live(b.entries);
      var tried := b.contexts + [Candidate(change.frame, change.pinned)];
      var kept := After(b, change).contexts;
      forall i | 0 <= i < |kept| ensures Refuse(byId, kept, i).None? {
        assert Refuse(byId, tried, i).None?;
        assert forall k :: 0 <= k <= i ==> kept[k].frame == tried[k].frame;
      }
      forall i, j | 0 <= i < j < |kept| ensures !Clash(byId, kept[i], kept[j]) {
        assert !Clash(byId, tried[i], tried[j]);
      }
    }
  }

  ghost function AfterAll(b: Board, changes: seq<Change>): Board {
    if changes == [] then b else After(AfterAll(b, changes[..|changes| - 1]), changes[|changes| - 1])
  }

  /** Whatever registrations and scene replacements are tried, in any order. */
  lemma {:induction false} RegistryStaysValid(b: Board, changes: seq<Change>)
    requires BoardValid(b)
    requires forall i :: 0 <= i < |changes| ==> FreshId(AfterAll(b, changes[..i]), changes[i])
    ensures BoardValid(AfterAll(b, changes))
  {
    if changes != [] {
      var n := |changes| - 1;
      forall i | 0 <= i < n ensures FreshId(AfterAll(b, changes[..n][..i]), changes[..n][i]) {
        assert changes[..n][..i] == changes[..i];
      }
      RegistryStaysValid(b, changes[..n]);
      AfterStaysValid(AfterAll(b, changes[..n]), changes[n]);
    }
  }
}
