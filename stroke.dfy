/** Stroke capture on the drawing surface: Idle and Drawing, a cursor at the
    last recorded point, and the surface's contents as the list of line
    segments stroked onto it since it was last blanked. */
module Stroke {
  import opened Options
  import opened Geometry

  /** A pointer-family or touch-family input event, by its client coordinates. */
  datatype InputEvent =
    | Mouse(client: Point)
    | Touch(touches: seq<Point>)

  /** The surface-local point of an event: its client point (the first touch
      for a touch event) minus the origin of the surface's bounding rectangle.
      A touch event with no touches has no point (reading it throws). */
  function GetCoords(e: InputEvent, rect: Rect): (r: Option<Point>)
    ensures r.Some? <==> (e.Mouse? || |e.touches| > 0)
    ensures e.Mouse? ==> r.Some? && Point(r.value.x + rect.left, r.value.y + rect.top) == e.client
    ensures e.Touch? && |e.touches| > 0 ==> r.Some? && Point(r.value.x + rect.left, r.value.y + rect.top) == e.touches[0]
  {
    match e
    case Mouse(c) => Some(Point(c.x - rect.left, c.y - rect.top))
    case Touch(ts) => if |ts| == 0 then None else Some(Point(ts[0].x - rect.left, ts[0].y - rect.top))
  }

  datatype LineCap = Butt | Round

  /** The 2D context's stroke style. */
  datatype Style = Style(lineWidth: real, cap: LineCap, color: string)

  /** The context's style right after the surface is (re)sized. */
  const DefaultStyle := Style(1.0, Butt, "#000000")

  /** The signature pen: width 2, round caps, black. The context reads the
      colour "#000" back as "#000000". */
  const PenStyle := Style(2.0, Round, "#000000")

  datatype Segment = Segment(from: Point, to: Point)

  /** The drawing state and the surface it draws on. */
  datatype Capture = Capture(
    drawing: bool,
    last: Point,
    segments: seq<Segment>,
    width: nat,
    height: nat,
    style: Style)

  /** Pointer or touch down on the surface: enter Drawing and move the cursor
      to the event's point. The flag is set before the point is read, so an
      unreadable touch still enters Drawing. */
  function Start(c: Capture, e: InputEvent, rect: Rect): (r: Capture)
    ensures r.drawing
    ensures r.last == GetCoords(e, rect).GetOr(c.last)
    ensures r.segments == c.segments && r.width == c.width && r.height == c.height && r.style == c.style
  {
    match GetCoords(e, rect)
    case Some(p) => c.(drawing := true, last := p)
    case None => c.(drawing := true)
  }

  /** Stroke one segment from the cursor to `p` and advance the cursor. */
  function LineTo(c: Capture, p: Point): Capture {
    c.(segments := c.segments + [Segment(c.last, p)], last := p)
  }

  /** Pointer or touch move on the surface. */
  function Move(c: Capture, e: InputEvent, rect: Rect): (r: Capture)
    ensures r.drawing == c.drawing
    ensures |c.segments| <= |r.segments| <= |c.segments| + 1
    ensures r.segments[..|c.segments|] == c.segments
    ensures |r.segments| > |c.segments| ==> r.segments[|c.segments|].from == c.last && r.segments[|c.segments|].to == r.last
  {
    if !c.drawing then c
    else match GetCoords(e, rect)
      case Some(p) => LineTo(c, p)
      case None => c
  }

  /** Pointer up or touch end on the surface: back to Idle. */
  function Stop(c: Capture): (r: Capture)
    ensures !r.drawing
  {
    c.(drawing := false)
  }

  /** Blank the whole surface. */
  function Clear(c: Capture): (r: Capture)
    ensures r.segments == []
  {
    c.(segments := [])
  }

  /** Layout size of the surface's wrapper element, when it exists. */
  datatype Size = Size(width: nat, height: nat)

  /** Size the surface to its wrapper, when the wrapper exists and has a
      positive width. Assigning the dimensions re-creates the bitmap and
      resets the context, so the drawing is lost and the pen is set again. */
  function Resize(c: Capture, wrapper: Option<Size>): (r: Capture)
    ensures r.drawing == c.drawing && r.last == c.last
  {
    if wrapper.Some? && wrapper.value.width > 0 then
      c.(width := wrapper.value.width, height := wrapper.value.height, segments := [], style := PenStyle)
    else c
  }

  /** A move while Idle leaves the drawing and the cursor unchanged. */
  lemma MoveWhenIdleIsNoOp(c: Capture, e: InputEvent, rect: Rect)
    requires !c.drawing
    ensures Move(c, e, rect) == c
  {
  }

  /** A move while Drawing appends exactly one segment, from the cursor to the
      event's point, advances the cursor there, and changes nothing else. */
  lemma MoveWhileDrawing(c: Capture, e: InputEvent, rect: Rect, p: Point)
    requires c.drawing
    requires GetCoords(e, rect) == Some(p)
    ensures var r := Move(c, e, rect);
      && r.segments == c.segments + [Segment(c.last, p)]
      && r.last == p
      && r.drawing && r.width == c.width && r.height == c.height && r.style == c.style
  {
  }

  /** Stopping, whatever the state, leaves Idle with the drawing intact. */
  lemma StopKeepsDrawing(c: Capture)
    ensures !Stop(c).drawing
    ensures Stop(c).segments == c.segments && Stop(c).last == c.last
  {
  }

  /** Clearing blanks the surface and keeps its size, pen and drawing state;
      clearing twice is the same as clearing once. */
  lemma ClearBlanks(c: Capture)
    ensures Clear(c).segments == []
    ensures Clear(c) == c.(segments := [])
    ensures Clear(Clear(c)) == Clear(c)
  {
  }

  /** Resizing does nothing without a wrapper of positive width; otherwise it
      takes the wrapper's size, sets the pen, discards the drawing and keeps
      the drawing state and cursor. */
  lemma ResizeOutcome(c: Capture, wrapper: Option<Size>)
    ensures (wrapper.None? || wrapper.value.width == 0) ==> Resize(c, wrapper) == c
    ensures wrapper.Some? && wrapper.value.width > 0 ==>
      var r := Resize(c, wrapper);
      && r.width == wrapper.value.width && r.height == wrapper.value.height
      && r.style == PenStyle && r.segments == []
      && r.drawing == c.drawing && r.last == c.last
  {
  }

  /** Consecutive segments share endpoints. */
  predicate Connected(segs: seq<Segment>) {
    forall i :: 0 <= i < |segs| - 1 ==> segs[i].to == segs[i + 1].from
  }

  /** The polyline from `from` through `pts`, one segment per point. */
  function Path(from: Point, pts: seq<Point>): seq<Segment>
    decreases |pts|
  {
    if pts == [] then [] else [Segment(from, pts[0])] + Path(pts[0], pts[1..])
  }

  /** The last point of `pts`, or `from` when there is none. */
  function LastOf(from: Point, pts: seq<Point>): Point {
    if pts == [] then from else pts[|pts| - 1]
  }

  /** A path is connected, starts at its origin, has one segment per point and
      the i-th segment ends at the i-th point. */
  lemma {:induction false} PathShape(from: Point, pts: seq<Point>)
    ensures |Path(from, pts)| == |pts|
    ensures forall i :: 0 <= i < |pts| ==> Path(from, pts)[i].to == pts[i]
    ensures |pts| > 0 ==> Path(from, pts)[0].from == from
    ensures Connected(Path(from, pts))
    decreases |pts|
  {
    if pts != [] {
      var rest := Path(pts[0], pts[1..]);
      PathShape(pts[0], pts[1..]);
      assert Path(from, pts) == [Segment(from, pts[0])] + rest;
      forall i | 0 <= i < |pts| ensures Path(from, pts)[i].to == pts[i] {
        if i > 0 { assert Path(from, pts)[i] == rest[i - 1]; }
      }
      forall i | 0 <= i < |pts| - 1 ensures Path(from, pts)[i].to == Path(from, pts)[i + 1].from {
        if i > 0 { assert Path(from, pts)[i] == rest[i - 1]; }
      }
    }
  }

  /** The surface-local points of the events whose point can be read. */
  function Points(es: seq<InputEvent>, rect: Rect): seq<Point>
    decreases |es|
  {
    if es == [] then []
    else match GetCoords(es[0], rect)
      case Some(p) => [p] + Points(es[1..], rect)
      case None => Points(es[1..], rect)
  }

  /** The state after a sequence of moves. */
  function Moves(c: Capture, es: seq<InputEvent>, rect: Rect): Capture
    decreases |es|
  {
    if es == [] then c else Moves(Move(c, es[0], rect), es[1..], rect)
  }

  /** While Drawing, a sequence of moves strokes the polyline from the cursor
      through the events' points, and leaves the cursor at the last of them. */
  lemma {:induction false} MovesStrokePath(c: Capture, es: seq<InputEvent>, rect: Rect)
    requires c.drawing
    ensures Moves(c, es, rect) == c.(segments := c.segments + Path(c.last, Points(es, rect)),
                                      last := LastOf(c.last, Points(es, rect)))
    decreases |es|
  {
    if es != [] {
      var c' := Move(c, es[0], rect);
      MovesStrokePath(c', es[1..], rect);
      match GetCoords(es[0], rect)
      case Some(p) =>
        var rest := Points(es[1..], rect);
        assert Points(es, rect) == [p] + rest;
        assert c'.segments + Path(p, rest) == c.segments + Path(c.last, [p] + rest) by {
          assert ([p] + rest)[1..] == rest;
        }
        assert LastOf(p, rest) == LastOf(c.last, [p] + rest);
      case None =>
    }
  }

  /** A stroke begun at a readable point `p0` and extended by moves is one
      connected polyline appended to the earlier drawing, whose first segment
      starts at `p0`; the earlier drawing is untouched. */
  lemma StrokeIsConnected(c: Capture, down: InputEvent, es: seq<InputEvent>, rect: Rect, p0: Point)
    requires GetCoords(down, rect) == Some(p0)
    ensures var r := Moves(Start(c, down, rect), es, rect);
      && |r.segments| == |c.segments| + |Points(es, rect)|
      && r.segments[..|c.segments|] == c.segments
      && Connected(r.segments[|c.segments|..])
      && (|Points(es, rect)| > 0 ==> r.segments[|c.segments|].from == p0)
  {
    var s := Start(c, down, rect);
    MovesStrokePath(s, es, rect);
    PathShape(p0, Points(es, rect));
    var r := Moves(s, es, rect);
    assert r.segments[|c.segments|..] == Path(p0, Points(es, rect));
  }
}
