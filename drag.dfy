/** The placement-box drag controller: a dragging flag set by pressing the
    box and cleared by releasing anywhere in the document, and a move that
    centres the box on the pointer and clamps it into the container. */
module Drag {
  import opened Options
  import opened Geometry

  /** `Math.max(0, Math.min(v, hi))`: the value kept inside [0, hi], and 0
      when the interval is empty. */
  function Clamp(v: real, hi: real): (r: real)
    ensures 0.0 <= r
    ensures hi >= 0.0 ==> r <= hi
    ensures hi < 0.0 ==> r == 0.0
    ensures 0.0 <= v <= hi ==> r == v
    ensures r == v || r == 0.0 || r == hi
  {
    Max(0.0, Min(v, hi))
  }

  /** When the interval is not empty, the clamped value is the point of
      [0, hi] nearest to `v`. */
  lemma ClampIsNearest(v: real, hi: real, w: real)
    requires 0.0 <= w <= hi
    ensures Abs(Clamp(v, hi) - v) <= Abs(w - v)
  {
  }

  /** The controller's state: the dragging flag and the box's inline
      `left`/`top` offsets, which are unset until the first move. */
  datatype DragState = DragState(dragging: bool, left: Option<real>, top: Option<real>)

  /** The state before any interaction. */
  const Initial := DragState(false, None, None)

  /** Pressing (mouse or touch) on the box starts a drag. */
  function PressBox(s: DragState): (r: DragState)
    ensures r.dragging && r.left == s.left && r.top == s.top
  {
    s.(dragging := true)
  }

  /** Releasing (mouse or touch) anywhere in the document ends it. */
  function Release(s: DragState): (r: DragState)
    ensures !r.dragging && r.left == s.left && r.top == s.top
  {
    s.(dragging := false)
  }

  /** A pointer move at client point (`clientX`, `clientY`) over a container
      whose bounding rectangle is `rect`, for a box `boxW` x `boxH`. */
  function MoveBox(s: DragState, clientX: real, clientY: real, rect: Rect, boxW: real, boxH: real): (r: DragState)
    ensures r.dragging == s.dragging
    ensures !s.dragging ==> r == s
    ensures s.dragging ==> r.left.Some? && r.top.Some? && Inside(r, rect, boxW, boxH)
  {
    if !s.dragging then s
    else
      var x := clientX - rect.left - boxW / 2.0;
      var y := clientY - rect.top - boxH / 2.0;
      s.(left := Some(Clamp(x, rect.width - boxW)), top := Some(Clamp(y, rect.height - boxH)))
  }

  /** A move that is not part of a drag changes nothing. */
  lemma MoveWhenIdleIsNoOp(s: DragState, clientX: real, clientY: real, rect: Rect, boxW: real, boxH: real)
    requires !s.dragging
    ensures MoveBox(s, clientX, clientY, rect, boxW, boxH) == s
  {
  }

  /** After a move while dragging, each offset is set, not negative, fits the
      container when the box does, and is exactly 0 when the box is larger
      than the container on that axis. The flag is left as it was. */
  lemma MoveKeepsBoxInside(s: DragState, clientX: real, clientY: real, rect: Rect, boxW: real, boxH: real)
    requires s.dragging
    ensures var r := MoveBox(s, clientX, clientY, rect, boxW, boxH);
      && r.dragging
      && r.left.Some? && r.top.Some?
      && r.left.value >= 0.0 && r.top.value >= 0.0
      && (rect.width >= boxW ==> r.left.value <= rect.width - boxW)
      && (rect.height >= boxH ==> r.top.value <= rect.height - boxH)
      && (rect.width < boxW ==> r.left.value == 0.0)
      && (rect.height < boxH ==> r.top.value == 0.0)
  {
  }

  /** When the pointer-centred position already lies inside the container,
      the box is placed there exactly, with no clamping. */
  lemma MoveCentresBoxOnPointer(s: DragState, clientX: real, clientY: real, rect: Rect, boxW: real, boxH: real)
    requires s.dragging
    requires 0.0 <= clientX - rect.left - boxW / 2.0 <= rect.width - boxW
    requires 0.0 <= clientY - rect.top - boxH / 2.0 <= rect.height - boxH
    ensures MoveBox(s, clientX, clientY, rect, boxW, boxH).left == Some(clientX - rect.left - boxW / 2.0)
    ensures MoveBox(s, clientX, clientY, rect, boxW, boxH).top == Some(clientY - rect.top - boxH / 2.0)
  {
  }

  /** The input events the controller reacts to. */
  datatype DragEvent =
    | BoxDown                         // mousedown / touchstart on the box
    | DocumentUp                      // mouseup / touchend anywhere
    | PointerMove(clientX: real, clientY: real)   // mousemove / touchmove anywhere

  function Step(s: DragState, ev: DragEvent, rect: Rect, boxW: real, boxH: real): DragState {
    match ev
    case BoxDown => PressBox(s)
    case DocumentUp => Release(s)
    case PointerMove(cx, cy) => MoveBox(s, cx, cy, rect, boxW, boxH)
  }

  /** The state after a sequence of events, in order, over one layout. */
  function Run(s: DragState, evs: seq<DragEvent>, rect: Rect, boxW: real, boxH: real): DragState
    decreases |evs|
  {
    if evs == [] then s else Run(Step(s, evs[0], rect, boxW, boxH), evs[1..], rect, boxW, boxH)
  }

  /** An offset, when set, lies in the range a move can produce on its axis. */
  predicate OffsetInside(o: Option<real>, containerDim: real, boxDim: real) {
    o.Some? ==> 0.0 <= o.value <= Max(0.0, containerDim - boxDim)
  }

  predicate Inside(s: DragState, rect: Rect, boxW: real, boxH: real) {
    OffsetInside(s.left, rect.width, boxW) && OffsetInside(s.top, rect.height, boxH)
  }

  /** Whatever the pointer does, however far outside the container, a drag
      sequence over one layout never takes the box outside the container. */
  lemma {:induction false} RunKeepsBoxInside(s: DragState, evs: seq<DragEvent>, rect: Rect, boxW: real, boxH: real)
    requires Inside(s, rect, boxW, boxH)
    ensures Inside(Run(s, evs, rect, boxW, boxH), rect, boxW, boxH)
    decreases |evs|
  {
    if evs != [] {
      var s' := Step(s, evs[0], rect, boxW, boxH);
      assert Inside(s', rect, boxW, boxH);
      RunKeepsBoxInside(s', evs[1..], rect, boxW, boxH);
    }
  }

  /** Releasing ends the drag whatever came before: after a release, moves
      leave the box where it is until the box is pressed again. */
  lemma {:induction false} MovesAfterReleaseAreNoOps(s: DragState, moves: seq<DragEvent>, rect: Rect, boxW: real, boxH: real)
    requires forall i :: 0 <= i < |moves| ==> moves[i].PointerMove?
    ensures Run(Release(s), moves, rect, boxW, boxH) == Release(s)
    decreases |moves|
  {
    if moves != [] {
      assert Step(Release(s), moves[0], rect, boxW, boxH) == Release(s);
      MovesAfterReleaseAreNoOps(s, moves[1..], rect, boxW, boxH);
    }
  }
}
