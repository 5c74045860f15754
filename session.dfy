/** The signing session: the page's mutable state (display scale, signature
    mode, preview texts, drag flag and box offsets, drawing flag, cursor and
    drawing surface) as the fields of one object, and the event handlers as
    methods that change only the fields they name. Each handler is tied to
    the step function of its component, whose properties are proved there. */
module Session {
  import opened Options
  import opened Geometry
  import Viewport
  import Drag
  import Stroke
  import Signature

  class Session {
    var scale: real
    var signatureMode: string
    var dragText: string
    var fontPreview: string

    var isDraggingBox: bool
    var boxLeft: Option<real>
    var boxTop: Option<real>

    var isDrawing: bool
    var lastX: real
    var lastY: real
    var segments: seq<Stroke.Segment>
    var canvasWidth: nat
    var canvasHeight: nat
    var style: Stroke.Style

    /** The drag controller's part of the state. */
    function DragView(): Drag.DragState
      reads this
    {
      Drag.DragState(isDraggingBox, boxLeft, boxTop)
    }

    /** The stroke capture's part of the state. */
    function CaptureView(): Stroke.Capture
      reads this
    {
      Stroke.Capture(isDrawing, Point(lastX, lastY), segments, canvasWidth, canvasHeight, style)
    }

    /** A fresh page: scale 1, type mode, nothing dragged or drawn, the box
        offsets unset, a blank surface of the given size with the context's
        default pen, and the preview texts the page starts with. */
    constructor (initialWidth: nat, initialHeight: nat, initialDragText: string, initialFontPreview: string)
      ensures scale == 1.0 && signatureMode == Signature.TypeMode
      ensures dragText == initialDragText && fontPreview == initialFontPreview
      ensures DragView() == Drag.Initial
      ensures CaptureView() == Stroke.Capture(false, Point(0.0, 0.0), [], initialWidth, initialHeight, Stroke.DefaultStyle)
    {
      scale := 1.0;
      signatureMode := Signature.TypeMode;
      dragText := initialDragText;
      fontPreview := initialFontPreview;
      isDraggingBox := false;
      boxLeft, boxTop := None, None;
      isDrawing := false;
      lastX, lastY := 0.0, 0.0;
      segments := [];
      canvasWidth, canvasHeight := initialWidth, initialHeight;
      style := Stroke.DefaultStyle;
    }

    /** Fit the first page, `pageWidth` points wide at scale 1, into a
        container of client width `clientWidth`. */
    method RenderPage(clientWidth: real, pageWidth: real)
      requires pageWidth > 0.0
      modifies this`scale
      ensures scale == Viewport.ComputeScale(Viewport.ContainerWidth(clientWidth), pageWidth)
      ensures scale * pageWidth == Viewport.ContainerWidth(clientWidth)
    {
      var containerWidth := clientWidth - Viewport.ContainerPadding;
      scale := containerWidth / pageWidth;
    }

    /** mousedown / touchstart on the placement box. */
    method BoxPressed()
      modifies this`isDraggingBox
      ensures DragView() == Drag.PressBox(old(DragView()))
      ensures isDraggingBox
    {
      isDraggingBox := true;
    }

    /** mouseup / touchend anywhere in the document. */
    method DocumentReleased()
      modifies this`isDraggingBox
      ensures DragView() == Drag.Release(old(DragView()))
      ensures !isDraggingBox
    {
      isDraggingBox := false;
    }

    /** mousemove / touchmove anywhere in the document, over a container with
        bounding rectangle `rect` and a box `boxW` x `boxH`. */
    method MoveBox(clientX: real, clientY: real, rect: Rect, boxW: real, boxH: real)
      modifies this`boxLeft, this`boxTop
      ensures DragView() == Drag.MoveBox(old(DragView()), clientX, clientY, rect, boxW, boxH)
      ensures isDraggingBox ==> Drag.Inside(DragView(), rect, boxW, boxH) && boxLeft.Some? && boxTop.Some?
      ensures !isDraggingBox ==> boxLeft == old(boxLeft) && boxTop == old(boxTop)
    {
      if !isDraggingBox {
        return;
      }
      var x := clientX - rect.left - boxW / 2.0;
      var y := clientY - rect.top - boxH / 2.0;
      x := Max(0.0, Min(x, rect.width - boxW));
      y := Max(0.0, Min(y, rect.height - boxH));
      boxLeft := Some(x);
      boxTop := Some(y);
    }

    /** mousedown / touchstart on the drawing surface, whose bounding
        rectangle is `rect`. */
    method StrokeStart(e: Stroke.InputEvent, rect: Rect)
      modifies this`isDrawing, this`lastX, this`lastY
      ensures CaptureView() == Stroke.Start(old(CaptureView()), e, rect)
    {
      isDrawing := true;
      var pos := Stroke.GetCoords(e, rect);
      if pos.None? {
        return;
      }
      lastX, lastY := pos.value.x, pos.value.y;
    }

    /** mousemove / touchmove on the drawing surface. */
    method StrokeMove(e: Stroke.InputEvent, rect: Rect)
      modifies this`segments, this`lastX, this`lastY
      ensures CaptureView() == Stroke.Move(old(CaptureView()), e, rect)
      ensures !isDrawing ==> segments == old(segments) && lastX == old(lastX) && lastY == old(lastY)
    {
      if !isDrawing {
        return;
      }
      var pos := Stroke.GetCoords(e, rect);
      if pos.None? {
        return;
      }
      segments := segments + [Stroke.Segment(Point(lastX, lastY), pos.value)];
      lastX, lastY := pos.value.x, pos.value.y;
    }

    /** mouseup / touchend on the drawing surface. */
    method StrokeStop()
      modifies this`isDrawing
      ensures CaptureView() == Stroke.Stop(old(CaptureView()))
    {
      isDrawing := false;
    }

    /** The clear button: blank the whole surface. */
    method ClearCanvas()
      modifies this`segments
      ensures CaptureView() == Stroke.Clear(old(CaptureView()))
      ensures segments == []
    {
      segments := [];
    }

    /** Size the surface to its wrapper element, when there is one with a
        positive width. */
    method ResizeCanvas(wrapper: Option<Stroke.Size>)
      modifies this`canvasWidth, this`canvasHeight, this`segments, this`style
      ensures CaptureView() == Stroke.Resize(old(CaptureView()), wrapper)
    {
      if wrapper.Some? && wrapper.value.width > 0 {
        // assigning the dimensions re-creates the bitmap and resets the context
        canvasWidth := wrapper.value.width;
        canvasHeight := wrapper.value.height;
        segments := [];
        style := Stroke.DefaultStyle;
        style := Stroke.Style(2.0, style.cap, style.color);
        style := Stroke.Style(style.lineWidth, Stroke.Round, style.color);
        style := Stroke.Style(style.lineWidth, style.cap, "#000000");  // "#000", as the context stores it
      }
    }

    /** Select a tab; `typed` is the current content of the text field. */
    method SwitchTab(mode: string, typed: string)
      modifies this`signatureMode, this`dragText
      ensures signatureMode == mode
      ensures dragText == Signature.DragPreview(mode, typed)
    {
      signatureMode := mode;
      UpdateDragPreview(typed);
    }

    /** Refresh the box's preview text from the mode and the text field. */
    method UpdateDragPreview(typed: string)
      modifies this`dragText
      ensures dragText == Signature.DragPreview(signatureMode, typed)
    {
      if signatureMode == Signature.TypeMode {
        dragText := if typed != "" then typed else Signature.TypedPlaceholder;
      } else {
        dragText := Signature.DrawingPlaceholder;
      }
    }

    /** The text field changed to `typed`. */
    method UpdateTypedSignature(typed: string)
      modifies this`dragText, this`fontPreview
      ensures dragText == Signature.DragPreview(signatureMode, typed)
      ensures fontPreview == Signature.FontPreview(typed)
    {
      UpdateDragPreview(typed);
      fontPreview := if typed != "" then typed else Signature.TypedPlaceholder;
    }

    /** The finish button, given the terms checkbox, the text field, the box's
        layout size, the first page's height in points and the document
        identifier. In draw mode the surface's current drawing is embedded.
        Changes nothing in the session. */
    method FinishSignature(termsAccepted: bool, typed: string, boxW: real, boxH: real, pdfH: real, docId: string)
      returns (o: Signature.Outcome)
      requires scale != 0.0
      ensures o == Signature.Finish(termsAccepted, signatureMode, typed, segments, boxLeft, boxTop, boxW, boxH, pdfH, scale, docId)
      ensures !termsAccepted <==> o.Aborted?
    {
      if !termsAccepted {
        return Signature.Aborted(Signature.TermsMessage);
      }
      var x := boxLeft.GetOr(0.0) / scale;
      var y := pdfH - ((boxTop.GetOr(0.0) + boxH) / scale);
      var placement;
      if signatureMode == Signature.TypeMode {
        var text := if typed != "" then typed else Signature.DefaultSignedText;
        placement := Signature.TextRun(text, x + 5.0, y + 15.0, 20.0 / scale);
      } else {
        placement := Signature.Image(segments, x, y, boxW / scale, boxH / scale);
      }
      o := Signature.Signed(placement, "OS_" + docId + "_Assinada.pdf");
    }
  }
}
