# PDF signing widget: viewport mapping, box dragging and stroke capture

This project models the logic of a browser widget that lets a user place a
signature on the first page of an uploaded PDF. The signature is either typed
text or a freehand drawing. The model covers three parts of `script.js`:

- **Viewport mapping** (module `Viewport`). The page is rendered at
  `scale = containerWidth / pageWidth`, where the container width is the
  container's client width minus 40. The placement box's screen offset
  (`left`, `top`, in CSS pixels, y down) maps to PDF points (y up) as
  `x = left / scale` and `y = pdfH - (top + boxH) / scale`. Exact `real`
  arithmetic stands in for JavaScript numbers, so the inverse transform is
  proved to be an exact round trip.
- **Placement-box drag controller** (module `Drag`). A dragging flag is set by
  pressing the box and cleared by releasing anywhere in the document. A move
  centres the box on the pointer and clamps each axis into
  `[0, containerDim - boxDim]`, or to 0 when the box is larger than the
  container.
- **Stroke capture** (module `Stroke`). The states are Idle and Drawing, plus
  a cursor at the last point. `start` records the surface-local point. `move`
  while Drawing strokes one segment from the cursor to the new point.
  `stop` returns to Idle. The surface's contents are modelled as the list of
  segments stroked since it was last blanked, plus its width, height and pen
  style.
- **Finalization and small helpers** (module `Signature`). This covers the
  mode choice and preview texts, the `doc` identifier with its `"000"`
  default, and the `OS_<doc>_Assinada.pdf` file name. It also covers the
  terms check and the placement record handed to the PDF library: a text run
  at `(x+5, y+15)` of size `20/scale`, or an image of size
  `boxW/scale x boxH/scale`.

`Session.Session` holds the script's global variables and the DOM state its
handlers change, as fields. Each handler is a method that may modify only
the fields it names (`modifies this`f`). Its postcondition ties the new
state to the step function of its component (`Drag.MoveBox`, `Stroke.Move`,
...). The lemmas about those step functions carry the properties.

Inputs that come from the browser are parameters: bounding rectangles,
element layout sizes, the text field, the terms checkbox, the page height
reported by the PDF library, and the `doc` query parameter.

Three behaviours of the code are modelled as written:

- Drawing stops only on `mouseup`/`touchend` on the surface. There is no
  pointer-leave handler.
- Only `lineCap` is set to round. `lineJoin` is not set.
- Failures of the PDF library are not caught in `finishSignature`.

## Model

| member | source | states |
|---|---|---|
| `Geometry.Min` | script.js:151-152 | `Math.min`: the result is at most both arguments and is one of them |
| `Geometry.Max` | script.js:151-152 | `Math.max`: the result is at least both arguments and is one of them |
| `Viewport.ContainerWidth` | script.js:41 | no contract of its own: the container's client width minus 40; see `Session.Session.RenderPage` |
| `Viewport.ComputeScale` | script.js:41-42 | the page rendered at the scale is exactly as wide as the container (`scale * pageWidth == containerWidth`); the scale is positive exactly when the container width is, and zero exactly when it is zero |
| `Viewport.ScaleOfEqualWidths` | script.js:42 | a container as wide as the page gives scale 1 |
| `Viewport.ScaleIsUnique` | script.js:42 | the scale is the only factor that stretches the page width onto the container width |
| `Viewport.ToPdf` | script.js:167-168 | the PDF point's x times the scale is the box's left offset, and its distance below the page top times the scale is the box's top offset plus its height |
| `Viewport.ToScreen` | script.js:167-168 | the inverse transform: the screen left offset divided by the scale is the PDF x, and the box's bottom edge divided by the scale is the distance below the page top |
| `Viewport.ScreenRoundTrip` | script.js:167-168 | mapping the box's screen offset to PDF space and back with `left = x*scale`, `top = (pdfH - y)*scale - boxH` gives the same offset exactly |
| `Viewport.PdfRoundTrip` | script.js:167-168 | mapping a PDF position to screen and back gives the same position exactly |
| `Viewport.ToPdfInjective` | script.js:167-168 | two box offsets with the same PDF position are equal |
| `Viewport.ToPdfOrientation` | script.js:167-168 | at a positive scale the vertical axis is flipped (lower on screen means smaller y) and the horizontal axis keeps its order, both as if-and-only-if |
| `Viewport.WorkedExample` | script.js:167-168 | a 760 px container over an 800 pt page gives scale 0.95; a 150x50 box at (100, 200) on a 792 pt page maps to (2000/19, 10048/19) |
| `Drag.Clamp` | script.js:151-152 | the result is at least 0 and at most `hi` when `hi >= 0`; it is 0 when `hi < 0`; it is `v` unchanged when `v` is already in range |
| `Drag.ClampIsNearest` | script.js:151-152 | when the range is not empty, the clamped value is the point of `[0, hi]` closest to the input |
| `Drag.PressBox` | script.js:134-135 | the drag flag is set and the offsets are kept |
| `Drag.Release` | script.js:136-137 | the drag flag is cleared and the offsets are kept |
| `Drag.MoveBox` | script.js:145-156 | the flag is kept; while not dragging nothing changes; while dragging both offsets are set and lie inside the container (at most `max(0, containerDim - boxDim)` on each axis) |
| `Drag.MoveWhenIdleIsNoOp` | script.js:146 | a move while not dragging changes nothing |
| `Drag.MoveKeepsBoxInside` | script.js:145-156 | after a move while dragging, both offsets are set and not negative; they fit the container when the box does; they are exactly 0 on an axis where the box is larger; the drag continues |
| `Drag.MoveCentresBoxOnPointer` | script.js:148-152 | when the pointer-centred position is in range, the box lands at `clientX - rect.left - boxW/2`, `clientY - rect.top - boxH/2` exactly |
| `Drag.RunKeepsBoxInside` | script.js:133-156 | any sequence of press, release and move events over one layout keeps the box inside the container, however far outside the pointer goes |
| `Drag.MovesAfterReleaseAreNoOps` | script.js:136-146 | after a release, any sequence of moves leaves the box where it is |
| `Stroke.GetCoords` | script.js:65-70 | a point exists exactly for mouse events and touch events with at least one touch; adding the surface's origin back to it gives the client point, of the first touch for touch events |
| `Stroke.Start` | script.js:73-78 | the state becomes Drawing; the cursor moves to the event's point, or stays when the point cannot be read; the drawing, size and pen are kept |
| `Stroke.Move` | script.js:79-88 | the flag is kept; the old drawing is a prefix of the new one, which has at most one more segment, running from the old cursor to the new one; see `Stroke.MoveWhileDrawing` |
| `Stroke.Stop` | script.js:89 | the state becomes Idle; see `Stroke.StopKeepsDrawing` |
| `Stroke.Clear` | script.js:99 | the drawing becomes empty; see `Stroke.ClearBlanks` |
| `Stroke.Resize` | script.js:54-63 | the drawing flag and cursor are kept; see `Stroke.ResizeOutcome` |
| `Stroke.MoveWhenIdleIsNoOp` | script.js:80 | a move while Idle leaves the segments, the cursor and everything else unchanged |
| `Stroke.MoveWhileDrawing` | script.js:79-88 | a move while Drawing appends exactly the segment from the cursor to the event's point and moves the cursor there; flag, size and pen are unchanged |
| `Stroke.StopKeepsDrawing` | script.js:89 | stop leaves Idle and keeps the segments and the cursor |
| `Stroke.ClearBlanks` | script.js:99 | clearing empties the drawing and changes nothing else; clearing twice equals clearing once |
| `Stroke.ResizeOutcome` | script.js:54-63 | without a wrapper of positive width nothing changes; otherwise the surface takes the wrapper's size, the pen becomes width 2, round caps, black, and the drawing is discarded |
| `Stroke.PathShape` | script.js:83-87 | the polyline through a list of points has one segment per point, starts at its origin, ends each segment at its point, and is connected |
| `Stroke.MovesStrokePath` | script.js:79-88 | while Drawing, any sequence of moves appends the polyline from the cursor through the readable points and leaves the cursor at the last of them |
| `Stroke.StrokeIsConnected` | script.js:73-88 | a stroke begun at a readable point keeps the earlier drawing and appends one connected polyline whose first segment starts at the point recorded by start |
| `Signature.DragPreview` | script.js:123-130 | the box preview is never blank; in type mode it is the typed text when there is some and "Assinatura" when the field is empty; in any other mode it is "(Desenho)" |
| `Signature.FontPreview` | script.js:120 | the font preview is never blank; it is the typed text when there is some and "Assinatura" when the field is empty |
| `Signature.SignedText` | script.js:171 | the embedded text is never blank; it is the typed text when there is some and "Assinado" when the field is empty |
| `Signature.PreviewAgreesWithEmbeddedText` | script.js:123-130 | in type mode the box preview equals the text that will be embedded exactly when the field is not empty (the two placeholders differ); the box and font previews agree |
| `Signature.DocId` | script.js:14 | the identifier is the `doc` parameter when it is present and not empty, and `"000"` otherwise |
| `Signature.FileName` | script.js:184 | the download name is `OS_`, then the identifier, then `_Assinada.pdf`, with exactly that length |
| `Signature.FileNameRoundTrip` | script.js:184 | the identifier can be read back from the download name `OS_<doc>_Assinada.pdf` |
| `Signature.FileNameInjective` | script.js:184 | distinct identifiers give distinct download names |
| `Signature.Finish` | script.js:159-185 | the result is signed exactly when the terms are accepted; a signed result is named `FileName(docId)`; it is a text run exactly in type mode; an image carries the drawing given |
| `Signature.FinishRequiresTerms` | script.js:160 | with the terms unchecked, finishing aborts with the terms message and produces no placement; with them checked it always produces one |
| `Signature.FinishNamesDocument` | script.js:184 | a signed result's file name carries the document identifier |
| `Signature.FinishTypedText` | script.js:167-173 | in type mode the result is a text run of the non-blank signed text; its anchor minus (5, 15) maps back to the box's screen offset, an unset offset counting as 0; its size times the scale is 20 px |
| `Signature.FinishDrawing` | script.js:167-177 | in any other mode the result is an image of the drawing given, whose bottom-left corner maps back to the box's screen offset and whose size times the scale is the box's size |
| `Session.Session.constructor` | script.js:1-5 | a fresh session has scale 1, type mode, no drag, unset box offsets, Idle, cursor (0, 0), an empty drawing and the context's default pen |
| `Session.Session.RenderPage` | script.js:40-42 | the scale becomes `(clientWidth - 40) / pageWidth`, which stretches the page onto the container |
| `Session.Session.BoxPressed` | script.js:134-135 | pressing the box sets the drag flag and nothing else |
| `Session.Session.DocumentReleased` | script.js:136-137 | releasing anywhere clears the drag flag and nothing else |
| `Session.Session.MoveBox` | script.js:139-156 | the offsets become those of `Drag.MoveBox`; while dragging they lie inside the container; otherwise they are unchanged |
| `Session.Session.StrokeStart` | script.js:73-78 | the stroke state becomes `Stroke.Start` of the old one; only the flag and the cursor may change |
| `Session.Session.StrokeMove` | script.js:79-88 | the stroke state becomes `Stroke.Move` of the old one; only the segments and the cursor may change, and while Idle they do not |
| `Session.Session.StrokeStop` | script.js:89 | only the drawing flag changes, to Idle |
| `Session.Session.ClearCanvas` | script.js:99 | only the drawing changes, to empty |
| `Session.Session.ResizeCanvas` | script.js:54-63 | the surface becomes `Stroke.Resize` of the old one; the drag state, mode and scale are untouched |
| `Session.Session.SwitchTab` | script.js:102-116 | the mode becomes the selected one and the box preview is refreshed for it |
| `Session.Session.UpdateDragPreview` | script.js:123-130 | the box preview becomes `Signature.DragPreview` of the current mode |
| `Session.Session.UpdateTypedSignature` | script.js:118-121 | both the box preview and the font preview are refreshed from the text field |
| `Session.Session.FinishSignature` | script.js:159-185 | the outcome is `Signature.Finish` applied to the session's mode, drawing, box offsets and scale; it aborts exactly when the terms are unchecked; the session is unchanged |

## Left out

- Loading and rendering the PDF with pdf.js (script.js:35-51): these are foreign library calls. Only the scale computation is modelled. The rendered canvas size (`pageWidth * scale`) is covered by `Viewport.ComputeScale`'s first postcondition.
- The PDF mutation library's `load`, `getPages`, `embedFont`, `embedPng`, `drawText`, `drawImage` and `save` (script.js:162-180): these are foreign calls. The model stops at the `Signature.Placement` record; an image record carries the surface's segments in place of the PNG bytes. The fixed font (Times Roman Italic) and the black colour of the text run are not part of the record. The library's failures are not modelled; the source does not catch them.
- The file input, FileReader, the upload handler that calls `renderPDF`, `resizeCanvas` and `setupCanvasEvents` in turn (script.js:18-33), the Blob/object-URL download, `alert`, and the notification `console.log` (script.js:181-189): these are browser I/O. The caller is expected to invoke the session methods in that order.
- `URLSearchParams` parsing (script.js:13-15): the `doc` parameter is an input to `Signature.DocId`. The `email_dest` parameter only feeds the log line and is not modelled.
- Listener registration in `setupCanvasEvents` (script.js:91-96): each upload registers the surface handlers again. The model assumes they are registered once, so one event is one transition.
- Canvas pixels, `clearRect` bounds and `toDataURL` PNG export: the drawing is the segment list. Clipping of segments that leave the surface is not modelled.
- The CSS class and display toggling in `switchTab`, and the deferred `setTimeout(resizeCanvas, 100)` after switching to the draw tab (script.js:104-114): these are DOM effects and event-loop timing. `ResizeCanvas` is a separate method that the caller invokes afterwards.
- `preventDefault` calls (script.js:74, 81, 141): the surface handlers call it on any cancelable event, mouse or touch, and the document's touchmove handler calls it while a box drag is in progress. It suppresses default browser actions and changes no modelled state.
- IEEE-754 rounding and the `"px"` string round trip through `parseFloat`: coordinates and offsets are exact reals, and an unset inline offset is `None`, which reads as 0.
- `Viewport.ComputeScale` requires a positive page width, which the PDF library always reports. A container whose client width is under 40 px gives a negative scale; the model keeps it, and the mapping works with it unchanged. A client width of exactly 40 px gives scale 0 (`0 / pageWidth`, no division by zero there). The division by zero then happens at finish time (script.js:167-168, 173, 177): it gives infinities, or NaN when the offset is unset or 0. The mapping functions require a non-zero scale, so the model does not represent that case.
- Asynchronous ordering and interleaving of handlers: the model is sequential.
