/** Signature content and finalization: the mode choice, the preview texts,
    the document identifier and output file name, and the placement record
    handed to the PDF library when the signed document is produced. */
module Signature {
  import opened Options
  import opened Viewport
  import Stroke

  /** The mode the type tab selects; any other mode value is the draw mode. */
  const TypeMode := "type"

  const TypedPlaceholder := "Assinatura"
  const DrawingPlaceholder := "(Desenho)"
  const DefaultSignedText := "Assinado"
  const DefaultDocId := "000"
  const TermsMessage := "Aceite os termos."

  /** Horizontal and vertical offsets, in points, of the text run from the
      box's bottom-left corner, and the text size in CSS pixels. */
  const TextOffsetX: real := 5.0
  const TextOffsetY: real := 15.0
  const TextScreenSize: real := 20.0

  predicate IsTypeMode(mode: string) { mode == TypeMode }

  /** The text shown in the placement box: the typed text (or a placeholder)
      in type mode, a drawing marker otherwise. Never blank. */
  function DragPreview(mode: string, typed: string): (r: string)
    ensures r != ""
    ensures IsTypeMode(mode) && typed != "" ==> r == typed
    ensures IsTypeMode(mode) && typed == "" ==> r == TypedPlaceholder
    ensures !IsTypeMode(mode) ==> r == DrawingPlaceholder
  {
    if IsTypeMode(mode) then (if typed != "" then typed else TypedPlaceholder)
    else DrawingPlaceholder
  }

  /** The text of the font preview under the text field. Never blank. */
  function FontPreview(typed: string): (r: string)
    ensures r != ""
    ensures typed != "" ==> r == typed
    ensures typed == "" ==> r == TypedPlaceholder
  {
    if typed != "" then typed else TypedPlaceholder
  }

  /** The text written into the PDF in type mode. Never blank. */
  function SignedText(typed: string): (r: string)
    ensures r != ""
    ensures typed != "" ==> r == typed
    ensures typed == "" ==> r == DefaultSignedText
  {
    if typed != "" then typed else DefaultSignedText
  }

  /** In type mode the box previews exactly the text that will be embedded,
      unless the field is empty: then the preview placeholder and the
      embedded default differ. */
  lemma PreviewAgreesWithEmbeddedText(typed: string)
    ensures typed != "" <==> DragPreview(TypeMode, typed) == SignedText(typed)
    ensures FontPreview(typed) == DragPreview(TypeMode, typed)
  {
    if typed == "" {
      assert DragPreview(TypeMode, typed)[7] != SignedText(typed)[7];
    }
  }

  /** The document identifier from the `doc` query parameter: the default when
      the parameter is absent or empty. */
  function DocId(param: Option<string>): (id: string)
    ensures id != ""
    ensures param.Some? && param.value != "" ==> id == param.value
    ensures (param.None? || param.value == "") ==> id == DefaultDocId
  {
    if param.Some? && param.value != "" then param.value else DefaultDocId
  }

  const FilePrefix := "OS_"
  const FileSuffix := "_Assinada.pdf"

  /** The download name of the signed document. */
  function FileName(docId: string): (name: string)
    ensures |name| == |FilePrefix| + |docId| + |FileSuffix|
    ensures name[..|FilePrefix|] == FilePrefix
    ensures name[|FilePrefix|..|FilePrefix| + |docId|] == docId
    ensures name[|name| - |FileSuffix|..] == FileSuffix
  {
    FilePrefix + docId + FileSuffix
  }

  /** The document identifier a download name carries, when it has the
      download-name shape. */
  function DocIdOfFileName(name: string): Option<string> {
    if |name| >= |FilePrefix| + |FileSuffix|
       && name[..|FilePrefix|] == FilePrefix
       && name[|name| - |FileSuffix|..] == FileSuffix
    then Some(name[|FilePrefix|..|name| - |FileSuffix|])
    else None
  }

  /** The download name keeps the identifier recoverable, so distinct
      documents get distinct names. */
  lemma FileNameRoundTrip(docId: string)
    ensures DocIdOfFileName(FileName(docId)) == Some(docId)
  {
    var name := FileName(docId);
    assert name[..|FilePrefix|] == FilePrefix;
    assert name[|name| - |FileSuffix|..] == FileSuffix;
    assert name[|FilePrefix|..|name| - |FileSuffix|] == docId;
  }

  lemma FileNameInjective(a: string, b: string)
    requires FileName(a) == FileName(b)
    ensures a == b
  {
    FileNameRoundTrip(a);
    FileNameRoundTrip(b);
  }

  /** An unset inline offset reads as 0. */
  function Offset(o: Option<real>): real {
    o.GetOr(0.0)
  }

  /** What the PDF library is asked to draw on the first page: a text run, or
      the drawing surface's contents (exported as PNG) scaled into a box. */
  datatype Placement =
    | TextRun(text: string, x: real, y: real, size: real)
    | Image(drawing: seq<Stroke.Segment>, x: real, y: real, width: real, height: real)

  datatype Outcome =
    | Aborted(message: string)
    | Signed(placement: Placement, fileName: string)

  /** Finalization: abort unless the terms are accepted; otherwise map the
      box to PDF space and place the typed text (in type mode) or the drawing
      `drawing` (in any other mode), and name the result after the document. */
  function Finish(termsAccepted: bool, mode: string, typed: string, drawing: seq<Stroke.Segment>,
                  left: Option<real>, top: Option<real>, boxW: real, boxH: real,
                  pdfH: real, scale: real, docId: string): (o: Outcome)
    requires scale != 0.0
    ensures termsAccepted <==> o.Signed?
    ensures o.Signed? ==> o.fileName == FileName(docId)
    ensures o.Signed? ==> (o.placement.TextRun? <==> IsTypeMode(mode))
    ensures o.Signed? && o.placement.Image? ==> o.placement.drawing == drawing
  {
    if !termsAccepted then Aborted(TermsMessage)
    else
      var p := ToPdf(Offset(left), Offset(top), boxH, pdfH, scale);
      var placement :=
        if IsTypeMode(mode) then
          TextRun(SignedText(typed), p.x + TextOffsetX, p.y + TextOffsetY, TextScreenSize / scale)
        else
          Image(drawing, p.x, p.y, PdfLength(boxW, scale), PdfLength(boxH, scale));
      Signed(placement, FileName(docId))
  }

  /** Without accepted terms nothing is placed and nothing is named. */
  lemma FinishRequiresTerms(mode: string, typed: string, drawing: seq<Stroke.Segment>, left: Option<real>, top: Option<real>,
                            boxW: real, boxH: real, pdfH: real, scale: real, docId: string)
    requires scale != 0.0
    ensures Finish(false, mode, typed, drawing, left, top, boxW, boxH, pdfH, scale, docId) == Aborted(TermsMessage)
    ensures Finish(true, mode, typed, drawing, left, top, boxW, boxH, pdfH, scale, docId).Signed?
  {
  }

  /** The output always carries the identifier it was made for. */
  lemma FinishNamesDocument(mode: string, typed: string, drawing: seq<Stroke.Segment>, left: Option<real>, top: Option<real>,
                            boxW: real, boxH: real, pdfH: real, scale: real, docId: string)
    requires scale != 0.0
    ensures DocIdOfFileName(Finish(true, mode, typed, drawing, left, top, boxW, boxH, pdfH, scale, docId).fileName) == Some(docId)
  {
    FileNameRoundTrip(docId);
  }

  /** In type mode the text run is never blank, its anchor sits 5 points right
      of and 15 points above the box's bottom-left corner (an unset offset
      counting as 0), and its size renders as 20 CSS pixels at every zoom. */
  lemma FinishTypedText(typed: string, drawing: seq<Stroke.Segment>, left: Option<real>, top: Option<real>,
                        boxW: real, boxH: real, pdfH: real, scale: real, docId: string)
    requires scale != 0.0
    ensures var o := Finish(true, TypeMode, typed, drawing, left, top, boxW, boxH, pdfH, scale, docId);
      && o.placement.TextRun?
      && o.placement.text == SignedText(typed)
      && ToScreen(PdfPoint(o.placement.x - TextOffsetX, o.placement.y - TextOffsetY), boxH, pdfH, scale)
         == ScreenPoint(Offset(left), Offset(top))
      && o.placement.size * scale == TextScreenSize
  {
    ScreenRoundTrip(Offset(left), Offset(top), boxH, pdfH, scale);
  }

  /** In draw mode the image is the drawing given and covers the placement box exactly: its
      bottom-left corner maps back to the box's top-left offset and its size
      renders as the box's size in CSS pixels. */
  lemma FinishDrawing(mode: string, typed: string, drawing: seq<Stroke.Segment>, left: Option<real>, top: Option<real>,
                      boxW: real, boxH: real, pdfH: real, scale: real, docId: string)
    requires scale != 0.0
    requires !IsTypeMode(mode)
    ensures var o := Finish(true, mode, typed, drawing, left, top, boxW, boxH, pdfH, scale, docId);
      && o.placement.Image?
      && o.placement.drawing == drawing
      && ToScreen(PdfPoint(o.placement.x, o.placement.y), boxH, pdfH, scale) == ScreenPoint(Offset(left), Offset(top))
      && o.placement.width * scale == boxW
      && o.placement.height * scale == boxH
  {
    ScreenRoundTrip(Offset(left), Offset(top), boxH, pdfH, scale);
  }
}
