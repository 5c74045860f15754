/** The viewport mapper: the scale at which the first page is rendered so
    that it fits the container, and the transform between the placement
    box's screen position (CSS pixels, origin top-left, y down) and PDF
    user space (points, origin bottom-left, y up). */
module Viewport {

  /** Horizontal padding the container width loses before the page is fitted. */
  const ContainerPadding: real := 40.0

  /** Width available to the rendered page, given the container's client width. */
  function ContainerWidth(clientWidth: real): real {
    clientWidth - ContainerPadding
  }

  /** The display scale: CSS pixels per PDF point. The page rendered at this
      scale is exactly as wide as the container, and the scale is positive
      exactly when the container width is. */
  function ComputeScale(containerWidth: real, pageWidth: real): (scale: real)
    requires pageWidth > 0.0
    ensures scale * pageWidth == containerWidth
    ensures scale > 0.0 <==> containerWidth > 0.0
    ensures scale == 0.0 <==> containerWidth == 0.0
  {
    containerWidth / pageWidth
  }

  /** A container as wide as the page shows the page at its native size. */
  lemma ScaleOfEqualWidths(width: real)
    requires width > 0.0
    ensures ComputeScale(width, width) == 1.0
  {
  }

  /** The scale is the unique factor that stretches the page onto the container. */
  lemma ScaleIsUnique(containerWidth: real, pageWidth: real, s: real)
    requires pageWidth > 0.0
    requires s * pageWidth == containerWidth
    ensures s == ComputeScale(containerWidth, pageWidth)
  {
    var scale := ComputeScale(containerWidth, pageWidth);
    assert (s - scale) * pageWidth == 0.0;
  }

  /** A position in PDF user space, in points. */
  datatype PdfPoint = PdfPoint(x: real, y: real)

  /** The placement box's top-left offset inside the container, in CSS pixels. */
  datatype ScreenPoint = ScreenPoint(left: real, top: real)

  /** A screen length in CSS pixels as a length in PDF points. */
  function PdfLength(px: real, scale: real): real
    requires scale != 0.0
  {
    px / scale
  }

  /** The PDF position of the bottom-left corner of a box whose top-left
      corner is at (`left`, `top`) on screen and whose height is `boxH`, on a
      page `pdfH` points high. */
  function ToPdf(left: real, top: real, boxH: real, pdfH: real, scale: real): (p: PdfPoint)
    requires scale != 0.0
    ensures p.x * scale == left
    ensures (pdfH - p.y) * scale == top + boxH
  {
    PdfPoint(PdfLength(left, scale), pdfH - PdfLength(top + boxH, scale))
  }

  /** The inverse transform: the screen top-left offset of a box of height
      `boxH` whose bottom-left corner is at `p` in PDF space. */
  function ToScreen(p: PdfPoint, boxH: real, pdfH: real, scale: real): (s: ScreenPoint)
    requires scale != 0.0
    ensures s.left / scale == p.x
    ensures (s.top + boxH) / scale == pdfH - p.y
  {
    ScreenPoint(p.x * scale, (pdfH - p.y) * scale - boxH)
  }

  /** Screen to PDF and back reproduces the screen position exactly. */
  lemma ScreenRoundTrip(left: real, top: real, boxH: real, pdfH: real, scale: real)
    requires scale != 0.0
    ensures ToScreen(ToPdf(left, top, boxH, pdfH, scale), boxH, pdfH, scale) == ScreenPoint(left, top)
  {
    var p := ToPdf(left, top, boxH, pdfH, scale);
    assert p.x * scale == left;
    assert pdfH - p.y == (top + boxH) / scale;
  }

  /** PDF to screen and back reproduces the PDF position exactly. */
  lemma PdfRoundTrip(p: PdfPoint, boxH: real, pdfH: real, scale: real)
    requires scale != 0.0
    ensures ToPdf(ToScreen(p, boxH, pdfH, scale).left, ToScreen(p, boxH, pdfH, scale).top, boxH, pdfH, scale) == p
  {
    var s := ToScreen(p, boxH, pdfH, scale);
    assert s.top + boxH == (pdfH - p.y) * scale;
    assert (s.top + boxH) / scale == pdfH - p.y;
  }

  /** The transform is one-to-one: two screen positions with the same PDF
      position are the same position. */
  lemma ToPdfInjective(l1: real, t1: real, l2: real, t2: real, boxH: real, pdfH: real, scale: real)
    requires scale != 0.0
    requires ToPdf(l1, t1, boxH, pdfH, scale) == ToPdf(l2, t2, boxH, pdfH, scale)
    ensures l1 == l2 && t1 == t2
  {
    ScreenRoundTrip(l1, t1, boxH, pdfH, scale);
    ScreenRoundTrip(l2, t2, boxH, pdfH, scale);
  }

  /** The vertical axis is flipped: at a positive scale, moving the box down the
      screen moves its PDF position down the page (smaller y), while moving it
      right moves its PDF position right. */
  lemma ToPdfOrientation(l1: real, t1: real, l2: real, t2: real, boxH: real, pdfH: real, scale: real)
    requires scale > 0.0
    ensures t1 < t2 <==> ToPdf(l1, t1, boxH, pdfH, scale).y > ToPdf(l2, t2, boxH, pdfH, scale).y
    ensures l1 < l2 <==> ToPdf(l1, t1, boxH, pdfH, scale).x < ToPdf(l2, t2, boxH, pdfH, scale).x
  {
    assert t1 < t2 <==> (t1 + boxH) / scale < (t2 + boxH) / scale by {
      DivisionMonotone(t1 + boxH, t2 + boxH, scale);
    }
    DivisionMonotone(l1, l2, scale);
  }

  /** Dividing by a positive number keeps strict order, both ways. */
  lemma DivisionMonotone(a: real, b: real, scale: real)
    requires scale > 0.0
    ensures a < b <==> a / scale < b / scale
  {
    assert a == (a / scale) * scale;
    assert b == (b / scale) * scale;
    if a / scale < b / scale {
      assert (b / scale - a / scale) * scale > 0.0;
    }
  }

  /** A worked case: a 760 px container over an 800 pt page gives scale 0.95;
      a 150 x 50 box at (100, 200) on a 792 pt page lands at
      (2000/19, 10048/19), about (105.3, 528.8). */
  lemma WorkedExample()
    ensures ComputeScale(760.0, 800.0) == 0.95
    ensures ToPdf(100.0, 200.0, 50.0, 792.0, 0.95) == PdfPoint(2000.0 / 19.0, 10048.0 / 19.0)
  {
  }
}
