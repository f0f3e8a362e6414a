/** Geometry of the pinned diagram pane: zoom, viewport, scroll and the contain rectangle
    (scripts/mermaid_fit_probe.py). */
module FitPlan {

  const MIN_READABLE_ZOOM := 70
  const MAX_AUTO_FILL_ZOOM := 1000
  const TARGET_UTILIZATION := 85.0

  function Min(a: int, b: int): int { if a < b then a else b }
  function Max(a: int, b: int): int { if a > b then a else b }
  function MinR(a: real, b: real): real { if a < b then a else b }

  function Clamp(value: int, lo: int, hi: int): int {
    Max(lo, Min(hi, value))
  }

  function DivCeil(value: nat, divisor: nat): nat {
    if divisor == 0 then 0 else (value + divisor - 1) / divisor
  }

  function Ceil(x: real): int {
    -((-x).Floor)
  }

  function Utilization(used: int, total: int): real {
    if total == 0 then 0.0 else used as real * 100.0 / total as real
  }

  function AxisFillZoom(availableCells: nat, imagePx: nat, cellPx: nat): int {
    if availableCells == 0 || imagePx == 0 || cellPx == 0 then 100
    else Clamp(availableCells * cellPx * 100 / imagePx, 1, MAX_AUTO_FILL_ZOOM)
  }

  function FitZoom(widthCells: nat, heightCells: nat, imgW: nat, imgH: nat, fontW: nat, fontH: nat): int {
    if widthCells == 0 || heightCells == 0 || imgW == 0 || imgH == 0 then 100
    else
      var zoomW := widthCells * Max(fontW, 1) * 100 / imgW;
      var zoomH := heightCells * Max(fontH, 1) * 100 / imgH;
      Clamp(Min(zoomW, zoomH), 1, MAX_AUTO_FILL_ZOOM)
  }

  datatype Rect = Rect(x: int, y: int, width: int, height: int)

  // Exact rationals stand for the floating-point scale.
  function AxisScale(cells: nat, imgPx: nat, fontPx: nat): real
    requires imgPx > 0
  {
    (cells * Max(fontPx, 1)) as real / imgPx as real
  }

  function Scale(widthCells: nat, heightCells: nat, imgW: nat, imgH: nat, fontW: nat, fontH: nat): real
    requires imgW > 0 && imgH > 0
  {
    MinR(AxisScale(widthCells, imgW, fontW), AxisScale(heightCells, imgH, fontH))
  }

  // Length of the scaled image in cells.
  function CellSpan(imgPx: nat, scale: real, fontPx: nat): real {
    imgPx as real * scale / Max(fontPx, 1) as real
  }

  function Fitted(imgPx: nat, scale: real, fontPx: nat, cells: nat): int {
    Min(Ceil(CellSpan(imgPx, scale, fontPx)), cells)
  }

  function CenterFitted(widthCells: nat, heightCells: nat, imgW: nat, imgH: nat, fontW: nat, fontH: nat): Rect {
    if widthCells == 0 || heightCells == 0 || imgW == 0 || imgH == 0 then Rect(0, 0, widthCells, heightCells)
    else
      var scale := Scale(widthCells, heightCells, imgW, imgH, fontW, fontH);
      var w := Fitted(imgW, scale, fontW, widthCells);
      var h := Fitted(imgH, scale, fontH, heightCells);
      Rect((widthCells - w) / 2, (heightCells - h) / 2, w, h)
  }

  function ViewPx(areaCells: nat, zoom: nat, cellPx: nat): int
    requires zoom > 0
  {
    areaCells * cellPx * 100 / zoom
  }

  // Pixels of the image that the viewport leaves out along one axis.
  function MaxScrollPx(imagePx: nat, areaCells: nat, zoom: nat, cellPx: nat): int
    requires zoom > 0
  {
    Max(0, imagePx - ViewPx(areaCells, zoom, cellPx))
  }

  // Image pixels under one cell at this zoom.
  function StepPx(zoom: nat, cellPx: nat): int {
    Max(DivCeil(cellPx * 100, zoom), 1)
  }

  function ScrollCells(imagePx: nat, areaCells: nat, zoom: nat, cellPx: nat): int {
    if imagePx == 0 || areaCells == 0 || zoom == 0 || cellPx == 0 then 0
    else
      var maxScroll := MaxScrollPx(imagePx, areaCells, zoom, cellPx);
      if maxScroll == 0 then 0 else maxScroll / 2 / StepPx(zoom, cellPx)
  }

  // ---------------------------------------------------------------- viewport and zoom

  lemma DivBounds(a: nat, b: nat)
    requires b > 0
    ensures a / b * b <= a < a / b * b + b
  {
  }

  lemma MulAtLeast(x: int, y: int, z: int)
    requires x >= y && z > 0
    ensures x * z >= y * z
  {
  }

  // a / b reaches c exactly when a reaches c * b.
  lemma DivReaches(a: nat, b: nat, c: nat)
    requires b > 0
    ensures a / b >= c <==> a >= c * b
  {
    DivBounds(a, b);
    if a / b >= c {
      MulAtLeast(a / b, c, b);
    } else {
      MulAtLeast(c, a / b + 1, b);
    }
  }

  function Quotient(areaCells: nat, imagePx: nat, cellPx: nat): int
    requires imagePx > 0
  {
    areaCells * cellPx * 100 / imagePx
  }

  // The viewport covers the image along an axis exactly up to that axis' quotient.
  lemma CoversIff(imagePx: nat, areaCells: nat, zoom: nat, cellPx: nat)
    requires imagePx > 0 && zoom > 0
    ensures MaxScrollPx(imagePx, areaCells, zoom, cellPx) == 0 <==> zoom <= Quotient(areaCells, imagePx, cellPx)
  {
    var a := areaCells * cellPx * 100;
    DivReaches(a, zoom, imagePx);
    DivReaches(a, imagePx, zoom);
    assert imagePx * zoom == zoom * imagePx;
  }

  predicate Positive(widthCells: nat, heightCells: nat, imgW: nat, imgH: nat, fontW: nat, fontH: nat) {
    widthCells > 0 && heightCells > 0 && imgW > 0 && imgH > 0 && fontW > 0 && fontH > 0
  }

  // Fit zoom cuts an axis off only where its quotient drops below one percent.
  lemma FitOverflowIff(wc: nat, hc: nat, iw: nat, ih: nat, fw: nat, fh: nat)
    requires Positive(wc, hc, iw, ih, fw, fh)
    ensures var zoom := FitZoom(wc, hc, iw, ih, fw, fh);
            && 1 <= zoom
            && (MaxScrollPx(iw, wc, zoom, fw) > 0 <==> Quotient(wc, iw, fw) == 0)
            && (MaxScrollPx(ih, hc, zoom, fh) > 0 <==> Quotient(hc, ih, fh) == 0)
  {
    hide ViewPx, MaxScrollPx, Quotient;
    FitZoomIs(wc, hc, iw, ih, fw, fh);
    var zoom := FitZoom(wc, hc, iw, ih, fw, fh);
    CoversIff(iw, wc, zoom, fw);
    CoversIff(ih, hc, zoom, fh);
    ScrollNat(iw, wc, zoom, fw);
    ScrollNat(ih, hc, zoom, fh);
  }

  lemma FitZoomIs(wc: nat, hc: nat, iw: nat, ih: nat, fw: nat, fh: nat)
    requires Positive(wc, hc, iw, ih, fw, fh)
    ensures FitZoom(wc, hc, iw, ih, fw, fh) == Clamp(Min(Quotient(wc, iw, fw), Quotient(hc, ih, fh)), 1, MAX_AUTO_FILL_ZOOM)
    ensures Quotient(wc, iw, fw) >= 0 && Quotient(hc, ih, fh) >= 0
  {
    DivBounds(wc * fw * 100, iw);
    DivBounds(hc * fh * 100, ih);
  }

  lemma ScrollNat(imagePx: nat, areaCells: nat, zoom: nat, cellPx: nat)
    requires zoom > 0
    ensures MaxScrollPx(imagePx, areaCells, zoom, cellPx) >= 0
  {
  }

  function FillZoom(wc: nat, hc: nat, iw: nat, ih: nat, fw: nat, fh: nat): int {
    Clamp(Max(AxisFillZoom(wc, iw, fw), AxisFillZoom(hc, ih, fh)), MIN_READABLE_ZOOM, MAX_AUTO_FILL_ZOOM)
  }

  // The fill zoom overflows both axes exactly when readability forces it above both axis zooms.
  lemma FillOverflowsBothIff(wc: nat, hc: nat, iw: nat, ih: nat, fw: nat, fh: nat)
    requires Positive(wc, hc, iw, ih, fw, fh)
    ensures var zoom := FillZoom(wc, hc, iw, ih, fw, fh);
            && MIN_READABLE_ZOOM <= zoom <= MAX_AUTO_FILL_ZOOM
            && (MaxScrollPx(iw, wc, zoom, fw) > 0 && MaxScrollPx(ih, hc, zoom, fh) > 0 <==>
                Max(AxisFillZoom(wc, iw, fw), AxisFillZoom(hc, ih, fh)) < MIN_READABLE_ZOOM)
  {
    hide ViewPx, MaxScrollPx, Quotient;
    FillZoomIs(wc, iw, fw);
    FillZoomIs(hc, ih, fh);
    var zoom := FillZoom(wc, hc, iw, ih, fw, fh);
    CoversIff(iw, wc, zoom, fw);
    CoversIff(ih, hc, zoom, fh);
    ScrollNat(iw, wc, zoom, fw);
    ScrollNat(ih, hc, zoom, fh);
  }

  lemma FillZoomIs(cells: nat, px: nat, font: nat)
    requires cells > 0 && px > 0 && font > 0
    ensures AxisFillZoom(cells, px, font) == Clamp(Quotient(cells, px, font), 1, MAX_AUTO_FILL_ZOOM)
  {
  }

  // ---------------------------------------------------------------- centring

  lemma HalfSteps(max: nat, step: nat)
    requires step > 0
    ensures 0 <= max - 2 * (max / 2 / step * step) < 2 * step
  {
    DivBounds(max / 2, step);
  }

  // Between the left and the right margin there is less than two steps, in favour of the right one.
  lemma CentredScroll(imagePx: nat, areaCells: nat, zoom: nat, cellPx: nat)
    requires imagePx > 0 && areaCells > 0 && zoom > 0 && cellPx > 0
    ensures var left := ScrollCells(imagePx, areaCells, zoom, cellPx) * StepPx(zoom, cellPx);
            var right := imagePx - ViewPx(areaCells, zoom, cellPx) - left;
            && 0 <= left
            && (MaxScrollPx(imagePx, areaCells, zoom, cellPx) > 0 ==> 0 <= right && 0 <= right - left < 2 * StepPx(zoom, cellPx))
            && (MaxScrollPx(imagePx, areaCells, zoom, cellPx) == 0 ==> left == 0 && right <= 0)
  {
    var max := MaxScrollPx(imagePx, areaCells, zoom, cellPx);
    HalfSteps(max, StepPx(zoom, cellPx));
    hide ViewPx, StepPx;
    if max > 0 {
      var scroll := ScrollCells(imagePx, areaCells, zoom, cellPx);
      assert scroll == max / 2 / StepPx(zoom, cellPx);
      NonNegativeProduct(scroll, StepPx(zoom, cellPx));
    }
  }

  // A step is one cell at this zoom, rounded up to whole pixels.
  lemma StepIsZoomedCell(zoom: nat, cellPx: nat)
    requires zoom > 0 && cellPx > 0
    ensures StepPx(zoom, cellPx) >= 1
    ensures (StepPx(zoom, cellPx) - 1) * zoom < cellPx * 100 <= StepPx(zoom, cellPx) * zoom
  {
    var a := cellPx * 100;
    DivBounds(a + zoom - 1, zoom);
    DivReaches(a + zoom - 1, zoom, 1);
    var q := (a + zoom - 1) / zoom;
    assert (q - 1) * zoom == q * zoom - zoom;
  }

  lemma NonNegativeProduct(a: int, b: int)
    requires a >= 0 && b >= 0
    ensures a * b >= 0
  {
  }

  // ---------------------------------------------------------------- the contain rectangle

  lemma DivReal(a: real, b: real)
    requires b > 0.0
    ensures a / b * b == a && b * (a / b) == a
  {
  }

  lemma MulMonoReal(x: real, y: real, z: real)
    requires x <= y && z >= 0.0
    ensures z * x <= z * y && x * z <= y * z
  {
  }

  lemma DivMonoReal(x: real, y: real, z: real)
    requires x <= y && z > 0.0
    ensures x / z <= y / z
  {
  }

  lemma CeilBounds(x: real)
    ensures (Ceil(x) - 1) as real < x <= Ceil(x) as real
  {
  }

  // Along an axis that bounds the scale the image spans all cells.
  lemma FullSpan(cells: nat, imgPx: nat, fontPx: nat)
    requires imgPx > 0
    ensures CellSpan(imgPx, AxisScale(cells, imgPx, fontPx), fontPx) == cells as real
  {
    var f, c := Max(fontPx, 1) as real, cells as real;
    assert (cells * Max(fontPx, 1)) as real == c * f;
    DivReal(c * f, imgPx as real);
    CancelRight(c, f);
  }

  lemma CancelRight(a: real, b: real)
    requires b > 0.0
    ensures a * b / b == a
  {
  }

  lemma SpanMonotone(imgPx: nat, s: real, t: real, fontPx: nat)
    requires s <= t
    ensures CellSpan(imgPx, s, fontPx) <= CellSpan(imgPx, t, fontPx)
  {
    MulMonoReal(s, t, imgPx as real);
    DivMonoReal(imgPx as real * s, imgPx as real * t, Max(fontPx, 1) as real);
  }

  lemma FittedFull(imgPx: nat, fontPx: nat, cells: nat)
    requires imgPx > 0
    ensures Fitted(imgPx, AxisScale(cells, imgPx, fontPx), fontPx, cells) == cells
  {
    hide AxisScale, CellSpan;
    FullSpan(cells, imgPx, fontPx);
  }

  // Along the other axis it spans the least number of cells that holds it.
  lemma FittedTight(imgPx: nat, scale: real, fontPx: nat, cells: nat)
    requires imgPx > 0 && 0.0 < scale <= AxisScale(cells, imgPx, fontPx)
    ensures var n := Fitted(imgPx, scale, fontPx, cells);
            1 <= n <= cells && (n - 1) as real < CellSpan(imgPx, scale, fontPx) <= n as real
  {
    PositiveQuotient(imgPx as real, scale, Max(fontPx, 1) as real);
    assert CellSpan(imgPx, scale, fontPx) > 0.0;
    hide AxisScale, CellSpan, Ceil;
    SpanMonotone(imgPx, scale, AxisScale(cells, imgPx, fontPx), fontPx);
    FullSpan(cells, imgPx, fontPx);
    CeilBounds(CellSpan(imgPx, scale, fontPx));
  }

  lemma PositiveQuotient(a: real, b: real, c: real)
    requires a > 0.0 && b > 0.0 && c > 0.0
    ensures a * b / c > 0.0
  {
    assert a * b > 0.0;
  }

  lemma ScalePositive(wc: nat, hc: nat, iw: nat, ih: nat, fw: nat, fh: nat)
    requires wc > 0 && hc > 0 && iw > 0 && ih > 0
    ensures 0.0 < Scale(wc, hc, iw, ih, fw, fh)
  {
    NonZeroProduct(wc, Max(fw, 1));
    NonZeroProduct(hc, Max(fh, 1));
    PositiveQuotient(1.0, (wc * Max(fw, 1)) as real, iw as real);
    PositiveQuotient(1.0, (hc * Max(fh, 1)) as real, ih as real);
  }

  lemma NonZeroProduct(a: int, b: int)
    requires a > 0 && b > 0
    ensures a * b > 0
  {
  }

  // The rectangle lies in the pane, is centred to within a cell, spans one axis, and along each
  // axis is the least whole number of cells that holds the scaled image.
  lemma ContainRect(wc: nat, hc: nat, iw: nat, ih: nat, fw: nat, fh: nat)
    requires wc > 0 && hc > 0 && iw > 0 && ih > 0
    ensures var r, s := CenterFitted(wc, hc, iw, ih, fw, fh), Scale(wc, hc, iw, ih, fw, fh);
            && 0 <= r.x && 0 <= r.y && 1 <= r.width && 1 <= r.height
            && r.x + r.width <= wc && r.y + r.height <= hc
            && 0 <= (wc - r.x - r.width) - r.x <= 1 && 0 <= (hc - r.y - r.height) - r.y <= 1
            && (r.width == wc || r.height == hc)
            && (r.width - 1) as real < CellSpan(iw, s, fw) <= r.width as real
            && (r.height - 1) as real < CellSpan(ih, s, fh) <= r.height as real
  {
    var s := Scale(wc, hc, iw, ih, fw, fh);
    ScalePositive(wc, hc, iw, ih, fw, fh);
    hide Fitted, CellSpan, AxisScale;
    FittedTight(iw, s, fw, wc);
    FittedTight(ih, s, fh, hc);
    FittedFull(iw, fw, wc);
    FittedFull(ih, fh, hc);
  }

  // ---------------------------------------------------------------- utilization and the two plans

  datatype Mode = Fit(rect: Rect) | Fill(zoom: int, scrollX: int, scrollY: int)

  datatype Plan = Plan(
    contain: Rect, fitZoom: int, fillZoom: int,
    underutilized: bool, larger: bool,
    oldPlan: Mode, fixedPlan: Mode, clippingBug: bool)

  function WidthUse(wc: nat, hc: nat, iw: nat, ih: nat, fw: nat, fh: nat): real {
    Utilization(CenterFitted(wc, hc, iw, ih, fw, fh).width, wc)
  }

  function HeightUse(wc: nat, hc: nat, iw: nat, ih: nat, fw: nat, fh: nat): real {
    Utilization(CenterFitted(wc, hc, iw, ih, fw, fh).height, hc)
  }

  function AreaUse(wc: nat, hc: nat, iw: nat, ih: nat, fw: nat, fh: nat): real {
    var r := CenterFitted(wc, hc, iw, ih, fw, fh);
    Utilization(r.width * r.height, wc * hc)
  }

  function MakePlan(wc: nat, hc: nat, iw: nat, ih: nat, fw: nat, fh: nat): Plan {
    var contain := CenterFitted(wc, hc, iw, ih, fw, fh);
    var fitZoom := FitZoom(wc, hc, iw, ih, fw, fh);
    var fillZoom := FillZoom(wc, hc, iw, ih, fw, fh);
    var underutilized :=
      || WidthUse(wc, hc, iw, ih, fw, fh) < TARGET_UTILIZATION
      || HeightUse(wc, hc, iw, ih, fw, fh) < TARGET_UTILIZATION
      || AreaUse(wc, hc, iw, ih, fw, fh) < TARGET_UTILIZATION;
    var larger := fillZoom > fitZoom + 5;
    var oldFills := (fitZoom < MIN_READABLE_ZOOM || underutilized) && larger;
    var fixedFills := underutilized && larger;
    var fill := Fill(fillZoom, ScrollCells(iw, wc, fillZoom, fw), ScrollCells(ih, hc, fillZoom, fh));
    Plan(contain, fitZoom, fillZoom, underutilized, larger,
         if oldFills then fill else Fit(contain),
         if fixedFills then fill else Fit(contain),
         oldFills && !fixedFills)
  }

  lemma UseOfFullAxis(used: int, total: nat, other: int, otherTotal: nat)
    requires total > 0 && otherTotal > 0 && other == otherTotal
    ensures Utilization(used * other, total * otherTotal) == Utilization(used, total)
    ensures Utilization(other, otherTotal) == 100.0
  {
    var u, t, o := used as real, total as real, otherTotal as real;
    ProductReal(used, other);
    ProductReal(total, otherTotal);
    NonZeroProduct(total, otherTotal);
    CancelFactor(u * 100.0, t, o);
    SwapFactor(u, o);
    CancelRight(100.0, o);
    CancelFactor(100.0, 1.0, o);
  }

  lemma ProductReal(a: int, b: int)
    ensures (a * b) as real == a as real * b as real
  {
  }

  lemma SwapFactor(u: real, o: real)
    ensures u * o * 100.0 == u * 100.0 * o && o * 100.0 == 100.0 * o
  {
  }

  lemma CancelFactor(a: real, b: real, c: real)
    requires b > 0.0 && c > 0.0
    ensures b * c > 0.0 && a * c / (b * c) == a / b
  {
    DivReal(a, b);
    assert a / b * (b * c) == a / b * b * c;
    DivReal(a * c, b * c);
  }

  lemma UseAtMost(used: int, total: nat)
    requires used <= total
    ensures Utilization(used, total) <= 100.0
  {
    if total > 0 {
      DivMonoReal(used as real * 100.0, total as real * 100.0, total as real);
      assert total as real * 100.0 / total as real == 100.0;
    }
  }

  // The area share is the smaller of the two axis shares, for all sizes.
  lemma AreaIsMin(wc: nat, hc: nat, iw: nat, ih: nat, fw: nat, fh: nat)
    ensures AreaUse(wc, hc, iw, ih, fw, fh) == MinR(WidthUse(wc, hc, iw, ih, fw, fh), HeightUse(wc, hc, iw, ih, fw, fh))
  {
    var r := CenterFitted(wc, hc, iw, ih, fw, fh);
    if wc > 0 && hc > 0 {
      if iw > 0 && ih > 0 {
        ContainRect(wc, hc, iw, ih, fw, fh);
      }
      hide CenterFitted, Utilization;
      UseAtMost(r.width, wc);
      UseAtMost(r.height, hc);
      if r.height == hc {
        UseOfFullAxis(r.width, wc, r.height, hc);
      } else {
        UseOfFullAxis(r.height, hc, r.width, wc);
        assert r.width * r.height == r.height * r.width && wc * hc == hc * wc;
      }
    } else {
      EmptyPane(wc, hc, iw, ih, fw, fh);
    }
  }

  lemma EmptyPane(wc: nat, hc: nat, iw: nat, ih: nat, fw: nat, fh: nat)
    requires wc == 0 || hc == 0
    ensures AreaUse(wc, hc, iw, ih, fw, fh) == 0.0
    ensures MinR(WidthUse(wc, hc, iw, ih, fw, fh), HeightUse(wc, hc, iw, ih, fw, fh)) == 0.0
  {
    assert wc * hc == 0;
    UseNonNegative(wc, wc);
    UseNonNegative(hc, hc);
  }

  lemma UseNonNegative(used: nat, total: nat)
    ensures Utilization(used, total) >= 0.0
  {
    if total > 0 {
      DivMonoReal(0.0, used as real * 100.0, total as real);
    }
  }

  // The three-way test is the area test.
  lemma UnderutilizedIff(wc: nat, hc: nat, iw: nat, ih: nat, fw: nat, fh: nat)
    ensures MakePlan(wc, hc, iw, ih, fw, fh).underutilized <==> AreaUse(wc, hc, iw, ih, fw, fh) < TARGET_UTILIZATION
  {
    AreaIsMin(wc, hc, iw, ih, fw, fh);
    hide WidthUse, HeightUse, AreaUse;
  }

  predicate Overflows(imagePx: nat, areaCells: nat, zoom: int, cellPx: nat)
    requires zoom > 0
  {
    MaxScrollPx(imagePx, areaCells, zoom, cellPx) > 0
  }

  // A fill that is meaningfully larger than fit always crops: both axes exactly when neither axis
  // zoom is readable, and otherwise exactly one.
  lemma LargerFillCrops(wc: nat, hc: nat, iw: nat, ih: nat, fw: nat, fh: nat)
    requires Positive(wc, hc, iw, ih, fw, fh) && MakePlan(wc, hc, iw, ih, fw, fh).larger
    ensures var zoom := FillZoom(wc, hc, iw, ih, fw, fh);
            && zoom > 0
            && (Overflows(iw, wc, zoom, fw) || Overflows(ih, hc, zoom, fh))
            && (Overflows(iw, wc, zoom, fw) && Overflows(ih, hc, zoom, fh) <==>
                Max(AxisFillZoom(wc, iw, fw), AxisFillZoom(hc, ih, fh)) < MIN_READABLE_ZOOM)
  {
    hide ViewPx, MaxScrollPx, Quotient, AxisFillZoom, CenterFitted, WidthUse, HeightUse, AreaUse;
    FillOverflowsBothIff(wc, hc, iw, ih, fw, fh);
    FitZoomIs(wc, hc, iw, ih, fw, fh);
    var zoom := FillZoom(wc, hc, iw, ih, fw, fh);
    CoversIff(iw, wc, zoom, fw);
    CoversIff(ih, hc, zoom, fh);
    ScrollNat(iw, wc, zoom, fw);
    ScrollNat(ih, hc, zoom, fh);
  }

  // The reported bug, by the sizes alone: fit is unreadable, fill is meaningfully larger, and yet the contain
  // rectangle reaches the target share of the pane.  The old plan then crops what the fixed plan shows whole.
  lemma ClippingBugIff(wc: nat, hc: nat, iw: nat, ih: nat, fw: nat, fh: nat)
    requires Positive(wc, hc, iw, ih, fw, fh)
    ensures var plan := MakePlan(wc, hc, iw, ih, fw, fh);
            && (plan.clippingBug <==>
                  && FitZoom(wc, hc, iw, ih, fw, fh) < MIN_READABLE_ZOOM
                  && FillZoom(wc, hc, iw, ih, fw, fh) > FitZoom(wc, hc, iw, ih, fw, fh) + 5
                  && AreaUse(wc, hc, iw, ih, fw, fh) >= TARGET_UTILIZATION)
            && (plan.fixedPlan.Fill? ==> plan.oldPlan == plan.fixedPlan)
            && (plan.clippingBug ==>
                  && plan.fixedPlan == Fit(plan.contain)
                  && plan.oldPlan.zoom > 0
                  && (Overflows(iw, wc, plan.oldPlan.zoom, fw) || Overflows(ih, hc, plan.oldPlan.zoom, fh)))
  {
    hide ScrollCells, MaxScrollPx, CenterFitted, WidthUse, HeightUse, AreaUse, FitZoom, FillZoom;
    UnderutilizedIff(wc, hc, iw, ih, fw, fh);
    if MakePlan(wc, hc, iw, ih, fw, fh).larger {
      LargerFillCrops(wc, hc, iw, ih, fw, fh);
    }
  }

  // When each plan fills, and what it then shows, for all sizes.
  lemma PlansFillIff(wc: nat, hc: nat, iw: nat, ih: nat, fw: nat, fh: nat)
    ensures var plan, fit, fill := MakePlan(wc, hc, iw, ih, fw, fh), FitZoom(wc, hc, iw, ih, fw, fh), FillZoom(wc, hc, iw, ih, fw, fh);
            && (plan.fixedPlan.Fill? <==> AreaUse(wc, hc, iw, ih, fw, fh) < 85.0 && fill > fit + 5)
            && (plan.oldPlan.Fill? <==> (fit < 70 || AreaUse(wc, hc, iw, ih, fw, fh) < 85.0) && fill > fit + 5)
            && plan.contain == CenterFitted(wc, hc, iw, ih, fw, fh) && plan.fitZoom == fit && plan.fillZoom == fill
            && forall mode :: mode in {plan.oldPlan, plan.fixedPlan} ==>
                 if mode.Fill? then mode.zoom == fill else mode.rect == CenterFitted(wc, hc, iw, ih, fw, fh)
  {
    hide ScrollCells, CenterFitted, WidthUse, HeightUse, AreaUse, FitZoom, FillZoom;
    UnderutilizedIff(wc, hc, iw, ih, fw, fh);
  }

  // The area share is below the target exactly when the rectangle's cells are fewer than 85 in a hundred.
  lemma BelowTargetIff(wc: nat, hc: nat, iw: nat, ih: nat, fw: nat, fh: nat)
    requires wc > 0 && hc > 0
    ensures var r := CenterFitted(wc, hc, iw, ih, fw, fh);
            AreaUse(wc, hc, iw, ih, fw, fh) < 85.0 <==> 100 * (r.width * r.height) < 85 * (wc * hc)
  {
    var r := CenterFitted(wc, hc, iw, ih, fw, fh);
    NonZeroProduct(wc, hc);
    ShareBelow(r.width * r.height, wc * hc);
    hide CenterFitted;
  }

  lemma ShareBelow(used: int, total: int)
    requires total > 0
    ensures Utilization(used, total) < 85.0 <==> 100 * used < 85 * total
  {
    var a, b := used as real * 100.0, total as real;
    DivReal(a, b);
    if a / b < 85.0 {
      MulLessReal(a / b, 85.0, b);
    } else {
      MulMonoReal(85.0, a / b, b);
    }
    assert a == (100 * used) as real && 85.0 * b == (85 * total) as real;
  }

  lemma MulLessReal(x: real, y: real, z: real)
    requires x < y && z > 0.0
    ensures x * z < y * z
  {
  }

  // No whole percentage up to the maximum shows both axes in full but for those up to the fit zoom.
  lemma FitZoomIsLargest(wc: nat, hc: nat, iw: nat, ih: nat, fw: nat, fh: nat, zoom: nat)
    requires Positive(wc, hc, iw, ih, fw, fh) && 1 <= zoom <= MAX_AUTO_FILL_ZOOM
    ensures 1 <= FitZoom(wc, hc, iw, ih, fw, fh) <= MAX_AUTO_FILL_ZOOM
    ensures MaxScrollPx(iw, wc, zoom, fw) == 0 && MaxScrollPx(ih, hc, zoom, fh) == 0 ==> zoom <= FitZoom(wc, hc, iw, ih, fw, fh)
    ensures 1 < zoom <= FitZoom(wc, hc, iw, ih, fw, fh) ==> MaxScrollPx(iw, wc, zoom, fw) == 0 && MaxScrollPx(ih, hc, zoom, fh) == 0
  {
    hide ViewPx, MaxScrollPx, Quotient;
    FitZoomIs(wc, hc, iw, ih, fw, fh);
    CoversIff(iw, wc, zoom, fw);
    CoversIff(ih, hc, zoom, fh);
  }

  // Of the readable percentages those up to the fill zoom show one axis in full, but for the least one.
  lemma FillZoomIsLargest(wc: nat, hc: nat, iw: nat, ih: nat, fw: nat, fh: nat, zoom: nat)
    requires Positive(wc, hc, iw, ih, fw, fh) && MIN_READABLE_ZOOM <= zoom <= MAX_AUTO_FILL_ZOOM
    ensures MIN_READABLE_ZOOM <= FillZoom(wc, hc, iw, ih, fw, fh) <= MAX_AUTO_FILL_ZOOM
    ensures MaxScrollPx(iw, wc, zoom, fw) == 0 || MaxScrollPx(ih, hc, zoom, fh) == 0 ==> zoom <= FillZoom(wc, hc, iw, ih, fw, fh)
    ensures MIN_READABLE_ZOOM < zoom <= FillZoom(wc, hc, iw, ih, fw, fh) ==>
              MaxScrollPx(iw, wc, zoom, fw) == 0 || MaxScrollPx(ih, hc, zoom, fh) == 0
  {
    hide ViewPx, MaxScrollPx, Quotient;
    FillZoomIs(wc, iw, fw);
    FillZoomIs(hc, ih, fh);
    CoversIff(iw, wc, zoom, fw);
    CoversIff(ih, hc, zoom, fh);
  }

  // The viewport is the pane in image pixels, rounded down.
  lemma ViewIsPane(areaCells: nat, zoom: nat, cellPx: nat)
    requires zoom > 0
    ensures var view := ViewPx(areaCells, zoom, cellPx); view * zoom <= areaCells * cellPx * 100 < view * zoom + zoom
  {
    DivBounds(areaCells * cellPx * 100, zoom);
  }

  // Sizes that are missing: fit and axis zooms fall back to 100, the rectangle to the whole pane, scrolling to none.
  lemma MissingSizes(wc: nat, hc: nat, iw: nat, ih: nat, fw: nat, fh: nat, zoom: nat)
    ensures wc == 0 || hc == 0 || iw == 0 || ih == 0 ==>
              FitZoom(wc, hc, iw, ih, fw, fh) == 100 && CenterFitted(wc, hc, iw, ih, fw, fh) == Rect(0, 0, wc, hc)
    ensures wc == 0 || iw == 0 || fw == 0 ==> AxisFillZoom(wc, iw, fw) == 100
    ensures wc == 0 || iw == 0 || fw == 0 || zoom == 0 ==> ScrollCells(iw, wc, zoom, fw) == 0
    ensures zoom == 0 || fw == 0 ==> StepPx(zoom, fw) == 1
  {
    hide Scale, Fitted;
  }

  // A tall diagram in the default side pane: unreadable when fitted, but filling the pane.
  lemma ClippingBugHappens()
    ensures var plan := MakePlan(73, 46, 1180, 1470, 8, 16);
            plan.fitZoom == 49 && plan.fillZoom == 70 && plan.contain == Rect(0, 0, 73, 46) && plan.clippingBug
  {
    var s := Scale(73, 46, 1180, 1470, 8, 16);
    assert s == 584.0 / 1180.0;
    assert CellSpan(1180, s, 8) == 73.0;
    assert 45.0 < CellSpan(1470, s, 16) < 46.0;
    CeilBounds(CellSpan(1470, s, 16));
    ClippingBugIff(73, 46, 1180, 1470, 8, 16);
  }

  // Along one axis a scroll offset is centred: zero if the image fits, else within the image and
  // with margins that differ by less than two steps.
  predicate Centred(imagePx: nat, areaCells: nat, zoom: nat, cellPx: nat, scroll: int)
    requires zoom > 0
  {
    var left := scroll * StepPx(zoom, cellPx);
    var right := imagePx - ViewPx(areaCells, zoom, cellPx) - left;
    if Overflows(imagePx, areaCells, zoom, cellPx) then 0 <= left && 0 <= right - left < 2 * StepPx(zoom, cellPx)
    else scroll == 0
  }

  lemma ScrollIsCentred(imagePx: nat, areaCells: nat, zoom: nat, cellPx: nat)
    requires imagePx > 0 && areaCells > 0 && zoom > 0 && cellPx > 0
    ensures Centred(imagePx, areaCells, zoom, cellPx, ScrollCells(imagePx, areaCells, zoom, cellPx))
  {
    hide ViewPx, StepPx;
    CentredScroll(imagePx, areaCells, zoom, cellPx);
  }

  // Both plans, when they fill, do so at a readable zoom and centred on both axes.
  lemma FillIsCentred(wc: nat, hc: nat, iw: nat, ih: nat, fw: nat, fh: nat)
    requires Positive(wc, hc, iw, ih, fw, fh)
    ensures var plan := MakePlan(wc, hc, iw, ih, fw, fh);
            forall mode :: mode in {plan.oldPlan, plan.fixedPlan} && mode.Fill? ==>
              && MIN_READABLE_ZOOM <= mode.zoom <= MAX_AUTO_FILL_ZOOM
              && Centred(iw, wc, mode.zoom, fw, mode.scrollX) && Centred(ih, hc, mode.zoom, fh, mode.scrollY)
  {
    hide ViewPx, StepPx, MaxScrollPx, ScrollCells, CenterFitted, WidthUse, HeightUse, AreaUse, FitZoom, AxisFillZoom, Centred;
    FillOverflowsBothIff(wc, hc, iw, ih, fw, fh);
    var zoom := FillZoom(wc, hc, iw, ih, fw, fh);
    ScrollIsCentred(iw, wc, zoom, fw);
    ScrollIsCentred(ih, hc, zoom, fh);
  }
}
