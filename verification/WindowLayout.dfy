/** The 16:10 window arithmetic over exact numbers. */
module WindowLayout {
  import opened Options

  datatype Size = Size(width: int, height: int)
  datatype Bounds = Bounds(x: int, y: int, width: int, height: int) {
    function Extent(): Size { Size(width, height) }
  }

  /** What a caller passes: any finite numbers. */
  datatype Requested = Requested(x: real, y: real, width: real, height: real)

  const MINIMUM := Size(1440, 900)

  function Max(a: int, b: int): int { if a < b then b else a }
  function Min(a: int, b: int): int { if a < b then a else b }

  /** `Math.round`: halves go up. */
  function Round(value: real): int { (value + 0.5).Floor }

  /** A dimension is refused unless it is positive. */
  function Dimension(value: real): (r: Option<int>)
    ensures r.Some? <==> value > 0.0
    ensures r.Some? ==> r.value >= 1 && (value >= 0.5 ==> -0.5 <= value - r.value as real <= 0.5)
  {
    if value <= 0.0 then None else Some(Max(1, Round(value)))
  }

  /** Width over height above 16:10. */
  predicate Wide(s: Size) { 5 * s.width > 8 * s.height }
  predicate Exact(s: Size) { 5 * s.width == 8 * s.height }
  predicate Positive(s: Size) { s.width >= 1 && s.height >= 1 }
  predicate Within(a: Size, b: Size) { a.width <= b.width && a.height <= b.height }

  function FloorWidth(height: int): int { 8 * height / 5 }
  function FloorHeight(width: int): int { 5 * width / 8 }
  function CeilWidth(height: int): int { (8 * height + 4) / 5 }
  function CeilHeight(width: int): int { (5 * width + 7) / 8 }

  function Fit(area: Size): Size {
    if Wide(area) then Size(FloorWidth(area.height), area.height) else Size(area.width, FloorHeight(area.width))
  }

  function MinimumSize(area: Size): Size {
    if Within(MINIMUM, area) then MINIMUM else Fit(area)
  }

  /** Expanded to 16:10 from the larger of what was asked and the minimum. */
  function Expanded(requested: Size, minimum: Size): Size {
    var size := Size(Max(requested.width, minimum.width), Max(requested.height, minimum.height));
    if Wide(size) then Size(size.width, CeilHeight(size.width)) else Size(CeilWidth(size.height), size.height)
  }

  function Resized(requested: Size, area: Size): Size {
    var size := Expanded(requested, MinimumSize(area));
    if Within(size, Fit(area)) then size else Fit(area)
  }

  function Placed(requestedStart: int, requestedLength: int, start: int, length: int, extent: int): int {
    var centred := Round(requestedStart as real + requestedLength as real / 2.0 - extent as real / 2.0);
    Min(start + length - extent, Max(start, centred))
  }

  function Normalized(requested: Bounds, area: Bounds): Bounds {
    var size := Resized(requested.Extent(), area.Extent());
    Bounds(Placed(requested.x, requested.width, area.x, area.width, size.width),
           Placed(requested.y, requested.height, area.y, area.height, size.height), size.width, size.height)
  }

  function Whole(r: Requested): Option<Bounds> {
    var width, height := Dimension(r.width), Dimension(r.height);
    if width.None? || height.None? then None else Some(Bounds(Round(r.x), Round(r.y), width.value, height.value))
  }

  /** `normalizeMainWindowBounds`; a dimension that is not positive raises. */
  function NormalizeMainWindowBounds(requested: Requested, workArea: Requested): Option<Bounds> {
    var r, a := Whole(requested), Whole(workArea);
    if r.None? || a.None? then None else Some(Normalized(r.value, a.value))
  }

  // ---------- fitting ----------

  /** Every exact 16:10 rectangle that fits in the area fits in the fitted one, which is itself in the
      area and within seven eighths of a pixel of 16:10. */
  lemma FitDominates(area: Size, rectangle: Size)
    requires Positive(area)
    ensures Within(Fit(area), area) && Fit(area).width >= 1 && Fit(area).height >= 0
    ensures -4 <= 5 * Fit(area).width - 8 * Fit(area).height <= 7
    ensures Exact(rectangle) && Within(rectangle, area) ==> Within(rectangle, Fit(area))
  {
  }

  /** A height of zero comes out only of an area one pixel wide. */
  lemma FlatIff(area: Size)
    requires Positive(area)
    ensures Fit(area).height == 0 <==> area.width == 1
  {
  }

  lemma MinimumFits(area: Size)
    requires Positive(area)
    ensures Within(MinimumSize(area), Fit(area))
  {
  }

  // ---------- one pass ----------

  predicate Inside(inner: Bounds, outer: Bounds) {
    && outer.x <= inner.x && inner.x + inner.width <= outer.x + outer.width
    && outer.y <= inner.y && inner.y + inner.height <= outer.y + outer.height
  }

  lemma ResizedFacts(requested: Size, area: Size)
    requires Positive(requested) && Positive(area)
    ensures var size := Resized(requested, area);
            && Within(size, area) && Within(size, Fit(area)) && Within(MinimumSize(area), size)
            && -7 <= 5 * size.width - 8 * size.height <= 7
            && (size != Fit(area) ==> Within(requested, size))
  {
  }

  /** The window is expanded no further than it must be: every exact 16:10 size of the area that covers
      what was asked and the minimum covers the window. */
  lemma ResizedIsLeast(requested: Size, area: Size, covering: Size)
    requires Positive(requested) && Positive(area)
    requires Exact(covering) && Within(requested, covering) && Within(MinimumSize(area), covering) && Within(covering, area)
    ensures Within(Resized(requested, area), covering)
  {
    FitDominates(area, covering);
  }

  /** Positions are rounded to the nearest whole number, halves up, and lengths too but to one at least. */
  lemma WholeRounds(r: Requested)
    ensures Whole(r).Some? <==> r.width > 0.0 && r.height > 0.0
    ensures Whole(r).Some? ==>
              var b := Whole(r).value;
              && b.x as real <= r.x + 0.5 < b.x as real + 1.0 && b.y as real <= r.y + 0.5 < b.y as real + 1.0
              && (b.width as real <= r.width + 0.5 < b.width as real + 1.0 || (b.width == 1 && r.width < 0.5))
              && (b.height as real <= r.height + 0.5 < b.height as real + 1.0 || (b.height == 1 && r.height < 0.5))
  {
  }

  /** A window results exactly from positive dimensions; it is at least 1440 by 900 where the area is, and
      elsewhere the largest 16:10 size of the area. */
  lemma NormalizesIff(requested: Requested, workArea: Requested)
    ensures NormalizeMainWindowBounds(requested, workArea).Some?
            <==> requested.width > 0.0 && requested.height > 0.0 && workArea.width > 0.0 && workArea.height > 0.0
    ensures NormalizeMainWindowBounds(requested, workArea).Some? ==>
              var area, window := Whole(workArea).value, NormalizeMainWindowBounds(requested, workArea).value;
              if area.width >= 1440 && area.height >= 900 then window.width >= 1440 && window.height >= 900
              else window.Extent() == Fit(area.Extent())
  {
    if NormalizeMainWindowBounds(requested, workArea).Some? {
      NormalizedIsVisible(requested, workArea);
      MinimumFits(Whole(workArea).value.Extent());
      ResizedFacts(Whole(requested).value.Extent(), Whole(workArea).value.Extent());
    }
  }

  /** Of all positions in the area the window gets one that is nearest to the old centre. */
  lemma PlacedIsNearest(requestedStart: int, requestedLength: int, start: int, length: int, extent: int, other: int)
    requires start <= other <= start + length - extent
    ensures var placed, centre := Placed(requestedStart, requestedLength, start, length, extent), 2 * requestedStart + requestedLength;
            && start <= placed <= start + length - extent
            && Distance(2 * placed + extent, centre) <= Distance(2 * other + extent, centre)
  {
  }

  /** And so does the window on both axes. */
  lemma NormalizedIsNearest(requested: Bounds, area: Bounds, other: Bounds)
    requires Positive(requested.Extent()) && Positive(area.Extent())
    requires other.Extent() == Normalized(requested, area).Extent() && Inside(other, area)
    ensures var window := Normalized(requested, area);
            && window.Extent() == Resized(requested.Extent(), area.Extent())
            && Distance(2 * window.x + window.width, 2 * requested.x + requested.width)
               <= Distance(2 * other.x + other.width, 2 * requested.x + requested.width)
            && Distance(2 * window.y + window.height, 2 * requested.y + requested.height)
               <= Distance(2 * other.y + other.height, 2 * requested.y + requested.height)
  {
    var size := Normalized(requested, area).Extent();
    PlacedIsNearest(requested.x, requested.width, area.x, area.width, size.width, other.x);
    PlacedIsNearest(requested.y, requested.height, area.y, area.height, size.height, other.y);
  }

  function Distance(a: int, b: int): nat { if a < b then b - a else a - b }

  /** Whatever was asked for, the window lies in the work area, is no smaller than the minimum the
      area allows, is 16:10 to within seven eighths of a pixel, and never shrinks a request unless it
      was capped to the largest 16:10 size of the area. */
  lemma NormalizedIsVisible(requested: Requested, workArea: Requested)
    requires NormalizeMainWindowBounds(requested, workArea).Some?
    ensures var r, a := Whole(requested).value, Whole(workArea).value;
            var window := NormalizeMainWindowBounds(requested, workArea).value;
            && Inside(window, a) && Within(MinimumSize(a.Extent()), window.Extent())
            && -7 <= 5 * window.width - 8 * window.height <= 7
            && (window.Extent() != Fit(a.Extent()) ==> Within(r.Extent(), window.Extent()))
  {
  }

  /** Where nothing clamps it, the window keeps its centre to half a pixel. */
  lemma CentreKept(requestedStart: int, requestedLength: int, start: int, length: int, extent: int)
    requires var placed := Placed(requestedStart, requestedLength, start, length, extent);
             start < placed < start + length - extent
    ensures var placed := Placed(requestedStart, requestedLength, start, length, extent);
            -1 <= 2 * placed + extent - (2 * requestedStart + requestedLength) <= 1
  {
  }

  // ---------- repeated passes ----------

  function Repeated(size: Size, area: Size, passes: nat): Size {
    if passes == 0 then size else Resized(Repeated(size, area, passes - 1), area)
  }

  /** The passes stop at an exact 16:10 size or at the largest the area allows, and nowhere else. */
  lemma StopsIff(size: Size, area: Size)
    requires Positive(area) && Positive(size) && Within(MinimumSize(area), size) && Within(size, Fit(area))
    ensures Resized(size, area) == size <==> Exact(size) || size == Fit(area)
  {
  }

  /** A pass never leaves an 8k by 5k box that holds the request and the minimum, and grows the window
      unless it stops. */
  lemma {:induction false} PassStaysInBox(size: Size, area: Size, k: int)
    requires Positive(area) && Positive(size) && Within(MinimumSize(area), size) && Within(size, Fit(area))
    requires Within(size, Size(8 * k, 5 * k))
    ensures var next := Resized(size, area);
            && Within(next, Size(8 * k, 5 * k)) && Within(next, Fit(area)) && Within(MinimumSize(area), next)
            && (next == size || next == Fit(area) || next.width + next.height > size.width + size.height)
  {
  }

  predicate Running(size: Size, area: Size) {
    Positive(size) && Within(MinimumSize(area), size) && Within(size, Fit(area))
  }

  lemma {:induction false} PassesStayInBox(size: Size, area: Size, k: int, passes: nat)
    requires Positive(area) && Running(size, area) && Within(size, Size(8 * k, 5 * k)) && area.width > 1
    ensures Running(Repeated(size, area, passes), area) && Within(Repeated(size, area, passes), Size(8 * k, 5 * k))
    ensures Stopped(Repeated(size, area, passes), area)
            || Repeated(size, area, passes).width + Repeated(size, area, passes).height >= size.width + size.height + passes
  {
    if passes > 0 {
      var before := Repeated(size, area, passes - 1);
      PassesStayInBox(size, area, k, passes - 1);
      PassStaysInBox(before, area, k);
      StopsIff(before, area);
      FitDominates(area, MINIMUM);
      FlatIff(area);
    }
  }

  predicate Stopped(size: Size, area: Size) {
    Exact(size) || size == Fit(area)
  }

  /** Running on from any size: within as many passes as its box has pixels to spare. */
  lemma PassesConverge(size: Size, area: Size, k: int, passes: nat)
    requires Positive(area) && Running(size, area) && Within(size, Size(8 * k, 5 * k)) && area.width > 1
    requires passes > 13 * k - size.width - size.height
    ensures var final := Repeated(size, area, passes);
            && Within(final, Size(8 * k, 5 * k)) && Stopped(final, area) && Resized(final, area) == final
  {
    PassesStayInBox(size, area, k, passes);
    StopsIff(Repeated(size, area, passes), area);
  }

  lemma {:induction false} FirstPassApart(size: Size, area: Size, passes: nat)
    ensures Repeated(size, area, passes + 1) == Repeated(Resized(size, area), area, passes)
  {
    if passes > 0 { FirstPassApart(size, area, passes - 1); }
  }

  lemma FirstPassRuns(requested: Size, area: Size)
    requires Positive(requested) && Positive(area) && area.width > 1
    ensures Running(Resized(requested, area), area)
  {
    ResizedFacts(requested, area);
    MinimumFits(area);
    FlatIff(area);
  }

  lemma PassInBox(requested: Size, area: Size, k: int, n: nat)
    requires Positive(requested) && Positive(area) && area.width > 1 && n > 0
    requires Within(Resized(requested, area), Size(8 * k, 5 * k))
    ensures Within(Repeated(requested, area, n), Size(8 * k, 5 * k))
  {
    FirstPassRuns(requested, area);
    FirstPassApart(requested, area, n - 1);
    PassesStayInBox(Resized(requested, area), area, k, n - 1);
  }

  /** Repeated normalisation of any request, which one pass does not finish: after the first pass the
      window never leaves the 8k by 5k box around it, and it stops at an exact 16:10 size or at the
      largest size of the area. */
  lemma NormalisationConverges(requested: Size, area: Size, k: int, passes: nat)
    requires Positive(requested) && Positive(area) && area.width > 1
    requires Within(Resized(requested, area), Size(8 * k, 5 * k)) && passes > 13 * k
    ensures forall n: nat :: n > 0 ==> Within(Repeated(requested, area, n), Size(8 * k, 5 * k))
    ensures var final := Repeated(requested, area, passes + 1);
            Stopped(final, area) && Resized(final, area) == final
  {
    FirstPassRuns(requested, area);
    forall n: nat | n > 0
      ensures Within(Repeated(requested, area, n), Size(8 * k, 5 * k))
    {
      PassInBox(requested, area, k, n);
    }
    FirstPassApart(requested, area, passes);
    PassesConverge(Resized(requested, area), area, k, passes);
  }

  /** One pass is not always enough: a window of 1441 by 900 is moved once and then once more. */
  lemma OnePassIsNotEnough()
    ensures var area := Size(3000, 3000);
            && Repeated(Size(1441, 900), area, 1) == Size(1441, 901)
            && Repeated(Size(1441, 900), area, 2) == Size(1442, 901)
  {
  }
}
