/**
 * The geometry of the chart (utils/calculations.ts): values to percentages,
 * percentages to contiguous angle spans, and a span to the path data of a
 * wedge or of a donut ring segment.
 */
module Calculations {
  import opened PieChartTypes
  import opened SvgPath

  // ---------------------------------------------------------------------------
  // Percentages
  // ---------------------------------------------------------------------------

  /** The sum of the slices' values, accumulated left to right from 0 (the `reduce`). */
  function Total(data: seq<PieChartSlice>): (total: real)
    ensures NonNegative(data) ==> total >= 0.0
  {
    if data == [] then 0.0 else Total(data[..|data| - 1]) + data[|data| - 1].value
  }

  /** The sum of a sequence of reals, accumulated left to right from 0. */
  function Sum(s: seq<real>): real
  {
    if s == [] then 0.0 else Sum(s[..|s| - 1]) + s[|s| - 1]
  }

  /**
   * Each slice's share of the total, in percent, in input order. A zero total
   * yields a zero for every slice instead of dividing by zero.
   */
  function CalculatePercentages(data: seq<PieChartSlice>): (r: seq<real>)
    ensures |r| == |data|
    ensures Total(data) == 0.0 ==> forall i :: 0 <= i < |r| ==> r[i] == 0.0
    ensures Total(data) != 0.0 ==> forall i :: 0 <= i < |r| ==> r[i] == data[i].value / Total(data) * 100.0
  {
    var total := Total(data);
    if total == 0.0 then seq(|data|, _ => 0.0)
    else seq(|data|, i requires 0 <= i < |data| => data[i].value / total * 100.0)
  }

  lemma ShareAdd(a: real, b: real, t: real)
    requires t != 0.0
    ensures a / t * 100.0 + b / t * 100.0 == (a + b) / t * 100.0
  {
  }

  lemma WholeShare(t: real)
    requires t != 0.0
    ensures t / t * 100.0 == 100.0
  {
  }

  /** The percentages of the first n slices add up to those slices' share of the total. */
  lemma {:induction false} PercentagesPrefixSum(data: seq<PieChartSlice>, n: nat)
    requires Total(data) != 0.0
    requires n <= |data|
    ensures Sum(CalculatePercentages(data)[..n]) == Total(data[..n]) / Total(data) * 100.0
  {
    var p := CalculatePercentages(data);
    if n == 0 {
      assert p[..0] == [];
      assert data[..0] == [];
    } else {
      PercentagesPrefixSum(data, n - 1);
      assert p[..n][..n - 1] == p[..n - 1];
      assert data[..n][..n - 1] == data[..n - 1];
      ShareAdd(Total(data[..n - 1]), data[n - 1].value, Total(data));
    }
  }

  /** With a nonzero total the percentages add up to exactly 100. */
  lemma PercentagesSumTo100(data: seq<PieChartSlice>)
    requires Total(data) != 0.0
    ensures Sum(CalculatePercentages(data)) == 100.0
  {
    var p := CalculatePercentages(data);
    PercentagesPrefixSum(data, |data|);
    assert p[..|data|] == p;
    assert data[..|data|] == data;
    WholeShare(Total(data));
  }

  /** With a zero total the percentages add up to 0. */
  lemma {:induction false} ZeroTotalSumsToZero(data: seq<PieChartSlice>, n: nat)
    requires Total(data) == 0.0
    requires n <= |data|
    ensures Sum(CalculatePercentages(data)[..n]) == 0.0
  {
    var p := CalculatePercentages(data);
    if n == 0 {
      assert p[..0] == [];
    } else {
      ZeroTotalSumsToZero(data, n - 1);
      assert p[..n][..n - 1] == p[..n - 1];
    }
  }

  predicate NonNegative(data: seq<PieChartSlice>)
  {
    forall i :: 0 <= i < |data| ==> data[i].value >= 0.0
  }

  /** With no negative values, every value is at most the total. */
  lemma {:induction false} ValueAtMostTotal(data: seq<PieChartSlice>, i: nat)
    requires NonNegative(data)
    requires i < |data|
    ensures 0.0 <= data[i].value <= Total(data)
  {
    var n := |data|;
    var front := data[..n - 1];
    assert NonNegative(front);
    if i < n - 1 {
      ValueAtMostTotal(front, i);
    }
  }

  /** With no negative values, every percentage lies between 0 and 100. */
  lemma PercentagesBounded(data: seq<PieChartSlice>, i: nat)
    requires NonNegative(data)
    requires i < |data|
    ensures 0.0 <= CalculatePercentages(data)[i] <= 100.0
  {
    ValueAtMostTotal(data, i);
    if Total(data) != 0.0 {
      ShareBounded(data[i].value, Total(data));
    }
  }

  lemma ShareBounded(v: real, t: real)
    requires 0.0 <= v <= t
    requires t != 0.0
    ensures 0.0 <= v / t * 100.0 <= 100.0
  {
    var q := v / t;
    assert q * t == v;
    NonNegativeFactor(q, t);
    NonNegativeFactor(1.0 - q, t);
  }

  lemma NonNegativeFactor(x: real, t: real)
    requires t > 0.0
    requires x * t >= 0.0
    ensures x >= 0.0
  {
  }

  // ---------------------------------------------------------------------------
  // Angles
  // ---------------------------------------------------------------------------

  /** The angular extent of a slice, in degrees. */
  datatype AngleSpan = AngleSpan(start: real, end: real)

  /** The first slice starts at 12 o'clock. */
  const StartAngle: real := -90.0

  /** The sweep, in degrees, of a given percentage of the full turn. */
  function SweepOf(percentage: real): real
  {
    percentage / 100.0 * 360.0
  }

  /** Where the angle cursor stands before slice i: the start angle plus the sweep of all earlier percentages. */
  function Cursor(percentages: seq<real>, i: nat): real
    requires i <= |percentages|
  {
    StartAngle + SweepOf(Sum(percentages[..i]))
  }

  /** The closed form of the angle spans: slice i runs from the cursor before it to the cursor after it. */
  function AngleSpans(percentages: seq<real>): (r: seq<AngleSpan>)
    ensures |r| == |percentages|
    ensures |r| > 0 ==> r[0].start == StartAngle
    ensures forall i :: 0 <= i < |r| - 1 ==> r[i].end == r[i + 1].start
  {
    assert percentages[..0] == [];
    seq(|percentages|, i requires 0 <= i < |percentages| => AngleSpan(Cursor(percentages, i), Cursor(percentages, i + 1)))
  }

  /** Advancing the cursor over slice i adds exactly that slice's sweep. */
  lemma CursorStep(percentages: seq<real>, i: nat)
    requires i < |percentages|
    ensures Cursor(percentages, i + 1) == Cursor(percentages, i) + SweepOf(percentages[i])
  {
    assert percentages[..i + 1][..i] == percentages[..i];
  }

  /**
   * Walks the percentages with a running cursor that starts at -90 degrees,
   * emitting one span per percentage and advancing the cursor to its end.
   */
  method CalculateAngles(percentages: seq<real>) returns (spans: seq<AngleSpan>)
    ensures spans == AngleSpans(percentages)
  {
    var currentAngle := StartAngle;
    spans := [];
    assert percentages[..0] == [];
    for i := 0 to |percentages|
      invariant |spans| == i
      invariant currentAngle == Cursor(percentages, i)
      invariant forall k :: 0 <= k < i ==> spans[k] == AngleSpan(Cursor(percentages, k), Cursor(percentages, k + 1))
    {
      var angleSize := SweepOf(percentages[i]);
      var start := currentAngle;
      var end := currentAngle + angleSize;
      CursorStep(percentages, i);
      currentAngle := end;
      spans := spans + [AngleSpan(start, end)];
    }
  }

  /** Each span is exactly as wide as its slice's share of the full turn. */
  lemma SpanWidth(percentages: seq<real>, i: nat)
    requires i < |percentages|
    ensures AngleSpans(percentages)[i].end - AngleSpans(percentages)[i].start == percentages[i] / 100.0 * 360.0
  {
    CursorStep(percentages, i);
  }

  /** Recomputing a slice's percentage from its span, as the slice renderer does, gives back the input percentage. */
  lemma SpanPercentageRoundTrip(percentages: seq<real>, i: nat)
    requires i < |percentages|
    ensures (AngleSpans(percentages)[i].end - AngleSpans(percentages)[i].start) / 360.0 * 100.0 == percentages[i]
  {
    SpanWidth(percentages, i);
  }

  /** When the percentages add up to 100 the last span ends at 270 degrees, one full turn after the start. */
  lemma SpansEndAt270(percentages: seq<real>)
    requires |percentages| > 0
    requires Sum(percentages) == 100.0
    ensures AngleSpans(percentages)[|percentages| - 1].end == 270.0
  {
    assert percentages[..|percentages|] == percentages;
  }

  /** The spans of a dataset with a nonzero total tile the full turn from -90 to 270 degrees. */
  lemma DataSpansCoverFullTurn(data: seq<PieChartSlice>)
    requires |data| > 0
    requires Total(data) != 0.0
    ensures AngleSpans(CalculatePercentages(data))[0].start == -90.0
    ensures AngleSpans(CalculatePercentages(data))[|data| - 1].end == 270.0
  {
    PercentagesSumTo100(data);
    SpansEndAt270(CalculatePercentages(data));
  }

  /** The spans of a dataset with a zero total all collapse to the start angle. */
  lemma ZeroTotalSpansCollapse(data: seq<PieChartSlice>, i: nat)
    requires Total(data) == 0.0
    requires i < |data|
    ensures AngleSpans(CalculatePercentages(data))[i] == AngleSpan(-90.0, -90.0)
  {
    var p := CalculatePercentages(data);
    ZeroTotalSumsToZero(data, i);
    ZeroTotalSumsToZero(data, i + 1);
    assert Cursor(p, i) == StartAngle;
    assert Cursor(p, i + 1) == StartAngle;
  }

  // ---------------------------------------------------------------------------
  // Arc paths
  // ---------------------------------------------------------------------------

  /**
   * The polar-to-cartesian conversion (centre x, centre y, radius, angle in
   * degrees). Its trigonometry is not modelled: the properties below hold for
   * any conversion passed in, except that some of them require the conversion
   * to map two given angles to different points, or to the same point.
   */
  type PolarToCartesian = (real, real, real, real) -> Point

  /** The large-arc flag: 1 exactly when the span is wider than 180 degrees. */
  function LargeArcFlag(startAngle: real, endAngle: real): (f: Flag)
    ensures f == 1 <==> endAngle - startAngle > 180.0
  {
    if endAngle - startAngle <= 180.0 then 0 else 1
  }

  /**
   * The path data of one slice. The outer edge is drawn from the point at the
   * end angle back to the point at the start angle. With a positive inner
   * radius the shape is a ring segment: outer arc, a radial line inwards, then
   * the inner arc in the opposite direction. Otherwise it is a wedge whose apex
   * is the centre.
   */
  function CreateArcPath(polar: PolarToCartesian, centerX: real, centerY: real, radius: real,
                         startAngle: real, endAngle: real, innerRadius: real): (path: seq<PathCommand>)
    ensures 0 < |path| && path[0].MoveTo? && path[|path| - 1] == ClosePath
    ensures forall k :: 0 < k < |path| ==> !path[k].MoveTo?
    ensures forall k :: 0 <= k < |path| && path[k].ArcTo? ==>
              (path[k].largeArc == 1 <==> endAngle - startAngle > 180.0)
  {
    var start := polar(centerX, centerY, radius, endAngle);
    var end := polar(centerX, centerY, radius, startAngle);
    var largeArcFlag := LargeArcFlag(startAngle, endAngle);
    if innerRadius > 0.0 then
      var innerStart := polar(centerX, centerY, innerRadius, endAngle);
      var innerEnd := polar(centerX, centerY, innerRadius, startAngle);
      [ MoveTo(start),
        ArcTo(radius, radius, 0.0, largeArcFlag, 0, end),
        LineTo(innerEnd),
        ArcTo(innerRadius, innerRadius, 0.0, largeArcFlag, 1, innerStart),
        ClosePath ]
    else
      [ MoveTo(Point(centerX, centerY)),
        LineTo(start),
        ArcTo(radius, radius, 0.0, largeArcFlag, 0, end),
        ClosePath ]
  }

  /**
   * Without an inner radius the drawn outline is a wedge: out from the centre to
   * the outer point at the end angle, along the outer circle (sweep 0) to the
   * outer point at the start angle, and straight back to the centre.
   */
  lemma WedgeOutline(polar: PolarToCartesian, centerX: real, centerY: real, radius: real,
                     startAngle: real, endAngle: real, innerRadius: real)
    requires innerRadius <= 0.0
    requires radius != 0.0
    requires polar(centerX, centerY, radius, startAngle) != polar(centerX, centerY, radius, endAngle)
    ensures var c := Point(centerX, centerY);
            var atEnd := polar(centerX, centerY, radius, endAngle);
            var atStart := polar(centerX, centerY, radius, startAngle);
            var segs := Outline(CreateArcPath(polar, centerX, centerY, radius, startAngle, endAngle, innerRadius));
            segs == [Straight(c, atEnd),
                     Elliptic(atEnd, atStart, Abs(radius), Abs(radius), LargeArcFlag(startAngle, endAngle), 0),
                     Straight(atStart, c)]
            && ClosedLoop(segs)
  {
    var c := Point(centerX, centerY);
    var atEnd := polar(centerX, centerY, radius, endAngle);
    var atStart := polar(centerX, centerY, radius, startAngle);
    var flag := LargeArcFlag(startAngle, endAngle);
    var arc := ArcTo(radius, radius, 0.0, flag, 0, atStart);
    assert CreateArcPath(polar, centerX, centerY, radius, startAngle, endAngle, innerRadius)
        == [MoveTo(c), LineTo(atEnd), arc, ClosePath];
    assert [LineTo(atEnd), arc, ClosePath][1..] == [arc, ClosePath];
    assert [arc, ClosePath][1..] == [ClosePath];
    assert Trace([ClosePath], atStart, c) == [Straight(atStart, c)];
    assert Trace([arc, ClosePath], atEnd, c)
        == [Elliptic(atEnd, atStart, Abs(radius), Abs(radius), flag, 0), Straight(atStart, c)];
  }

  /**
   * With a positive inner radius the drawn outline is a ring segment with no
   * apex: along the outer circle (sweep 0) from the end angle to the start
   * angle, inwards along the start radius, along the inner circle (sweep 1)
   * back to the end angle, and outwards along the end radius to close.
   */
  lemma RingOutline(polar: PolarToCartesian, centerX: real, centerY: real, radius: real,
                    startAngle: real, endAngle: real, innerRadius: real)
    requires innerRadius > 0.0
    requires radius != 0.0
    requires polar(centerX, centerY, radius, startAngle) != polar(centerX, centerY, radius, endAngle)
    requires polar(centerX, centerY, innerRadius, startAngle) != polar(centerX, centerY, innerRadius, endAngle)
    ensures var outerEnd := polar(centerX, centerY, radius, endAngle);
            var outerStart := polar(centerX, centerY, radius, startAngle);
            var innerEnd := polar(centerX, centerY, innerRadius, endAngle);
            var innerStart := polar(centerX, centerY, innerRadius, startAngle);
            var flag := LargeArcFlag(startAngle, endAngle);
            var segs := Outline(CreateArcPath(polar, centerX, centerY, radius, startAngle, endAngle, innerRadius));
            segs == [Elliptic(outerEnd, outerStart, Abs(radius), Abs(radius), flag, 0),
                     Straight(outerStart, innerStart),
                     Elliptic(innerStart, innerEnd, innerRadius, innerRadius, flag, 1),
                     Straight(innerEnd, outerEnd)]
            && ClosedLoop(segs)
  {
    var outerEnd := polar(centerX, centerY, radius, endAngle);
    var outerStart := polar(centerX, centerY, radius, startAngle);
    var innerEnd := polar(centerX, centerY, innerRadius, endAngle);
    var innerStart := polar(centerX, centerY, innerRadius, startAngle);
    var flag := LargeArcFlag(startAngle, endAngle);
    var outerArc := ArcTo(radius, radius, 0.0, flag, 0, outerStart);
    var innerArc := ArcTo(innerRadius, innerRadius, 0.0, flag, 1, innerEnd);
    assert CreateArcPath(polar, centerX, centerY, radius, startAngle, endAngle, innerRadius)
        == [MoveTo(outerEnd), outerArc, LineTo(innerStart), innerArc, ClosePath];
    assert [outerArc, LineTo(innerStart), innerArc, ClosePath][1..] == [LineTo(innerStart), innerArc, ClosePath];
    assert [LineTo(innerStart), innerArc, ClosePath][1..] == [innerArc, ClosePath];
    assert [innerArc, ClosePath][1..] == [ClosePath];
    assert Trace([ClosePath], innerEnd, outerEnd) == [Straight(innerEnd, outerEnd)];
    assert Trace([innerArc, ClosePath], innerStart, outerEnd)
        == [Elliptic(innerStart, innerEnd, innerRadius, innerRadius, flag, 1), Straight(innerEnd, outerEnd)];
    assert Trace([LineTo(innerStart), innerArc, ClosePath], outerStart, outerEnd)
        == [Straight(outerStart, innerStart)] + Trace([innerArc, ClosePath], innerStart, outerEnd);
  }

  /** A ring segment's only moveto goes to the outer point at the end angle, not to the centre. */
  lemma RingStartsOnOuterCircle(polar: PolarToCartesian, centerX: real, centerY: real, radius: real,
                                startAngle: real, endAngle: real, innerRadius: real)
    requires innerRadius > 0.0
    ensures var path := CreateArcPath(polar, centerX, centerY, radius, startAngle, endAngle, innerRadius);
            forall k :: 0 <= k < |path| && path[k].MoveTo? ==> path[k].to == polar(centerX, centerY, radius, endAngle)
  {
  }

  /**
   * When the outer (and, for a ring, the inner) endpoints of a span coincide, as
   * they do for a zero-width span and, under exact trigonometry, for a full turn,
   * the renderer omits every arc: what is drawn has no curved edge and encloses
   * no area. In particular a single slice holding 100% is not drawn as a disk.
   */
  lemma CoincidentEndpointsDrawNoArc(polar: PolarToCartesian, centerX: real, centerY: real, radius: real,
                                     startAngle: real, endAngle: real, innerRadius: real)
    requires polar(centerX, centerY, radius, startAngle) == polar(centerX, centerY, radius, endAngle)
    requires innerRadius > 0.0 ==>
               polar(centerX, centerY, innerRadius, startAngle) == polar(centerX, centerY, innerRadius, endAngle)
    ensures NoArcs(Outline(CreateArcPath(polar, centerX, centerY, radius, startAngle, endAngle, innerRadius)))
  {
    var outer := polar(centerX, centerY, radius, endAngle);
    var flag := LargeArcFlag(startAngle, endAngle);
    var outerArc := ArcTo(radius, radius, 0.0, flag, 0, outer);
    if innerRadius > 0.0 {
      var inner := polar(centerX, centerY, innerRadius, endAngle);
      var innerArc := ArcTo(innerRadius, innerRadius, 0.0, flag, 1, inner);
      assert CreateArcPath(polar, centerX, centerY, radius, startAngle, endAngle, innerRadius)
          == [MoveTo(outer), outerArc, LineTo(inner), innerArc, ClosePath];
      assert [outerArc, LineTo(inner), innerArc, ClosePath][1..] == [LineTo(inner), innerArc, ClosePath];
      assert [LineTo(inner), innerArc, ClosePath][1..] == [innerArc, ClosePath];
      assert [innerArc, ClosePath][1..] == [ClosePath];
      assert Trace([ClosePath], inner, outer) == [Straight(inner, outer)];
      assert Trace([innerArc, ClosePath], inner, outer) == [Straight(inner, outer)];
      assert Trace([outerArc, LineTo(inner), innerArc, ClosePath], outer, outer)
          == [Straight(outer, inner), Straight(inner, outer)];
    } else {
      var c := Point(centerX, centerY);
      assert CreateArcPath(polar, centerX, centerY, radius, startAngle, endAngle, innerRadius)
          == [MoveTo(c), LineTo(outer), outerArc, ClosePath];
      assert [LineTo(outer), outerArc, ClosePath][1..] == [outerArc, ClosePath];
      assert [outerArc, ClosePath][1..] == [ClosePath];
      assert Trace([ClosePath], outer, c) == [Straight(outer, c)];
      assert Trace([outerArc, ClosePath], outer, c) == [Straight(outer, c)];
      assert Trace([LineTo(outer), outerArc, ClosePath], c, c) == [Straight(c, outer), Straight(outer, c)];
    }
  }

  /** A zero-width span still yields a well-formed path; nothing but two coinciding straight edges is drawn. */
  lemma ZeroWidthSpanDrawsNoArc(polar: PolarToCartesian, centerX: real, centerY: real, radius: real,
                                angle: real, innerRadius: real)
    ensures NoArcs(Outline(CreateArcPath(polar, centerX, centerY, radius, angle, angle, innerRadius)))
  {
    CoincidentEndpointsDrawNoArc(polar, centerX, centerY, radius, angle, angle, innerRadius);
  }

  /**
   * A dataset with one nonzero slice spans the full turn from -90 to 270
   * degrees with the large-arc flag set; if the conversion maps -90 and 270
   * degrees to the same point, as exact trigonometry does, no arc is drawn.
   */
  lemma SingleSliceIsNotADisk(polar: PolarToCartesian, s: PieChartSlice, centerX: real, centerY: real,
                              radius: real, innerRadius: real)
    requires s.value != 0.0
    requires polar(centerX, centerY, radius, -90.0) == polar(centerX, centerY, radius, 270.0)
    requires polar(centerX, centerY, innerRadius, -90.0) == polar(centerX, centerY, innerRadius, 270.0)
    ensures AngleSpans(CalculatePercentages([s])) == [AngleSpan(-90.0, 270.0)]
    ensures LargeArcFlag(-90.0, 270.0) == 1
    ensures NoArcs(Outline(CreateArcPath(polar, centerX, centerY, radius, -90.0, 270.0, innerRadius)))
  {
    DataSpansCoverFullTurn([s]);
    CoincidentEndpointsDrawNoArc(polar, centerX, centerY, radius, -90.0, 270.0, innerRadius);
  }

  // ---------------------------------------------------------------------------
  // Values pinned by the unit tests
  // ---------------------------------------------------------------------------

  lemma PercentagesExamples()
    ensures CalculatePercentages([PieChartSlice(30.0, "A", None), PieChartSlice(20.0, "B", None),
                                  PieChartSlice(50.0, "C", None)]) == [30.0, 20.0, 50.0]
    ensures CalculatePercentages([PieChartSlice(0.0, "A", None), PieChartSlice(0.0, "B", None)]) == [0.0, 0.0]
  {
    var data := [PieChartSlice(30.0, "A", None), PieChartSlice(20.0, "B", None), PieChartSlice(50.0, "C", None)];
    assert data[..2][..1] == [data[0]] && data[..2] == [data[0], data[1]];
    assert [data[0]][..0] == [];
    assert Total([data[0]]) == 30.0;
    assert Total(data[..2]) == 50.0;
    assert Total(data) == 100.0;
    var zeros := [PieChartSlice(0.0, "A", None), PieChartSlice(0.0, "B", None)];
    assert zeros[..1] == [zeros[0]];
    assert Total(zeros) == 0.0;
  }

  lemma AngleSpansExamples()
    ensures AngleSpans([50.0, 50.0]) == [AngleSpan(-90.0, 90.0), AngleSpan(90.0, 270.0)]
    ensures AngleSpans([25.0, 75.0]) == [AngleSpan(-90.0, 0.0), AngleSpan(0.0, 270.0)]
  {
    var a, b := [50.0, 50.0], [25.0, 75.0];
    assert a[..1] == [50.0] && a[..2] == a && a[..0] == [];
    assert b[..1] == [25.0] && b[..2] == b && b[..0] == [];
    assert Sum([50.0]) == 50.0 && Sum([25.0]) == 25.0;
  }

  lemma LargeArcFlagExamples()
    ensures LargeArcFlag(0.0, 90.0) == 0
    ensures LargeArcFlag(0.0, 200.0) == 1
    ensures LargeArcFlag(0.0, 180.0) == 0
  {
  }
}
