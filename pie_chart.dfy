/**
 * The chart orchestrator (PieChart.tsx): the size table, the centre and the
 * effective inner radius, the empty-data placeholder, what one render shows,
 * and the hover and pointer state that the event handlers update.
 */
module PieChart {
  import opened PieChartTypes
  import opened SvgPath
  import opened Calculations
  import Colors
  import Tooltip

  datatype ChartSize = Small | Medium | Large

  /** The side of the square view box, the outer and inner radii, and the donut hole's border width. */
  datatype Dimensions = Dimensions(viewBoxSize: real, radius: real, innerRadius: real, strokeWidth: real)

  /** The fixed size table. */
  function DimensionsOf(size: ChartSize): (d: Dimensions)
    ensures 0.0 < d.innerRadius < d.radius <= d.viewBoxSize / 2.0
    ensures d.strokeWidth > 0.0
  {
    match size
    case Small => Dimensions(120.0, 50.0, 25.0, 1.0)
    case Medium => Dimensions(200.0, 85.0, 42.0, 1.5)
    case Large => Dimensions(280.0, 120.0, 60.0, 2.0)
  }

  /** The centre of the view box. */
  function Centre(size: ChartSize): (c: Point)
    ensures c.x == c.y && c.x + c.x == DimensionsOf(size).viewBoxSize
  {
    Point(DimensionsOf(size).viewBoxSize / 2.0, DimensionsOf(size).viewBoxSize / 2.0)
  }

  /** The inner radius the slices are drawn with: the table's in donut mode, 0 otherwise. */
  function ActualInnerRadius(size: ChartSize, donutMode: bool): (r: real)
    ensures donutMode ==> r == DimensionsOf(size).innerRadius
    ensures !donutMode ==> r == 0.0
  {
    if donutMode then DimensionsOf(size).innerRadius else 0.0
  }

  /**
   * For every size the outer circle lies inside the view box, and the effective
   * inner radius is positive exactly in donut mode and always below the outer radius.
   */
  lemma GeometryFitsViewBox(size: ChartSize, donutMode: bool)
    ensures var d, c := DimensionsOf(size), Centre(size);
            0.0 <= c.x - d.radius && c.x + d.radius <= d.viewBoxSize &&
            0.0 <= c.y - d.radius && c.y + d.radius <= d.viewBoxSize
    ensures ActualInnerRadius(size, donutMode) > 0.0 <==> donutMode
    ensures 0.0 <= ActualInnerRadius(size, donutMode) < DimensionsOf(size).radius
  {
  }

  /** The colour of every slice, in order. */
  function SliceColors(data: seq<PieChartSlice>): (colors: seq<string>)
    ensures |colors| == |data|
    ensures forall i :: 0 <= i < |data| ==> colors[i] == Colors.GetSliceColor(i, data[i].color)
  {
    seq(|data|, i requires 0 <= i < |data| => Colors.GetSliceColor(i, data[i].color))
  }

  /** The hover state: the slice under the pointer, its index and its percentage. */
  datatype HoveredSlice = HoveredSlice(slice: PieChartSlice, index: nat, percentage: real)

  /** What one slice is drawn with. */
  datatype SliceView = SliceView(slice: PieChartSlice, index: nat, startAngle: real, endAngle: real,
                                 color: string, path: seq<PathCommand>)

  datatype LegendView = LegendView(data: seq<PieChartSlice>, colors: seq<string>, percentages: seq<real>)

  /** The inputs the tooltip is rendered with. */
  datatype TooltipProps = TooltipProps(slice: PieChartSlice, percentage: real, mouseX: real, mouseY: real)

  /** One render: the placeholder for an empty dataset, otherwise the slices, the optional legend and the optional tooltip. */
  datatype ChartView =
    | Placeholder
    | Chart(viewBoxSize: real, slices: seq<SliceView>, legend: Option<LegendView>, tooltip: Option<TooltipProps>)

  /**
   * A click on a slice: when the chart was given a click callback
   * (`hasOnClick`), it is called once with the slice's entry and index;
   * without one the click does nothing.
   */
  function SliceClick(view: SliceView, hasOnClick: bool): (call: Option<(PieChartSlice, nat)>)
    ensures call.Some? <==> hasOnClick
    ensures call.Some? ==> call.value.0 == view.slice && call.value.1 == view.index
  {
    if hasOnClick then Some((view.slice, view.index)) else None
  }

  /** What the chart renders for the given props and state. */
  function Render(polar: PolarToCartesian, data: seq<PieChartSlice>, size: ChartSize, donutMode: bool,
                  showLegend: bool, hovered: Option<HoveredSlice>, mouse: Tooltip.Position): (v: ChartView)
    ensures v.Placeholder? <==> data == []
    ensures v.Chart? ==> |v.slices| == |data| && v.viewBoxSize == DimensionsOf(size).viewBoxSize
  {
    if data == [] then Placeholder
    else
      var percentages := CalculatePercentages(data);
      var angles := AngleSpans(percentages);
      var colors := SliceColors(data);
      var d, c := DimensionsOf(size), Centre(size);
      var inner := ActualInnerRadius(size, donutMode);
      Chart(d.viewBoxSize,
            seq(|data|, i requires 0 <= i < |data| =>
                  SliceView(data[i], i, angles[i].start, angles[i].end, colors[i],
                            CreateArcPath(polar, c.x, c.y, d.radius, angles[i].start, angles[i].end, inner))),
            if showLegend then Some(LegendView(data, colors, percentages)) else None,
            match hovered
            case None => None
            case Some(h) => Some(TooltipProps(h.slice, h.percentage, mouse.x, mouse.y)))
  }

  /** An empty dataset renders only the placeholder: no slices, legend or tooltip, whatever the state. */
  lemma EmptyDataRendersPlaceholder(polar: PolarToCartesian, data: seq<PieChartSlice>, size: ChartSize, donutMode: bool,
                                    showLegend: bool, hovered: Option<HoveredSlice>, mouse: Tooltip.Position)
    ensures Render(polar, data, size, donutMode, showLegend, hovered, mouse) == Placeholder <==> data == []
  {
  }

  /**
   * A nonempty dataset renders one slice per entry, in order: slice i carries
   * entry i and its index (what a click reports), its span and its colour, and
   * a legend and tooltip exactly when asked for and when something is hovered.
   */
  lemma OneSlicePerEntry(polar: PolarToCartesian, data: seq<PieChartSlice>, size: ChartSize, donutMode: bool,
                         showLegend: bool, hovered: Option<HoveredSlice>, mouse: Tooltip.Position, i: nat)
    requires i < |data|
    ensures var v := Render(polar, data, size, donutMode, showLegend, hovered, mouse);
            var span := AngleSpans(CalculatePercentages(data))[i];
            v.Chart? && |v.slices| == |data| &&
            SliceClick(v.slices[i], true) == Some((data[i], i)) &&
            SliceClick(v.slices[i], false) == None &&
            v.slices[i].startAngle == span.start && v.slices[i].endAngle == span.end &&
            v.slices[i].color == Colors.GetSliceColor(i, data[i].color) &&
            (v.legend.Some? <==> showLegend) &&
            (v.tooltip.Some? <==> hovered.Some?)
  {
  }

  /**
   * With a nonzero total the rendered slices tile the full turn: the first
   * starts at -90 degrees, each starts where the previous ended, the last ends
   * at 270 degrees, and the percentage each slice recomputes from its span is
   * the one the legend and tooltip show.
   */
  lemma SlicesTileFullTurn(polar: PolarToCartesian, data: seq<PieChartSlice>, size: ChartSize, donutMode: bool,
                           showLegend: bool, hovered: Option<HoveredSlice>, mouse: Tooltip.Position)
    requires data != []
    requires Total(data) != 0.0
    ensures var v := Render(polar, data, size, donutMode, showLegend, hovered, mouse);
            var n := |data|;
            v.Chart? && |v.slices| == n &&
            v.slices[0].startAngle == -90.0 &&
            v.slices[n - 1].endAngle == 270.0 &&
            (forall i :: 0 <= i < n - 1 ==> v.slices[i].endAngle == v.slices[i + 1].startAngle) &&
            (forall i :: 0 <= i < n ==>
               (v.slices[i].endAngle - v.slices[i].startAngle) / 360.0 * 100.0 == CalculatePercentages(data)[i])
  {
    var p := CalculatePercentages(data);
    DataSpansCoverFullTurn(data);
    forall i | 0 <= i < |data|
      ensures (AngleSpans(p)[i].end - AngleSpans(p)[i].start) / 360.0 * 100.0 == p[i]
    {
      SpanPercentageRoundTrip(p, i);
    }
  }

  /**
   * Toggling donut mode keeps the number of slices and their spans; in donut
   * mode every slice's path starts on the outer circle at its end angle, and
   * otherwise at the centre.
   */
  lemma DonutModeOnlyChangesPaths(polar: PolarToCartesian, data: seq<PieChartSlice>, size: ChartSize,
                                  showLegend: bool, hovered: Option<HoveredSlice>, mouse: Tooltip.Position, i: nat)
    requires i < |data|
    ensures var ring := Render(polar, data, size, true, showLegend, hovered, mouse);
            var wedge := Render(polar, data, size, false, showLegend, hovered, mouse);
            var c, r := Centre(size), DimensionsOf(size).radius;
            ring.Chart? && wedge.Chart? && |ring.slices| == |wedge.slices| == |data| &&
            ring.slices[i].startAngle == wedge.slices[i].startAngle &&
            ring.slices[i].endAngle == wedge.slices[i].endAngle &&
            ring.slices[i].path[0] == MoveTo(polar(c.x, c.y, r, ring.slices[i].endAngle)) &&
            wedge.slices[i].path[0] == MoveTo(c)
  {
  }

  /** The chart's transient state: what is hovered and where the pointer is. */
  class ChartState {
    var hoveredSlice: Option<HoveredSlice>
    var mousePosition: Tooltip.Position

    constructor ()
      ensures hoveredSlice == None && mousePosition == Tooltip.Position(0.0, 0.0)
    {
      hoveredSlice := None;
      mousePosition := Tooltip.Position(0.0, 0.0);
    }

    /** The pointer entered slice `index`: hover it with its percentage; the pointer position is untouched. */
    method HandleSliceMouseEnter(percentages: seq<real>, slice: PieChartSlice, index: nat)
      requires index < |percentages|
      modifies this
      ensures hoveredSlice == Some(HoveredSlice(slice, index, percentages[index]))
      ensures mousePosition == old(mousePosition)
    {
      hoveredSlice := Some(HoveredSlice(slice, index, percentages[index]));
    }

    /** The pointer left a slice: nothing is hovered; the pointer position is untouched. */
    method HandleSliceMouseLeave()
      modifies this
      ensures hoveredSlice == None
      ensures mousePosition == old(mousePosition)
    {
      hoveredSlice := None;
    }

    /** The pointer moved over the chart: record its position; the hover state is untouched. */
    method HandleMouseMove(clientX: real, clientY: real)
      modifies this
      ensures mousePosition == Tooltip.Position(clientX, clientY)
      ensures hoveredSlice == old(hoveredSlice)
    {
      mousePosition := Tooltip.Position(clientX, clientY);
    }

    /** The current render. */
    function View(polar: PolarToCartesian, data: seq<PieChartSlice>, size: ChartSize, donutMode: bool,
                  showLegend: bool): (v: ChartView)
      reads this
      ensures v.Chart? ==> (v.tooltip.Some? <==> hoveredSlice.Some?)
      ensures v.Chart? && hoveredSlice.Some? ==>
                v.tooltip.value == TooltipProps(hoveredSlice.value.slice, hoveredSlice.value.percentage,
                                                mousePosition.x, mousePosition.y)
    {
      Render(polar, data, size, donutMode, showLegend, hoveredSlice, mousePosition)
    }
  }
}
