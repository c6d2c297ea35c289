# Pie chart geometry and interaction, modelled in Dafny

This project models the core of a pie/donut chart component written in TypeScript/React. It covers four parts:

- **Geometry** (`calculations.dfy`, module `Calculations`). Slice values become percentages, with a guard for a zero total. The percentages become contiguous angle spans, walked by a cursor that starts at −90° (12 o'clock). Each span becomes SVG path data: a wedge, or a ring segment in donut mode. Values are exact `real`s, so "the percentages sum to 100" and "the last span ends at 270°" are exact lemmas. The polar-to-cartesian conversion is a function-typed parameter `polar`, so the properties hold for any conversion. Some lemmas assume something about the conversion: `WedgeOutline` needs it to map the start and end angles to different points on the outer circle, `RingOutline` needs that on both the outer and the inner circle, and `CoincidentEndpointsDrawNoArc` and `SingleSliceIsNotADisk` need it to map them to the same point. Path data is a sequence of command values; numbers are not formatted into strings.
- **SVG path semantics** (`svg_path.dfy`, module `SvgPath`). This is what a renderer draws for path data, following section 8.3 of SVG 1.1 (moveto, lineto, elliptical arc, closepath). It also follows Appendix F.6.2: an arc whose endpoints coincide is omitted, and an arc with a zero radius is drawn as a straight line. The geometry lemmas state the drawn outline of each slice: a closed wedge, or a closed ring segment with no apex.
- **Palette resolver** (`colors.dfy`, module `Colors`). A slice's own colour wins when it is truthy in JavaScript, so an empty string does not count. Otherwise the 10-entry palette is cycled by `index % 10`.
- **Tooltip placement** (`tooltip.dfy`, module `Tooltip`). The tooltip first shows at the raw pointer. Once mounted and measured, it is offset by a padding of 10 and flipped to the other side of the pointer on right or bottom overflow, each axis on its own. The comparison is strict, so exactly touching an edge does not flip. The flip is not clamped, and the model proves a case where the box goes off-screen (`FlipMayLeaveScreen`).
- **Orchestrator** (`pie_chart.dfy`, module `PieChart`). This covers the size table, the centre and the effective inner radius, and the placeholder for empty data. `Render` gives what one render shows. Class `ChartState` holds the hover state and the pointer position, which its event handlers update.

On a single slice holding 100%: its span is −90° to 270°. Under exact trigonometry the two outer endpoints of its arc are the same point, and the code has no special case for this. By Appendix F.6.2 of SVG 1.1 the arc is then omitted. `SingleSliceIsNotADisk` and `CoincidentEndpointsDrawNoArc` prove that the drawn outline then has no arc at all, so no disk is drawn. Floating-point rounding of `Math.cos`/`Math.sin` may make the real endpoints differ in their last bits, and that is not modelled.

## Model

| member | source | states |
|---|---|---|
| `Calculations.Total` | packages/core/src/components/PieChart/utils/calculations.ts:7 | the sum of the values, taken in order; it is non-negative when no value is negative |
| `Calculations.CalculatePercentages` | packages/core/src/components/PieChart/utils/calculations.ts:6-14 | one entry per slice, in input order; every entry is 0 when the total is 0; otherwise entry i is value_i / total * 100 |
| `Calculations.PercentagesPrefixSum` | packages/core/src/components/PieChart/utils/calculations.ts:7-13 | the first n percentages add up to the first n values' share of the total, in percent |
| `Calculations.PercentagesSumTo100` | packages/core/src/components/PieChart/utils/calculations.ts:7-13 | with a nonzero total the percentages add up to exactly 100 |
| `Calculations.ZeroTotalSumsToZero` | packages/core/src/components/PieChart/utils/calculations.ts:9-11 | with a zero total every prefix of the percentages adds up to 0 |
| `Calculations.ValueAtMostTotal` | packages/core/src/components/PieChart/utils/calculations.ts:7 | with no negative values each value lies between 0 and the total |
| `Calculations.PercentagesBounded` | packages/core/src/components/PieChart/utils/calculations.ts:7-13 | with no negative values every percentage lies between 0 and 100, for zero and nonzero totals |
| `Calculations.AngleSpans` | packages/core/src/components/PieChart/utils/calculations.ts:19-30 | the closed form of the spans: one per percentage; the first starts at −90; each ends where the next starts |
| `Calculations.CursorStep` | packages/core/src/components/PieChart/utils/calculations.ts:23-26 | advancing the cursor over one slice adds exactly that slice's sweep, p/100*360 |
| `Calculations.CalculateAngles` | packages/core/src/components/PieChart/utils/calculations.ts:19-30 | the running-cursor loop produces exactly the closed-form spans (cursor before slice i = −90 + sweep of the prefix sum) |
| `Calculations.SpanWidth` | packages/core/src/components/PieChart/utils/calculations.ts:23-25 | span i is exactly p_i/100*360 degrees wide |
| `Calculations.SpanPercentageRoundTrip` | packages/core/src/components/PieChart/components/Slice/Slice.tsx:54 | recomputing the percentage from a span as (end − start)/360*100 gives back the input percentage |
| `Calculations.SpansEndAt270` | packages/core/src/components/PieChart/utils/calculations.ts:20-29 | when the percentages add up to 100 the last span ends at 270 |
| `Calculations.DataSpansCoverFullTurn` | packages/core/src/components/PieChart/utils/calculations.ts:6-30 | for a dataset with a nonzero total the spans run from −90 to 270 |
| `Calculations.ZeroTotalSpansCollapse` | packages/core/src/components/PieChart/utils/calculations.ts:9-11 | for a zero total every span is the empty span (−90, −90) |
| `Calculations.LargeArcFlag` | packages/core/src/components/PieChart/utils/calculations.ts:63 | the flag is 1 exactly when end − start > 180, otherwise 0 |
| `Calculations.CreateArcPath` | packages/core/src/components/PieChart/utils/calculations.ts:52-86 | the path has a single subpath: it opens with its only moveto and ends with closepath, and every arc carries the large-arc flag of the span |
| `Calculations.WedgeOutline` | packages/core/src/components/PieChart/utils/calculations.ts:79-85 | with inner radius ≤ 0, when the two outer endpoints differ and r ≠ 0, the drawn outline is centre → outer point at the end angle → arc (radius r, sweep 0) to the outer point at the start angle → back to the centre, a closed loop |
| `Calculations.RingOutline` | packages/core/src/components/PieChart/utils/calculations.ts:65-77 | with inner radius > 0, when the two outer endpoints differ, the two inner endpoints differ and r ≠ 0, the drawn outline is outer arc (sweep 0) end → start, line inwards, inner arc (sweep 1) start → end, line outwards, a closed loop |
| `Calculations.RingStartsOnOuterCircle` | packages/core/src/components/PieChart/utils/calculations.ts:65-71 | a ring segment's only moveto goes to the outer point at the end angle, not to the centre |
| `Calculations.CoincidentEndpointsDrawNoArc` | packages/core/src/components/PieChart/utils/calculations.ts:60-85 | when the arc endpoints coincide, the drawn outline has no arc in either mode |
| `Calculations.ZeroWidthSpanDrawsNoArc` | packages/core/src/components/PieChart/utils/calculations.ts:60-85 | a zero-width span gives a well-formed path whose drawn outline has no arc |
| `Calculations.SingleSliceIsNotADisk` | packages/core/src/components/PieChart/utils/calculations.ts:6-86 | a single nonzero slice spans −90 to 270 with large-arc flag 1; when −90 and 270 map to the same point, no arc is drawn, so no disk |
| `Calculations.PercentagesExamples` | packages/core/src/components/PieChart/utils/__tests__/calculations.test.ts:4-37 | [30,20,50] gives [30,20,50]; [0,0] gives [0,0] |
| `Calculations.AngleSpansExamples` | packages/core/src/components/PieChart/utils/__tests__/calculations.test.ts:41-61 | [50,50] gives (−90,90),(90,270); [25,75] gives (−90,0),(0,270) |
| `Calculations.LargeArcFlagExamples` | packages/core/src/components/PieChart/utils/__tests__/calculations.test.ts:115-125 | 90° and exactly 180° give flag 0; 200° gives flag 1 |
| `Colors.GetSliceColor` | packages/core/src/components/PieChart/consts/colors.ts:21-27 | a truthy custom colour is returned unchanged; otherwise the result is DEFAULT_COLORS[index % 10] |
| `Colors.PaletteHasTenEntries` | packages/core/src/components/PieChart/consts/colors.ts:5-16 | the palette has exactly 10 entries |
| `Colors.PaletteEntriesDistinct` | packages/core/src/components/PieChart/consts/colors.ts:5-16 | the ten palette entries are pairwise different |
| `Colors.FallsBackToPalette` | packages/core/src/components/PieChart/consts/colors.ts:22-26 | without a truthy custom colour the result is DEFAULT_COLORS[index % 10] |
| `Colors.EmptyCustomColorFallsBack` | packages/core/src/components/PieChart/consts/colors.ts:22 | an empty-string custom colour behaves like no custom colour |
| `Colors.PaletteCycles` | packages/core/src/components/PieChart/consts/colors.ts:26 | without a custom colour, indices i and i + 10k get the same colour |
| `Colors.ConsecutiveSlicesDiffer` | packages/core/src/components/PieChart/consts/colors.ts:5-26 | without custom colours, any two of ten consecutive slices get different colours |
| `Tooltip.PlaceOnAxis` | packages/core/src/components/PieChart/components/Tooltip/Tooltip.tsx:23-33 | one axis of the placement: the box is either at pointer + 10 or ends 10 before the pointer; `FitsAfterPointer` and `FlipsBeforePointer` say which |
| `Tooltip.FitsAfterPointer` | packages/core/src/components/PieChart/components/Tooltip/Tooltip.tsx:23-29 | if the offset box does not pass the edge (touching included), it sits at pointer + 10 and inside the limit |
| `Tooltip.FlipsBeforePointer` | packages/core/src/components/PieChart/components/Tooltip/Tooltip.tsx:27-33 | on overflow the box is at pointer − size − 10, so its far edge ends 10 before the pointer |
| `Tooltip.FlipMayLeaveScreen` | packages/core/src/components/PieChart/components/Tooltip/Tooltip.tsx:27-29 | no clamp: a pointer at 5 with a 100-wide box in a 50-wide viewport places the box at −105 |
| `Tooltip.AdjustedPosition` | packages/core/src/components/PieChart/components/Tooltip/Tooltip.tsx:21-33 | x is mouseX + 10 unless mouseX + 10 + width > innerWidth, then mouseX − width − 10; y likewise with height; x depends only on the horizontal inputs and y only on the vertical ones |
| `Tooltip.TooltipBox.constructor` | packages/core/src/components/PieChart/components/Tooltip/Tooltip.tsx:14 | before measurement the position is the raw pointer |
| `Tooltip.TooltipBox.PlaceAfterMeasure` | packages/core/src/components/PieChart/components/Tooltip/Tooltip.tsx:16-35 | with no slice or no mounted box nothing changes; otherwise the position becomes the measured placement |
| `Tooltip.TooltipBox.Render` | packages/core/src/components/PieChart/components/Tooltip/Tooltip.tsx:38-56 | with no slice nothing is rendered; otherwise label, value and percentage appear at the current position |
| `PieChart.DimensionsOf` | packages/core/src/components/PieChart/PieChart.tsx:45-52 | for every size, 0 < innerRadius < radius ≤ viewBox/2 and the stroke width is positive |
| `PieChart.Centre` | packages/core/src/components/PieChart/PieChart.tsx:54-55 | the centre is on the diagonal, at half the view-box size |
| `PieChart.ActualInnerRadius` | packages/core/src/components/PieChart/PieChart.tsx:56 | the size's inner radius in donut mode, 0 otherwise |
| `PieChart.GeometryFitsViewBox` | packages/core/src/components/PieChart/PieChart.tsx:45-56 | the outer circle around the centre (viewBox/2, viewBox/2) lies in the view box; the effective inner radius is positive exactly in donut mode and below the radius |
| `PieChart.SliceColors` | packages/core/src/components/PieChart/PieChart.tsx:42 | one colour per slice, slice i coloured by getSliceColor(i, its own colour) |
| `PieChart.Render` | packages/core/src/components/PieChart/PieChart.tsx:90-176 | the placeholder exactly for empty data; otherwise a chart in the size's view box with one slice per entry (`EmptyDataRendersPlaceholder` and `OneSlicePerEntry` state the rest) |
| `PieChart.SliceClick` | packages/core/src/components/PieChart/components/Slice/Slice.tsx:42-46 | with a click callback, a click calls it with the slice's entry and index; without one, nothing is called |
| `PieChart.EmptyDataRendersPlaceholder` | packages/core/src/components/PieChart/PieChart.tsx:90-102 | the render is the placeholder, with no slices, legend or tooltip, exactly when the data is empty |
| `PieChart.OneSlicePerEntry` | packages/core/src/components/PieChart/PieChart.tsx:104-176 | one slice per entry; slice i uses angles[i] and colors[i], and a click reports (data[i], i); a legend iff requested; a tooltip iff something is hovered |
| `PieChart.SlicesTileFullTurn` | packages/core/src/components/PieChart/PieChart.tsx:38-39 | with a nonzero total the rendered slices run from −90 to 270 without gaps, and each slice's recomputed percentage equals percentages[i] |
| `PieChart.DonutModeOnlyChangesPaths` | packages/core/src/components/PieChart/PieChart.tsx:54-56 | toggling donut mode keeps the slice count and spans; ring paths start on the outer circle, wedge paths at the centre |
| `PieChart.ChartState.constructor` | packages/core/src/components/PieChart/PieChart.tsx:30-35 | initially nothing is hovered and the pointer is at (0, 0) |
| `PieChart.ChartState.HandleSliceMouseEnter` | packages/core/src/components/PieChart/PieChart.tsx:58-63 | hover becomes (slice, i, percentages[i]); the pointer position is unchanged |
| `PieChart.ChartState.HandleSliceMouseLeave` | packages/core/src/components/PieChart/PieChart.tsx:65-67 | hover is cleared; the pointer position is unchanged |
| `PieChart.ChartState.HandleMouseMove` | packages/core/src/components/PieChart/PieChart.tsx:69-71 | the pointer becomes (clientX, clientY); hover is unchanged |
| `PieChart.ChartState.View` | packages/core/src/components/PieChart/PieChart.tsx:156-163 | a rendered chart shows a tooltip exactly when something is hovered, with the hovered slice and percentage at the pointer |

## Left out

- Trigonometry: `polarToCartesian` (calculations.ts:35-47) is the parameter `polar`. Its unit tests at calculations.test.ts:75-96 are not modelled, because Dafny has no trigonometry.
- IEEE-754 rounding: all numbers are exact reals. The approximate three-slice test (`[33.33, 33.33, 33.34]`) only holds approximately in floating point. The single-slice endpoints may differ by rounding, as described above.
- Number-to-string formatting: the path strings, `toFixed(1)` in aria labels, legend and tooltip, and the aria-label text. The path is a sequence of command values instead.
- React plumbing: memoisation, refs, `forwardRef`, class names, test ids, `data-vibe`, the animation flag, and the donut hole `<circle>` with its `strokeWidth`. Also whether the legend is placed before or after the chart.
- DOM measurement: the tooltip's measured size, `window.innerWidth`/`innerHeight`, and whether its ref is mounted are plain inputs.
- Legend.tsx, Slice.tsx and the Storybook stories are not part of this model. The exceptions are the percentage a slice recomputes from its span (Slice.tsx:54) and the click handler (Slice.tsx:42-46), modelled by `SliceClick`; whether a callback was passed is the flag `hasOnClick`.
- Malformed values: nothing is clamped, and negative values pass through. `PercentagesBounded` and `ValueAtMostTotal` assume no value is negative. NaN and a `null` data array have no counterpart in the model.
- `Colors.GetSliceColor`: the index is a `nat`, because the chart only passes array indices. A negative index (a negative remainder in JavaScript, hence `undefined`) is not modelled.
- `PieChart.ChartState.HandleSliceMouseEnter`: requires the index to be a valid index of `percentages`. Slices are created one per entry, so the chart never calls it otherwise; an out-of-range index (which gives `undefined` in JavaScript) is not modelled.
- Default props: `size = "medium"`, `donutMode = false` and `showLegend = false` (PieChart.tsx:17-21) are required parameters of `Render`, and the default `innerRadius = 0` of `createArcPath` (calculations.ts:58) is a required parameter of `CreateArcPath`. A caller passes the default explicitly.
- `PieChartSlice.label` is called `labelText`, because `label` is a Dafny keyword.
