/**
 * The tooltip's placement (components/Tooltip/Tooltip.tsx). The tooltip first
 * shows at the raw pointer; once it is mounted and measured it is moved next
 * to the pointer, on whichever side keeps it from running off the right or
 * bottom of the viewport. The measured box and the viewport size are inputs.
 */
module Tooltip {
  import opened PieChartTypes

  /** The gap between the pointer and the tooltip box. */
  const Padding: real := 10.0

  datatype Position = Position(x: real, y: real)

  /** The measured width and height of the rendered tooltip box. */
  datatype BoxSize = BoxSize(width: real, height: real)

  /** The viewport's inner width and height. */
  datatype Viewport = Viewport(innerWidth: real, innerHeight: real)

  /**
   * Placement along one axis: the box goes `Padding` after the pointer, unless
   * its far edge would then pass `limit`, in which case it goes `Padding` before
   * the pointer. There is no clamping after the flip.
   */
  function PlaceOnAxis(pointer: real, extent: real, limit: real): (p: real)
    ensures p == pointer + Padding || p + extent + Padding == pointer
  {
    if pointer + Padding + extent > limit then pointer - extent - Padding else pointer + Padding
  }

  /** When the offset box fits (touching the edge included), it sits `Padding` after the pointer and within the limit. */
  lemma FitsAfterPointer(pointer: real, extent: real, limit: real)
    requires pointer + Padding + extent <= limit
    ensures PlaceOnAxis(pointer, extent, limit) == pointer + Padding
    ensures PlaceOnAxis(pointer, extent, limit) + extent <= limit
  {
  }

  /** On overflow the box flips: its far edge ends `Padding` before the pointer. */
  lemma FlipsBeforePointer(pointer: real, extent: real, limit: real)
    requires pointer + Padding + extent > limit
    ensures PlaceOnAxis(pointer, extent, limit) == pointer - extent - Padding
    ensures PlaceOnAxis(pointer, extent, limit) + extent + Padding == pointer
  {
  }

  /** The flip is not clamped: a pointer near the left edge and a wide box put the box at a negative coordinate. */
  lemma FlipMayLeaveScreen()
    ensures PlaceOnAxis(5.0, 100.0, 50.0) == -105.0
  {
  }

  /**
   * The measured position: start `Padding` right of and below the pointer, then
   * flip each axis on its own if it overflows the viewport on that side.
   */
  method AdjustedPosition(mouseX: real, mouseY: real, box: BoxSize, viewport: Viewport) returns (pos: Position)
    ensures pos.x == PlaceOnAxis(mouseX, box.width, viewport.innerWidth)
    ensures pos.y == PlaceOnAxis(mouseY, box.height, viewport.innerHeight)
    ensures mouseX + Padding + box.width <= viewport.innerWidth ==> pos.x == mouseX + Padding
    ensures mouseY + Padding + box.height <= viewport.innerHeight ==> pos.y == mouseY + Padding
    ensures mouseX + Padding + box.width > viewport.innerWidth ==> pos.x == mouseX - box.width - Padding
    ensures mouseY + Padding + box.height > viewport.innerHeight ==> pos.y == mouseY - box.height - Padding
  {
    var x := mouseX + Padding;
    var y := mouseY + Padding;
    if x + box.width > viewport.innerWidth {
      x := mouseX - box.width - Padding;
    }
    if y + box.height > viewport.innerHeight {
      y := mouseY - box.height - Padding;
    }
    pos := Position(x, y);
  }

  /** What the tooltip shows: the slice's label and value, the percentage, at its position. */
  datatype TooltipContent = TooltipContent(labelText: string, value: real, percentage: real, at: Position)

  /** The tooltip component's own state: the position it is drawn at. */
  class TooltipBox {
    var position: Position

    /** On mount the position is the raw pointer. */
    constructor (mouseX: real, mouseY: real)
      ensures position == Position(mouseX, mouseY)
    {
      position := Position(mouseX, mouseY);
    }

    /**
     * The effect run after each render whose pointer or slice changed:
     * without a slice, or before the box is mounted, nothing is computed;
     * otherwise the position becomes the measured placement.
     */
    method PlaceAfterMeasure(slice: Option<PieChartSlice>, mounted: bool, mouseX: real, mouseY: real,
                        box: BoxSize, viewport: Viewport)
      modifies this
      ensures mounted && slice.Some? ==>
                position == Position(PlaceOnAxis(mouseX, box.width, viewport.innerWidth),
                                     PlaceOnAxis(mouseY, box.height, viewport.innerHeight))
      ensures !(mounted && slice.Some?) ==> position == old(position)
    {
      if !mounted || slice.None? {
        return;
      }
      var pos := AdjustedPosition(mouseX, mouseY, box, viewport);
      position := pos;
    }

    /** Without a slice nothing is rendered; with one, its label, value and percentage appear at the current position. */
    function Render(slice: Option<PieChartSlice>, percentage: real): (view: Option<TooltipContent>)
      reads this
      ensures view.None? <==> slice.None?
      ensures view.Some? ==> view.value.labelText == slice.value.labelText && view.value.value == slice.value.value
      ensures view.Some? ==> view.value.percentage == percentage && view.value.at == position
    {
      match slice
      case None => None
      case Some(s) => Some(TooltipContent(s.labelText, s.value, percentage, position))
    }
  }
}
