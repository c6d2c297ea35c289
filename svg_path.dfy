/**
 * SVG path data as the chart emits it (section 8.3 of SVG 1.1: moveto, lineto,
 * elliptical arc and closepath), together with what an SVG renderer draws for it.
 * The drawing semantics follow section 8.3 and the arc rules of Appendix F.6.2
 * of SVG 1.1: an arc whose endpoints coincide is omitted, and an arc with a zero
 * radius is drawn as a straight line.
 */
module SvgPath {

  datatype Point = Point(x: real, y: real)

  /** An arc flag of SVG path data: 0 or 1. */
  newtype Flag = b: int | 0 <= b <= 1

  /** One command of path data, all in absolute coordinates. */
  datatype PathCommand =
    | MoveTo(to: Point)
    | LineTo(to: Point)
    | ArcTo(rx: real, ry: real, rotation: real, largeArc: Flag, sweep: Flag, to: Point)
    | ClosePath

  /** One drawn piece of an outline. */
  datatype Segment =
    | Straight(from: Point, to: Point)
    | Elliptic(from: Point, to: Point, rx: real, ry: real, largeArc: Flag, sweep: Flag)

  function Abs(r: real): real { if r < 0.0 then -r else r }

  /**
   * The segments drawn by `cmds` when the current point is `cur` and the current
   * subpath started at `start`. A moveto starts a new subpath; closepath draws a
   * straight line back to the subpath's start; an arc whose end is the current
   * point draws nothing; an arc with a zero radius is a straight line; negative
   * radii are taken by absolute value (Appendix F.6.6).
   */
  function Trace(cmds: seq<PathCommand>, cur: Point, start: Point): seq<Segment>
    decreases |cmds|
  {
    if cmds == [] then []
    else
      match cmds[0]
      case MoveTo(p) => Trace(cmds[1..], p, p)
      case LineTo(p) => [Straight(cur, p)] + Trace(cmds[1..], p, start)
      case ArcTo(rx, ry, _, fa, fs, p) =>
        if p == cur then Trace(cmds[1..], cur, start)
        else if rx == 0.0 || ry == 0.0 then [Straight(cur, p)] + Trace(cmds[1..], p, start)
        else [Elliptic(cur, p, Abs(rx), Abs(ry), fa, fs)] + Trace(cmds[1..], p, start)
      case ClosePath => [Straight(cur, start)] + Trace(cmds[1..], start, start)
  }

  /** What a renderer draws for a whole path: path data must begin with a moveto, otherwise nothing is drawn. */
  function Outline(cmds: seq<PathCommand>): seq<Segment>
  {
    if cmds != [] && cmds[0].MoveTo? then Trace(cmds[1..], cmds[0].to, cmds[0].to) else []
  }

  /** A drawn outline is a closed loop: each segment starts where the previous one ended, and the last returns to the first. */
  predicate ClosedLoop(segs: seq<Segment>)
  {
    |segs| > 0 &&
    (forall i :: 0 <= i < |segs| - 1 ==> segs[i].to == segs[i + 1].from) &&
    segs[|segs| - 1].to == segs[0].from
  }

  /** True when no part of the outline is an arc: the shape it bounds has no curved edge. */
  predicate NoArcs(segs: seq<Segment>)
  {
    forall i :: 0 <= i < |segs| ==> segs[i].Straight?
  }
}
