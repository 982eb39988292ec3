/**
 * Vector paths as symbolic drawing commands, in the coordinate system of an
 * Android canvas (x grows to the right, y grows downwards, angles in degrees
 * measured clockwise from the positive x axis).
 */
module Geometry {
  import opened Common

  datatype Point = Point(x: int, y: int)

  /** One call on an `android.graphics.Path`. `ArcTo` keeps its oval and angles symbolic. */
  datatype Cmd =
    | MoveTo(x: int, y: int)
    | LineTo(x: int, y: int)
    | ArcTo(left: int, top: int, right: int, bottom: int, startAngle: int, sweepAngle: int)
    | Close

  type PathCmds = seq<Cmd>

  /** `android.graphics.Rect`: a rectangle given by its edges. */
  datatype Rect = Rect(left: int, top: int, right: int, bottom: int) {
    function Width(): int { right - left }
    function Height(): int { bottom - top }
  }

  /**
   * The point at `angle` on the oval inscribed in the box, for the four
   * compass angles only (0, 90, 180 and 270 modulo 360) and a box with an
   * integer centre; otherwise `None`.
   */
  function OvalPoint(left: int, top: int, right: int, bottom: int, angle: int): (p: Option<Point>)
    ensures p.Some? ==> angle % 90 == 0
    ensures p.Some? ==> (p.value.x == left || p.value.x == right || 2 * p.value.x == left + right)
    ensures p.Some? ==> (p.value.y == top || p.value.y == bottom || 2 * p.value.y == top + bottom)
  {
    if angle % 90 != 0 || (left + right) % 2 != 0 || (top + bottom) % 2 != 0 then None
    else
      var cx, cy := (left + right) / 2, (top + bottom) / 2;
      var quarter := (angle % 360) / 90;
      Some(if quarter == 0 then Point(right, cy)
           else if quarter == 1 then Point(cx, bottom)
           else if quarter == 2 then Point(left, cy)
           else Point(cx, top))
  }

  /** The pen of a path: where it is, and where the current contour began. */
  datatype Pen = Pen(at: Point, contourStart: Point)

  /** A fresh `Path` has its pen at the origin. */
  const Origin := Pen(Point(0, 0), Point(0, 0))

  /**
   * Where one command leaves the pen. An arc leaves it at the end of its
   * sweep; `Close` returns it to the start of the contour. The straight piece
   * `arcTo` adds from the pen to the arc's start is not modelled, nor is an
   * arc opening an empty path, which Android treats as starting the contour
   * at the arc's start: here the contour start stays where it was.
   */
  function Step(s: Pen, c: Cmd): Option<Pen>
  {
    match c
    case MoveTo(x, y) => Some(Pen(Point(x, y), Point(x, y)))
    case LineTo(x, y) => Some(Pen(Point(x, y), s.contourStart))
    case ArcTo(l, t, r, b, start, sweep) =>
      var e := OvalPoint(l, t, r, b, start + sweep);
      if e.None? then None else Some(Pen(e.value, s.contourStart))
    case Close => Some(Pen(s.contourStart, s.contourStart))
  }

  /** Runs the commands in order from pen `s`; `None` when an arc end is not computable. */
  function Trace(cmds: PathCmds, s: Pen): Option<Pen>
    decreases |cmds|
  {
    if cmds == [] then Some(s)
    else
      var next := Step(s, cmds[0]);
      if next.None? then None else Trace(cmds[1..], next.value)
  }

  /** The pen's position after each command in turn; `None` when an arc end is not computable. */
  function Trail(cmds: PathCmds, s: Pen): Option<seq<Point>>
    decreases |cmds|
  {
    if cmds == [] then Some([])
    else
      var next := Step(s, cmds[0]);
      if next.None? then None
      else
        var rest := Trail(cmds[1..], next.value);
        if rest.None? then None else Some([next.value.at] + rest.value)
  }

  /** The trail has one point per command, and its last point is where `Trace` leaves the pen. */
  lemma {:induction false} TrailEndsAtTrace(cmds: PathCmds, s: Pen)
    ensures Trail(cmds, s).Some? <==> Trace(cmds, s).Some?
    ensures Trail(cmds, s).Some? ==> |Trail(cmds, s).value| == |cmds|
    ensures Trail(cmds, s).Some? && cmds != [] ==> Trail(cmds, s).value[|cmds| - 1] == Trace(cmds, s).value.at
    decreases |cmds|
  {
    if cmds != [] {
      var next := Step(s, cmds[0]);
      if next.Some? {
        TrailEndsAtTrace(cmds[1..], next.value);
      }
    }
  }

  /** Where the path leaves the pen, starting from a fresh `Path`. */
  function EndPoint(cmds: PathCmds): Option<Point>
  {
    var s := Trace(cmds, Origin);
    if s.None? then None else Some(s.value.at)
  }

  /** Where the path starts drawing: the point of its leading `MoveTo`. */
  function StartPoint(cmds: PathCmds): Option<Point>
  {
    if |cmds| > 0 && cmds[0].MoveTo? then Some(Point(cmds[0].x, cmds[0].y)) else None
  }

  /** Where an arc begins drawing, for the oval and start angle it names. */
  function ArcStart(c: Cmd): Option<Point>
    requires c.ArcTo?
  {
    OvalPoint(c.left, c.top, c.right, c.bottom, c.startAngle)
  }

  /** A one-segment path starts at its `MoveTo` and leaves the pen at its `LineTo`. */
  lemma SegmentEnds(x0: int, y0: int, x1: int, y1: int)
    ensures StartPoint([MoveTo(x0, y0), LineTo(x1, y1)]) == Some(Point(x0, y0))
    ensures EndPoint([MoveTo(x0, y0), LineTo(x1, y1)]) == Some(Point(x1, y1))
  {
    var cmds := [MoveTo(x0, y0), LineTo(x1, y1)];
    var p0 := Point(x0, y0);
    assert cmds[1..][1..] == [];
    assert Trace(cmds[1..], Pen(p0, p0)) == Some(Pen(Point(x1, y1), p0));
  }

  /** A one-segment path `[MoveTo, LineTo]` covers abscissa `x` when `x` lies between the x of its two ends. */
  predicate CoversX(cmds: PathCmds, x: int)
  {
    |cmds| == 2 && cmds[0].MoveTo? && cmds[1].LineTo? &&
    Min(cmds[0].x, cmds[1].x) <= x <= Max(cmds[0].x, cmds[1].x)
  }
}
