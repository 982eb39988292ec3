/**
 * The label bubble: an 85 x 70 rounded rectangle (corner radius 8) whose
 * bottom edge carries a downward arrow as wide as a third of the rectangle
 * and half as high as it is wide. It depends on no state of the widget.
 */
module Bubble {
  import opened Common
  import opened Geometry

  /** The number of arcs in a path: zero exactly when no command is an arc. */
  function ArcCount(cmds: PathCmds): (n: nat)
    ensures n <= |cmds|
    ensures n == 0 <==> forall i :: 0 <= i < |cmds| ==> !cmds[i].ArcTo?
  {
    if cmds == [] then 0 else (if cmds[0].ArcTo? then 1 else 0) + ArcCount(cmds[1..])
  }

  /**
   * The outline `makePathBubble()` draws, coordinate by coordinate: starting
   * at the arrow's left corner, down to its tip and back up, along the bottom
   * edge, then counter-clockwise on screen round the four corners, and closed
   * back along the bottom edge.
   */
  const Outline: PathCmds := [
    MoveTo(28, 56), LineTo(42, 70), LineTo(56, 56), LineTo(77, 56),
    ArcTo(69, 40, 85, 56, 90, -90), LineTo(85, 14),
    ArcTo(69, 0, 85, 16, 0, -90), LineTo(8, 0),
    ArcTo(0, 0, 16, 16, 270, -90), LineTo(0, 48),
    ArcTo(0, 40, 16, 56, 180, -90), Close]

  /**
   * The outline `makePathBubble()` draws from rectangle `r` and corner radius
   * `radius`: an arrow a third of the width wide and half as high as it is
   * wide, then the four edges and corners, each `/` being Java's. The commands
   * are listed one path call at a time.
   */
  function OutlineOf(r: Rect, radius: int): PathCmds
  {
    // Written as a chain of one-command appends from `[]`, the same shape the
    // path calls of `DrawOutline` build, so the two match term by term.
    var w, h := r.Width(), r.Height();
    var arrowWidth := Quot(w, 3);
    var arrowHeight := Quot(arrowWidth, 2);
    [] + [MoveTo(Quot(w, 2) - Quot(arrowWidth, 2), h - arrowHeight)]
      + [LineTo(Quot(w, 2), h)]
      + [LineTo(Quot(w, 2) + Quot(arrowWidth, 2), h - arrowHeight)]
      + [LineTo(w - radius, h - arrowHeight)]
      + [ArcTo(w - 2 * radius, h - arrowHeight - 2 * radius, w, h - arrowHeight, 90, -90)]
      + [LineTo(w, r.top + arrowHeight)]
      + [ArcTo(w - 2 * radius, r.top, r.right, r.top + 2 * radius, 0, -90)]
      + [LineTo(r.left + radius, r.top)]
      + [ArcTo(r.left, r.top, r.left + 2 * radius, r.top + 2 * radius, 270, -90)]
      + [LineTo(r.left, h - arrowHeight - radius)]
      + [ArcTo(r.left, h - arrowHeight - 2 * radius, r.left + 2 * radius, h - arrowHeight, 180, -90)]
      + [Close]
  }

  /** From the 85 x 70 rectangle with corner radius 8, the outline is exactly `Outline`. */
  lemma OutlineOfBubbleRect()
    ensures OutlineOf(Rect(0, 0, 85, 70), 8) == Outline
  {
  }

  /**
   * The bubble is a single contour: one leading `MoveTo`, a final `Close`,
   * and in between only lines and arcs, every arc sweeping -90 degrees.
   */
  lemma BubbleShape()
    ensures var b := Outline;
      |b| == 12 && b[0].MoveTo? && b[11] == Close &&
      (forall i :: 0 < i < 11 ==> b[i].LineTo? || b[i].ArcTo?) &&
      (forall i :: 0 <= i < |b| && b[i].ArcTo? ==> b[i].sweepAngle == -90)
  {
  }

  /** The outline has exactly four arcs, one per corner. */
  lemma {:induction false} BubbleArcCount()
    ensures ArcCount(Outline) == 4
  {
  }

  /** The pen positions along the outline, from the arrow's left corner round to it again. */
  const OutlineTrail: seq<Point> := [
    Point(28, 56), Point(42, 70), Point(56, 56), Point(77, 56),
    Point(85, 48), Point(85, 14),
    Point(77, 0), Point(8, 0),
    Point(0, 8), Point(0, 48),
    Point(8, 56), Point(28, 56)]

  /** Drawn from a fresh path, the pen visits exactly `OutlineTrail`. */
  lemma {:induction false} BubbleTrail()
    ensures Trail(Outline, Origin) == Some(OutlineTrail)
  {
    var b, t := Outline, OutlineTrail;
    var st := Point(28, 56);
    TrailFromBottomEdge();
    TrailStep(b, t, 2, Pen(t[1], st));
    TrailStep(b, t, 1, Pen(st, st));
    TrailStep(b, t, 0, Origin);
    assert b[0..] == b && t[0..] == t;
  }

  /** The trail from the arrow's right corner onwards. */
  lemma {:induction false} TrailFromBottomEdge()
    ensures Trail(Outline[3..], Pen(Point(56, 56), Point(28, 56))) == Some(OutlineTrail[3..])
  {
    var b, t := Outline, OutlineTrail;
    var st := Point(28, 56);
    TrailFromRightEdge();
    TrailStep(b, t, 5, Pen(t[4], st));
    TrailStep(b, t, 4, Pen(t[3], st));
    TrailStep(b, t, 3, Pen(t[2], st));
  }

  /** The trail from the top of the right edge onwards. */
  lemma {:induction false} TrailFromRightEdge()
    ensures Trail(Outline[6..], Pen(Point(85, 14), Point(28, 56))) == Some(OutlineTrail[6..])
  {
    var b, t := Outline, OutlineTrail;
    var st := Point(28, 56);
    TrailFromLeftEdge();
    TrailStep(b, t, 8, Pen(t[7], st));
    TrailStep(b, t, 7, Pen(t[6], st));
    TrailStep(b, t, 6, Pen(t[5], st));
  }

  /** The trail from the top of the left edge onwards. */
  lemma {:induction false} TrailFromLeftEdge()
    ensures Trail(Outline[9..], Pen(Point(0, 8), Point(28, 56))) == Some(OutlineTrail[9..])
  {
    var b, t := Outline, OutlineTrail;
    var st := Point(28, 56);
    assert b[12..] == [] && t[12..] == [];
    assert Trail(b[12..], Pen(st, st)) == Some(t[12..]);
    TrailStep(b, t, 11, Pen(t[10], st));
    TrailStep(b, t, 10, Pen(t[9], st));
    TrailStep(b, t, 9, Pen(t[8], st));
  }

  /** One step of a trail, read on a path and a list of points. */
  lemma TrailStep(cmds: PathCmds, pts: seq<Point>, k: nat, s: Pen)
    requires k < |cmds| && k < |pts|
    requires Step(s, cmds[k]).Some? && Step(s, cmds[k]).value.at == pts[k]
    requires Trail(cmds[k + 1..], Step(s, cmds[k]).value) == Some(pts[k + 1..])
    ensures Trail(cmds[k..], s) == Some(pts[k..])
  {
    assert cmds[k..][0] == cmds[k] && cmds[k..][1..] == cmds[k + 1..];
    assert pts[k..] == [pts[k]] + pts[k + 1..];
  }

  /** The outline ends where it began, at the arrow's left corner `(28, 56)`. */
  lemma BubbleClosed()
    ensures StartPoint(Outline) == EndPoint(Outline) == Some(Point(28, 56))
  {
    BubbleTrail();
    TrailEndsAtTrace(Outline, Origin);
  }

  /**
   * Where each corner arc begins, against where the pen stands before it.
   * Three arcs begin exactly at the pen. The upper-right one begins at
   * `(85, 8)` while the right edge, drawn upwards from `(85, 48)`, stopped
   * at `(85, 14)`: that edge ends at `top + arrowHeight` where the other
   * edges stop at the radius, so the arc is reached through a further
   * upward piece of the same edge.
   */
  lemma BubbleArcJoins()
    ensures var b, t := Outline, OutlineTrail;
      ArcStart(b[4]) == Some(t[3]) &&
      ArcStart(b[6]) == Some(Point(85, 8)) && t[5] == Point(85, 14) &&
      ArcStart(b[8]) == Some(t[7]) &&
      ArcStart(b[10]) == Some(t[9])
  {
  }
}
