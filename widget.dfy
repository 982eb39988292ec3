/**
 * The `ProgressDownload` view: its progress and size fields, the three
 * lazily allocated path objects it rebuilds in place, and the animation
 * request its validated setter hands to the platform.
 */
module Widget {
  import opened Common
  import opened Geometry
  import opened Track
  import opened Bubble
  import opened Animation

  /** `android.graphics.Path`: a mutable list of drawing commands. */
  class Path {
    var cmds: PathCmds

    constructor ()
      ensures cmds == []
    {
      cmds := [];
    }

    method MoveTo(x: int, y: int)
      modifies this
      ensures cmds == old(cmds) + [Cmd.MoveTo(x, y)]
    {
      cmds := cmds + [Cmd.MoveTo(x, y)];
    }

    method LineTo(x: int, y: int)
      modifies this
      ensures cmds == old(cmds) + [Cmd.LineTo(x, y)]
    {
      cmds := cmds + [Cmd.LineTo(x, y)];
    }

    /** `arcTo(RectF oval, float startAngle, float sweepAngle)`. */
    method ArcTo(left: int, top: int, right: int, bottom: int, startAngle: int, sweepAngle: int)
      modifies this
      ensures cmds == old(cmds) + [Cmd.ArcTo(left, top, right, bottom, startAngle, sweepAngle)]
    {
      cmds := cmds + [Cmd.ArcTo(left, top, right, bottom, startAngle, sweepAngle)];
    }

    method Close()
      modifies this
      ensures cmds == old(cmds) + [Cmd.Close]
    {
      cmds := cmds + [Cmd.Close];
    }

    /** `set(Path src)`: replaces this path's contents with a copy of `src`'s. */
    method Set(src: Path)
      modifies this
      ensures cmds == old(src.cmds)
    {
      cmds := src.cmds;
    }
  }

  class ProgressDownload {
    var progress: int
    var width: int
    var height: int
    var pathBlack: Path?
    var pathWhite: Path?
    var pathBubble: Path?
    /** The most recent transition handed to the platform animator, if it has not finished. */
    var animation: Option<Transition>

    /** The progress and size the three paths were last built from. */
    ghost var builtProgress: int
    ghost var builtWidth: int
    ghost var builtHeight: int

    /**
     * The paths are either all unallocated or all allocated, three distinct
     * objects holding the track and bubble built from the same state.
     */
    ghost predicate Valid()
      reads this, pathBlack, pathWhite, pathBubble
    {
      (pathBlack == null <==> pathWhite == null) &&
      (pathWhite == null <==> pathBubble == null) &&
      (pathBlack != null ==>
        pathBlack != pathWhite && pathWhite != pathBubble && pathBlack != pathBubble &&
        pathBlack.cmds == BlackPath(builtProgress, builtWidth, builtHeight) &&
        pathWhite.cmds == WhitePath(builtProgress, builtWidth, builtHeight) &&
        pathBubble.cmds == Outline)
    }

    /** The paths exist and reflect the current progress and size. */
    ghost predicate UpToDate()
      reads this
    {
      pathBlack != null &&
      builtProgress == progress && builtWidth == width && builtHeight == height
    }

    /** A new view: progress 0, no size yet, no paths and no animation. */
    constructor ()
      ensures Valid()
      ensures progress == 0 && width == 0 && height == 0
      ensures pathBlack == null && pathWhite == null && pathBubble == null
      ensures animation == None
    {
      progress, width, height := 0, 0, 0;
      pathBlack, pathWhite, pathBubble := null, null, null;
      animation := None;
    }

    /** `getProgress()`. */
    method GetProgress() returns (p: int)
      ensures p == progress
    {
      p := progress;
    }

    /** `makePathBlack()`: the segment from the split point to the right end of the baseline. */
    method MakePathBlack()
      requires pathBlack == null || (pathBlack != pathWhite && pathBlack != pathBubble)
      modifies this`pathBlack, pathBlack
      ensures pathBlack != null && pathBlack.cmds == BlackPath(progress, width, height)
      ensures old(pathBlack) != null ==> pathBlack == old(pathBlack)
      ensures old(pathBlack) == null ==> fresh(pathBlack)
    {
      if pathBlack == null {
        pathBlack := new Path();
      }
      var p := new Path();
      p.MoveTo(Max(PADDING, Quot(progress * width, 100)), Quot(height, 2) + DeltaY(progress, width));
      p.LineTo(width, Quot(height, 2));
      pathBlack.Set(p);
    }

    /** `makePathWhite()`: the segment from the left padding on the baseline to the split point. */
    method MakePathWhite()
      requires pathWhite == null || (pathWhite != pathBlack && pathWhite != pathBubble)
      modifies this`pathWhite, pathWhite
      ensures pathWhite != null && pathWhite.cmds == WhitePath(progress, width, height)
      ensures old(pathWhite) != null ==> pathWhite == old(pathWhite)
      ensures old(pathWhite) == null ==> fresh(pathWhite)
    {
      if pathWhite == null {
        pathWhite := new Path();
      }
      var p := new Path();
      p.MoveTo(PADDING, Quot(height, 2));
      p.LineTo(Max(PADDING, Quot(progress * width, 100)), Quot(height, 2) + DeltaY(progress, width));
      pathWhite.Set(p);
    }

    /** `makePathBubble()`: the fixed bubble outline, whatever the progress and size. */
    method MakePathBubble()
      requires pathBubble == null || (pathBubble != pathBlack && pathBubble != pathWhite)
      modifies this`pathBubble, pathBubble
      ensures pathBubble != null && pathBubble.cmds == Outline
      ensures old(pathBubble) != null ==> pathBubble == old(pathBubble)
      ensures old(pathBubble) == null ==> fresh(pathBubble)
    {
      if pathBubble == null {
        pathBubble := new Path();
      }
      var path := NewBubbleOutline();
      pathBubble.Set(path);
    }

    /**
     * `setProgress(p)`: records `p` unchecked and rebuilds the three paths,
     * reusing the path objects once they exist.
     */
    method SetProgress(p: int)
      requires Valid()
      modifies this, pathBlack, pathWhite, pathBubble
      ensures Valid() && UpToDate()
      ensures progress == p && width == old(width) && height == old(height) && animation == old(animation)
      ensures pathBlack.cmds == BlackPath(p, width, height)
      ensures pathWhite.cmds == WhitePath(p, width, height)
      ensures pathBubble.cmds == Outline
      ensures old(pathBlack) != null ==>
        pathBlack == old(pathBlack) && pathWhite == old(pathWhite) && pathBubble == old(pathBubble)
      ensures old(pathBlack) == null ==> fresh(pathBlack) && fresh(pathWhite) && fresh(pathBubble)
    {
      progress := p;
      MakePathBlack();
      MakePathWhite();
      MakePathBubble();
      builtProgress, builtWidth, builtHeight := progress, width, height;
    }

    /**
     * `setPercentage(n)`: a target outside [0, 100] throws `IllegalArgument`
     * and changes nothing; otherwise an animation from the current progress
     * to `n` is started, its duration shrinking with the size of the jump.
     * The progress itself only changes as the animation runs.
     */
    method SetPercentage(n: int) returns (o: Outcome<Error>)
      requires Valid()
      modifies this`animation
      ensures Valid()
      ensures o.Fail? <==> RequestTransition(progress, n).Failure?
      ensures o.Fail? ==> o.error == RequestTransition(progress, n).error && unchanged(this)
      ensures o.Pass? ==> animation == Some(RequestTransition(progress, n).value)
    {
      if n < 0 || n > 100 {
        return Fail(IllegalArgument("setPercentage not between 0 and 100"));
      }
      var current := GetProgress();
      animation := Some(Transition(current, n, ANIMATION_DURATION_BASE - Abs(n * 10 - current * 10)));
      o := Pass;
    }

    /**
     * The last frame of the running animation: the animator sets the
     * `progress` property to the transition's target through `setProgress`.
     */
    method FinishAnimation()
      requires Valid() && animation.Some?
      modifies this, pathBlack, pathWhite, pathBubble
      ensures Valid() && UpToDate()
      ensures progress == old(animation.value.to) && animation == None
      ensures width == old(width) && height == old(height)
      ensures old(pathBlack) != null ==>
        pathBlack == old(pathBlack) && pathWhite == old(pathWhite) && pathBubble == old(pathBubble)
      ensures old(pathBlack) == null ==> fresh(pathBlack) && fresh(pathWhite) && fresh(pathBubble)
    {
      var target := animation.value.to;
      animation := None;
      SetProgress(target);
    }

    /**
     * `onSizeChanged`: the track width is the new view width less the right
     * padding, the height is the new view height, and the current progress
     * is re-requested through `setPercentage`, which throws if an unchecked
     * `setProgress` left it outside [0, 100]. The paths are rebuilt only when
     * that animation runs.
     */
    method OnSizeChanged(xNew: int, yNew: int, xOld: int, yOld: int) returns (o: Outcome<Error>)
      requires Valid()
      modifies this`width, this`height, this`animation
      ensures Valid()
      ensures width == xNew - PADDING && height == yNew && progress == old(progress)
      ensures o.Fail? <==> (progress < 0 || 100 < progress)
      ensures o.Fail? ==> o.error == IllegalArgument("setPercentage not between 0 and 100") && animation == old(animation)
      ensures o.Pass? ==> animation == Some(Transition(progress, progress, ANIMATION_DURATION_BASE))
    {
      width := xNew - PADDING;
      height := yNew;
      o := SetPercentage(progress);
    }
  }

  /** The temporary path of `makePathBubble()`, drawn from the 85 x 70 rectangle with corner radius 8. */
  method NewBubbleOutline() returns (path: Path)
    ensures fresh(path) && path.cmds == Outline
  {
    path := DrawOutline(Rect(0, 0, 85, 70), 8);
    OutlineOfBubbleRect();
  }

  /**
   * How `makePathBubble()` draws the outline into its temporary path: an arrow
   * a third of the rectangle's width wide and half as high as it is wide,
   * then the edges and corners of the rectangle, rounded with `radius`.
   */
  method DrawOutline(r: Rect, radius: int) returns (path: Path)
    ensures fresh(path) && path.cmds == OutlineOf(r, radius)
  {
    var w, h := r.Width(), r.Height();
    var arrowWidth := Quot(w, 3);
    var arrowHeight := Quot(arrowWidth, 2);
    path := new Path();
    // down arrow
    path.MoveTo(Quot(w, 2) - Quot(arrowWidth, 2), h - arrowHeight);
    path.LineTo(Quot(w, 2), h);
    path.LineTo(Quot(w, 2) + Quot(arrowWidth, 2), h - arrowHeight);
    // bottom edge, bottom-right corner
    path.LineTo(w - radius, h - arrowHeight);
    path.ArcTo(w - 2 * radius, h - arrowHeight - 2 * radius, w, h - arrowHeight, 90, -90);
    // right edge up, upper-right corner
    path.LineTo(w, r.top + arrowHeight);
    path.ArcTo(w - 2 * radius, r.top, r.right, r.top + 2 * radius, 0, -90);
    // top edge, upper-left corner
    path.LineTo(r.left + radius, r.top);
    path.ArcTo(r.left, r.top, r.left + 2 * radius, r.top + 2 * radius, 270, -90);
    // left edge down, bottom-left corner
    path.LineTo(r.left, h - arrowHeight - radius);
    path.ArcTo(r.left, h - arrowHeight - 2 * radius, r.left + 2 * radius, h - arrowHeight, 180, -90);
    path.Close();
  }

  /**
   * Whatever the state, a valid target passed to `setPercentage` is where
   * the progress settles once its animation has run to the end, with the
   * paths rebuilt for it.
   */
  method PercentageSettles(view: ProgressDownload, v: int) returns (p: int)
    requires view.Valid() && 0 <= v <= 100
    modifies view, view.pathBlack, view.pathWhite, view.pathBubble
    ensures p == v && view.Valid() && view.UpToDate()
    ensures view.pathBlack.cmds == BlackPath(v, view.width, view.height)
    ensures view.pathWhite.cmds == WhitePath(v, view.width, view.height)
  {
    var o := view.SetPercentage(v);
    view.FinishAnimation();
    p := view.GetProgress();
  }

  /** A caller's view: sizing, a rejected and an accepted request, and the settled state. */
  method Scenario()
  {
    var view := new ProgressDownload();
    var o := view.OnSizeChanged(350, 100, 0, 0);
    assert o.Pass? && view.width == 300 && view.animation == Some(Transition(0, 0, 1150));
    view.FinishAnimation();

    o := view.SetPercentage(101);
    assert o.Fail? && view.progress == 0;
    o := view.SetPercentage(-1);
    assert o.Fail? && view.progress == 0;

    o := view.SetPercentage(50);
    assert view.animation == Some(Transition(0, 50, 650));
    view.FinishAnimation();
    var p := view.GetProgress();
    assert p == 50;
    TrackAtHalfOfThreeHundred(100);
    assert view.pathBlack.cmds == [MoveTo(150, 100), LineTo(300, 50)];
  }
}
