/**
 * The horizontal track of the widget: a split point at the progress fraction
 * of the width, pushed `deltaY` below the baseline (y grows downwards), joined
 * to the left padding by the "white" segment and to the right end by the
 * "black" segment, so the track sags into a shallow "V".
 * `p` is `mProgress`, `w` is `mWidth` and `h` is `mHeight`; every `/` is Java's.
 */
module Track {
  import opened Common
  import opened Geometry

  /** Left and right padding of the view, set once by its constructor. */
  const PADDING: int := 50

  /** The track's baseline, `mHeight / 2`: the vertical middle of the view, rounded toward zero. */
  function Baseline(h: int): (b: int)
    ensures 0 <= h ==> 0 <= b && h - 1 <= 2 * b <= h
    ensures h < 0 ==> b <= 0 && h <= 2 * b <= h + 1
  {
    Quot(h, 2)
  }

  /**
   * `calculatedeltaY()`: how far below the baseline the split point sits. It
   * is a triangle in `p`: the distance to the nearer end of the range, times
   * the width, over 300, truncated toward zero.
   */
  function DeltaY(p: int, w: int): (d: int)
    ensures d == Quot(Min(p, 100 - p) * w, 300)
  {
    if p <= 50 then
      QuotSixThenFifty(p * w);
      Quot(Quot(p * w, 6), 50)
    else
      QuotSixThenFifty((100 - p) * w);
      Quot(Quot((100 - p) * w, 6), 50)
  }

  /**
   * `Math.max(getPaddingLeft(), mProgress * mWidth / 100)`: where the two
   * segments meet, the progress fraction of the width but never left of the padding.
   */
  function SplitX(p: int, w: int): (x: int)
    ensures PADDING <= x && Quot(p * w, 100) <= x
    ensures x == PADDING || x == Quot(p * w, 100)
  {
    Max(PADDING, Quot(p * w, 100))
  }

  function SplitPoint(p: int, w: int, h: int): Point
  {
    Point(SplitX(p, w), Baseline(h) + DeltaY(p, w))
  }

  /** The segment `makePathBlack()` builds: from the split point to the right end of the baseline. */
  function BlackPath(p: int, w: int, h: int): (cmds: PathCmds)
    ensures StartPoint(cmds) == Some(SplitPoint(p, w, h))
    ensures EndPoint(cmds) == Some(Point(w, Baseline(h)))
  {
    SegmentEnds(SplitX(p, w), Baseline(h) + DeltaY(p, w), w, Baseline(h));
    [MoveTo(SplitX(p, w), Baseline(h) + DeltaY(p, w)), LineTo(w, Baseline(h))]
  }

  /** The segment `makePathWhite()` builds: from the left padding on the baseline to the split point. */
  function WhitePath(p: int, w: int, h: int): (cmds: PathCmds)
    ensures StartPoint(cmds) == Some(Point(PADDING, Baseline(h)))
    ensures EndPoint(cmds) == Some(SplitPoint(p, w, h))
  {
    SegmentEnds(PADDING, Baseline(h), SplitX(p, w), Baseline(h) + DeltaY(p, w));
    [MoveTo(PADDING, Baseline(h)), LineTo(SplitX(p, w), Baseline(h) + DeltaY(p, w))]
  }

  /** At both ends of the range the split point is on the baseline, for every width. */
  lemma DeltaYVanishesAtEnds(w: int)
    ensures DeltaY(0, w) == 0 && DeltaY(100, w) == 0
  {
  }

  /** `deltaY` is symmetric about 50%: `deltaY(p) == deltaY(100 - p)`, for every `p` and `w`. */
  lemma DeltaYSymmetric(p: int, w: int)
    ensures DeltaY(p, w) == DeltaY(100 - p, w)
  {
  }

  /** At 50% the split point is `mWidth / 6` below the baseline, for every width. */
  lemma {:induction false} DeltaYPeak(w: int)
    ensures DeltaY(50, w) == Quot(w, 6)
  {
    if w < 0 {
      QuotNegate(50 * (-w), 300);
      QuotNegate(-w, 6);
      assert 50 * w == -(50 * (-w));
      EuclidFiftyOverThreeHundred(-w);
    } else {
      EuclidFiftyOverThreeHundred(w);
    }
  }

  lemma {:induction false} EuclidFiftyOverThreeHundred(w: nat)
    ensures (50 * w) / 300 == w / 6
  {
    assert 50 * w == 300 * (w / 6) + 50 * (w % 6);
  }

  /** With a non-negative width and progress in [0, 100], `deltaY` is never negative and never more than at 50%. */
  lemma {:induction false} DeltaYBounds(p: int, w: int)
    requires 0 <= p <= 100 && 0 <= w
    ensures 0 <= DeltaY(p, w) <= DeltaY(50, w)
  {
    MulMonotone(0, Min(p, 100 - p), w);
    MulMonotone(Min(p, 100 - p), 50, w);
    QuotMonotone(Min(p, 100 - p) * w, 50 * w, 300);
  }

  /** The split point sinks further as the progress goes from 0 to 50. */
  lemma {:induction false} DeltaYRising(p: int, q: int, w: int)
    requires 0 <= p <= q <= 50 && 0 <= w
    ensures DeltaY(p, w) <= DeltaY(q, w)
  {
    MulMonotone(p, q, w);
    QuotMonotone(p * w, q * w, 6);
    QuotMonotone(Quot(p * w, 6), Quot(q * w, 6), 50);
  }

  /** The split point comes back up as the progress goes from 50 to 100. */
  lemma {:induction false} DeltaYFalling(p: int, q: int, w: int)
    requires 50 <= p <= q <= 100 && 0 <= w
    ensures DeltaY(q, w) <= DeltaY(p, w)
  {
    DeltaYSymmetric(p, w);
    DeltaYSymmetric(q, w);
    DeltaYRising(100 - q, 100 - p, w);
  }

  /**
   * The split x is never left of the padding, and for progress up to 100,
   * negative progress included, on a track at least as wide as the padding
   * it is never right of the track's end.
   */
  lemma {:induction false} SplitXBounds(p: int, w: int)
    ensures PADDING <= SplitX(p, w)
    ensures p <= 100 && PADDING <= w ==> SplitX(p, w) <= w
  {
    if p <= 100 && PADDING <= w {
      if 0 <= p {
        MulMonotone(p, 100, w);
        QuotMonotone(p * w, 100 * w, 100);
      } else {
        MulMonotone(p, 0, w);
        QuotMonotone(p * w, 0, 100);
      }
    }
  }

  /**
   * For progress up to 100 on a track at least as wide as the padding, the
   * two segments together cover exactly [padLeft, w] horizontally, and they
   * share no abscissa but the split x.
   */
  lemma {:induction false} TracksCoverWidth(p: int, w: int, h: int)
    requires p <= 100 && PADDING <= w
    ensures forall x :: PADDING <= x <= w <==> CoversX(WhitePath(p, w, h), x) || CoversX(BlackPath(p, w, h), x)
    ensures forall x :: CoversX(WhitePath(p, w, h), x) && CoversX(BlackPath(p, w, h), x) <==> x == SplitX(p, w)
  {
    SplitXBounds(p, w);
  }

  /** Width 300 at 50%: the split is at x = 150, 50 below the baseline. */
  lemma TrackAtHalfOfThreeHundred(h: int)
    ensures SplitX(50, 300) == 150 && DeltaY(50, 300) == 50
    ensures BlackPath(50, 300, h) == [MoveTo(150, Baseline(h) + 50), LineTo(300, Baseline(h))]
  {
  }
}
