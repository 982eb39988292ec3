# ProgressDownload in Dafny

`ProgressDownload` is an Android view that shows download progress. It draws a
horizontal track split at the current percentage. On the canvas y grows
downwards, and the split point sits `deltaY` below the baseline, so the track
sags into a shallow "V" that is deepest at 50%. A speech-bubble shaped label
is drawn at the view's top-left corner; the code never moves it. Its public
methods are `setPercentage(n)`, `setProgress(p)` and `getProgress()`; only
`setPercentage` validates its argument. `setPercentage` rejects a target
outside [0, 100]; otherwise it starts an animator that drives the `progress`
property, through `setProgress`, from its current value to `n`. The duration
of that animation shrinks by 10 ms for every percentage point of the jump.

The model has six modules:

- `Common`: Java's integer division, which truncates toward zero, as `Quot`;
  `Abs`, `Min` and `Max`; and the `Option`, `Result` and `Outcome` wrappers.
- `Geometry`: a path as a sequence of symbolic drawing commands (`MoveTo`,
  `LineTo`, `ArcTo` with its oval and angles, `Close`). A small pen
  interpreter (`Step`, `Trace`, `Trail`) says where each command leaves the
  pen. It computes arc endpoints only at the four compass angles, which are
  the only ones the view uses.
- `Track`: `calculatedeltaY()` as `DeltaY`, the split abscissa, and the two
  track segments as functions of progress, width and height.
- `Bubble`: the bubble outline as `makePathBubble()` computes it from its
  rectangle and corner radius (`OutlineOf`), the resulting fixed command list
  (`Outline`), and the pen positions along it (`OutlineTrail`).
- `Animation`: the validation and the duration of the transition
  `setPercentage` requests.
- `Widget`: the view itself as a class. Its fields are `progress`, `width`,
  `height`, the three nullable `Path` objects it allocates lazily and
  overwrites in place, and the transition last handed to the animator. The
  invariant `Valid()` ties the three paths to the progress and size they were
  last built from.

The duration is `1150 - |n*10 - current*10|` ms, so a longer jump gets a
shorter animation: from 0, going to 10 takes 1050 ms and going to 100 takes
150 ms (`Animation.DurationFromZero`). Between values in [0, 100] the duration
never reaches zero or goes negative: its minimum is 150 ms
(`Animation.DurationBounds`).

The bubble's right edge is drawn upwards from (85, 48) to
`top + arrowHeight` = 14, while the upper-right arc starts at y = 8
(`Bubble.BubbleArcJoins`). `arcTo` joins the two with a straight upward piece
of the same vertical edge; the pen interpreter does not model that piece. The
other three arcs start exactly where the pen stands (`Bubble.BubbleArcJoins`),
and `close()` brings the pen back to the arrow's left corner
(`Bubble.BubbleClosed`).

## Model

| member | source | states |
|---|---|---|
| Common.Quot | library/src/main/java/is/arontibo/library/ProgressDownload.java:86 | Java's `/` on `int`: for a non-negative dividend the quotient is the floor, and for a negative one it is the ceiling (truncation toward zero) |
| Common.Max | library/src/main/java/is/arontibo/library/ProgressDownload.java:86 | `Math.max`: the result is at least both arguments and equal to one of them |
| Common.Abs | library/src/main/java/is/arontibo/library/ProgressDownload.java:165 | `Math.abs`: the result is non-negative and equal to the argument or its negation |
| Common.QuotSixThenFifty | library/src/main/java/is/arontibo/library/ProgressDownload.java:154 | dividing by 6 and then by 50, each truncated, is the same as dividing by 300 once, for every dividend |
| Common.QuotMonotone | library/src/main/java/is/arontibo/library/ProgressDownload.java:154 | truncating division by a positive divisor is monotone in the dividend |
| Track.DeltaY | library/src/main/java/is/arontibo/library/ProgressDownload.java:152-158 | `calculatedeltaY()`: how far below the baseline the split point sits, equal to the closed form `min(p, 100 - p) * width / 300` truncated toward zero, a triangle peaking at 50% |
| Track.Baseline | library/src/main/java/is/arontibo/library/ProgressDownload.java:86-87 | `mHeight / 2`: for a non-negative height, the vertical middle of the view rounded down (`h - 1 <= 2b <= h`), and rounded toward zero for a negative one |
| Track.SplitX | library/src/main/java/is/arontibo/library/ProgressDownload.java:86 | the split abscissa is the larger of the left padding and `progress * width / 100`: it is at least both and equal to one of them |
| Track.BlackPath | library/src/main/java/is/arontibo/library/ProgressDownload.java:85-87 | the black segment starts at the split point and leaves the pen at `(width, height/2)` |
| Track.WhitePath | library/src/main/java/is/arontibo/library/ProgressDownload.java:98-100 | the white segment starts at `(padding, height/2)` and leaves the pen at the split point, where the black one starts |
| Track.DeltaYVanishesAtEnds | library/src/main/java/is/arontibo/library/ProgressDownload.java:152-158 | `deltaY` is 0 at 0% and at 100%, for every width: the split point is on the baseline |
| Track.DeltaYSymmetric | library/src/main/java/is/arontibo/library/ProgressDownload.java:152-158 | `deltaY(p)` equals `deltaY(100 - p)`, for every `p` and width |
| Track.DeltaYPeak | library/src/main/java/is/arontibo/library/ProgressDownload.java:154 | at 50%, `deltaY` is `width / 6` |
| Track.DeltaYBounds | library/src/main/java/is/arontibo/library/ProgressDownload.java:152-158 | for progress in [0, 100] and a non-negative width, `deltaY` lies between 0 and its value at 50% |
| Track.DeltaYRising | library/src/main/java/is/arontibo/library/ProgressDownload.java:153-154 | for a non-negative width, `deltaY` does not decrease on [0, 50]: the split point sinks as the progress goes toward 50% |
| Track.DeltaYFalling | library/src/main/java/is/arontibo/library/ProgressDownload.java:155-156 | for a non-negative width, `deltaY` does not increase on [50, 100]: the split point rises back toward the baseline |
| Track.SplitXBounds | library/src/main/java/is/arontibo/library/ProgressDownload.java:86 | the split abscissa is never left of the left padding, and for any progress up to 100, negative values from an unchecked `setProgress` included, on a track at least 50 wide it is never right of the track's end |
| Track.TracksCoverWidth | library/src/main/java/is/arontibo/library/ProgressDownload.java:98-100 | for any progress up to 100 on a track at least 50 wide, the two segments together cover exactly [padding, width] horizontally and share only the split abscissa |
| Track.TrackAtHalfOfThreeHundred | library/src/main/java/is/arontibo/library/ProgressDownload.java:86-87 | at 50% on a 300-wide track the split is at x = 150, 50 below the baseline, and the black segment is fixed accordingly |
| Bubble.OutlineOf | library/src/main/java/is/arontibo/library/ProgressDownload.java:111-147 | the outline `makePathBubble()` computes from a rectangle and a corner radius, one path call at a time, with Java's truncating `/` |
| Bubble.Outline | library/src/main/java/is/arontibo/library/ProgressDownload.java:119-147 | the 12 commands of the bubble outline, with every coordinate evaluated |
| Bubble.OutlineOfBubbleRect | library/src/main/java/is/arontibo/library/ProgressDownload.java:111-147 | the outline computed from the 85 x 70 rectangle, radius 8 and an arrow `85/3` wide and `28/2` high is exactly the command list `Outline` |
| Bubble.ArcCount | library/src/main/java/is/arontibo/library/ProgressDownload.java:127-145 | counts the arcs of a path: at most one per command, and zero exactly when no command is an arc |
| Bubble.BubbleShape | library/src/main/java/is/arontibo/library/ProgressDownload.java:116-147 | the outline is one contour of 12 commands: a leading move, lines and arcs, and a final close, every arc sweeping -90 degrees |
| Bubble.BubbleArcCount | library/src/main/java/is/arontibo/library/ProgressDownload.java:127-145 | the outline has exactly four arcs, one per corner |
| Bubble.BubbleTrail | library/src/main/java/is/arontibo/library/ProgressDownload.java:116-147 | drawn from a fresh path, the pen visits the arrow corners, the tip, and each edge and corner end in turn, and comes back to (28, 56) |
| Bubble.BubbleClosed | library/src/main/java/is/arontibo/library/ProgressDownload.java:119-147 | the outline starts and ends at the arrow's left corner (28, 56) |
| Bubble.BubbleArcJoins | library/src/main/java/is/arontibo/library/ProgressDownload.java:124-145 | three arcs start where the pen stands; the upper-right arc starts at (85, 8), 6 above where the upward right edge stopped at (85, 14) |
| Animation.Duration | library/src/main/java/is/arontibo/library/ProgressDownload.java:165 | the duration is 1150 ms less 10 ms per percentage point of the jump, `1150 - 10 * abs(target - current)` |
| Animation.RequestTransition | library/src/main/java/is/arontibo/library/ProgressDownload.java:160-165 | a target outside [0, 100] fails with `IllegalArgumentException("setPercentage not between 0 and 100")`, and only such a target does; an accepted request animates from the current progress to the target over `Duration(target, current)` ms, `1150 - 10 * abs(target - current)` |
| Animation.DurationBounds | library/src/main/java/is/arontibo/library/ProgressDownload.java:27 | between values in [0, 100] the duration lies in [150, 1150] ms, so it is never zero or negative |
| Animation.DurationFullIffStill | library/src/main/java/is/arontibo/library/ProgressDownload.java:165 | the duration is the full 1150 ms if and only if the target is the current progress |
| Animation.DurationShrinksWithJump | library/src/main/java/is/arontibo/library/ProgressDownload.java:165 | a longer jump never gets a longer animation, and a strictly longer jump gets a strictly shorter one |
| Animation.DurationFromZero | library/src/main/java/is/arontibo/library/ProgressDownload.java:165 | from 0, a jump to 10 takes 1050 ms and a jump to 100 takes 150 ms |
| Animation.RequestDurationBounds | library/src/main/java/is/arontibo/library/ProgressDownload.java:160-165 | from a progress in range, every accepted request carries a duration in [150, 1150] ms |
| Widget.Path.constructor | library/src/main/java/is/arontibo/library/ProgressDownload.java:82 | `new Path()` holds no commands |
| Widget.Path.MoveTo | library/src/main/java/is/arontibo/library/ProgressDownload.java:86 | `Path.moveTo` appends a move to the path's commands and changes nothing else in it |
| Widget.Path.LineTo | library/src/main/java/is/arontibo/library/ProgressDownload.java:87 | `Path.lineTo` appends a line to the path's commands and changes nothing else in it |
| Widget.Path.ArcTo | library/src/main/java/is/arontibo/library/ProgressDownload.java:127 | `Path.arcTo` appends an arc with its oval and angles to the path's commands and changes nothing else in it |
| Widget.Path.Close | library/src/main/java/is/arontibo/library/ProgressDownload.java:147 | `Path.close` appends a close to the path's commands and changes nothing else in it |
| Widget.Path.Set | library/src/main/java/is/arontibo/library/ProgressDownload.java:89 | `Path.set` replaces the receiver's commands with those of the source path |
| Widget.ProgressDownload.constructor | library/src/main/java/is/arontibo/library/ProgressDownload.java:30-39 | a new view has progress 0, no size, no paths and no animation, and satisfies the invariant |
| Widget.ProgressDownload.GetProgress | library/src/main/java/is/arontibo/library/ProgressDownload.java:178-180 | returns the current progress |
| Widget.ProgressDownload.MakePathBlack | library/src/main/java/is/arontibo/library/ProgressDownload.java:79-90 | the black path holds the segment from the split point to the right end of the baseline; an existing path object is reused and a missing one is allocated fresh |
| Widget.ProgressDownload.MakePathWhite | library/src/main/java/is/arontibo/library/ProgressDownload.java:92-103 | the white path holds the segment from the left padding to the split point; an existing path object is reused and a missing one is allocated fresh |
| Widget.ProgressDownload.MakePathBubble | library/src/main/java/is/arontibo/library/ProgressDownload.java:105-150 | the bubble path holds the fixed outline, whatever the progress and size; an existing path object is reused and a missing one is allocated fresh |
| Widget.NewBubbleOutline | library/src/main/java/is/arontibo/library/ProgressDownload.java:111-147 | the temporary path `makePathBubble()` fills holds exactly the command list `Outline` |
| Widget.DrawOutline | library/src/main/java/is/arontibo/library/ProgressDownload.java:111-147 | the path calls of `makePathBubble()`, for any rectangle and radius, leave a fresh path holding exactly `OutlineOf(r, radius)` |
| Widget.ProgressDownload.SetProgress | library/src/main/java/is/arontibo/library/ProgressDownload.java:170-176 | records any progress unchecked and rebuilds all three paths from it, keeping the invariant; size and animation are unchanged, and path objects are reused once they exist |
| Widget.ProgressDownload.SetPercentage | library/src/main/java/is/arontibo/library/ProgressDownload.java:160-168 | fails exactly when the target is outside [0, 100], and then changes nothing; otherwise records the transition `RequestTransition` describes, leaving progress and paths to the animation |
| Widget.ProgressDownload.FinishAnimation | library/src/main/java/is/arontibo/library/ProgressDownload.java:164-167 | the animation's final frame sets the progress to the transition's target through `setProgress`, so the paths are rebuilt for it |
| Widget.ProgressDownload.OnSizeChanged | library/src/main/java/is/arontibo/library/ProgressDownload.java:70-77 | the width becomes the new view width less the right padding and the height the new view height; the current progress is re-requested, which fails with `setPercentage`'s `IllegalArgumentException` exactly when it is outside [0, 100], and otherwise records a 1150 ms transition from the progress to itself |
| Widget.PercentageSettles | library/src/main/java/is/arontibo/library/ProgressDownload.java:160-176 | from any valid state, `setPercentage(v)` for a `v` in [0, 100] followed by the animation's final frame leaves `getProgress() == v` and the black and white paths built for `v` |

## Left out

- `onDraw` and the `Paint` set-up in the constructor: they only hand the paths to the canvas.
- The background colour, `Log.d` and `invalidate()`: they have no effect on the view's state.
- `Context` and `AttributeSet`: the constructor's arguments are passed to the platform only. The padding is the constant 50 on both sides.
- The interpolator and the intermediate frames of the animation: only the requested transition and its final frame (`FinishAnimation`) are modelled. Each intermediate frame is a `SetProgress` call.
- Concurrent animators started by overlapping `setPercentage` calls: the model keeps one pending transition.
- 32-bit overflow of `mProgress * mWidth` and of the duration arithmetic: integers are unbounded. The view's sizes and percentages keep these products far from the limit.
- `float` coordinates: `Path.moveTo`, `lineTo` and `RectF` take floats, but every value the view passes is an `int` computed in integer arithmetic, so the model keeps `int`.
- Arc rasterisation: arcs stay symbolic, and arc endpoints are computed only at compass angles.
- The position at which the bubble is drawn: it is fixed at the canvas origin in the code and is not modelled.
- Widget.ProgressDownload.SetPercentage: a progress left far enough outside [0, 100] by an unchecked `setProgress` makes the duration negative, and the platform's `setDuration` then throws. The model records the transition and does not model that platform exception.
