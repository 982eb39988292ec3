/**
 * The request `setPercentage` hands to the platform animator: validation of
 * the target and the duration of the transition. The easing itself is not
 * modelled.
 */
module Animation {
  import opened Common

  const ANIMATION_DURATION_BASE: int := 1150

  /** The exception `setPercentage` throws. */
  datatype Error = IllegalArgument(message: string)

  /** An animation of the `progress` property from `from` to `to` over `duration` milliseconds. */
  datatype Transition = Transition(from: int, to: int, duration: int)

  /**
   * `ANIMATION_DURATION_BASE - Math.abs(newProgress*10 - getProgress()*10)`:
   * the base duration less 10 ms per percentage point of the jump.
   */
  function Duration(target: int, current: int): (d: int)
    ensures d == ANIMATION_DURATION_BASE - 10 * Abs(target - current)
  {
    ANIMATION_DURATION_BASE - Abs(target * 10 - current * 10)
  }

  /**
   * What `setPercentage(target)` asks for when the progress is `current`:
   * an `IllegalArgument` failure for a target outside [0, 100], otherwise a
   * transition from the current progress to the target.
   */
  function RequestTransition(current: int, target: int): (r: Result<Transition, Error>)
    ensures r.Failure? <==> target < 0 || 100 < target
    ensures r.Failure? ==> r.error == IllegalArgument("setPercentage not between 0 and 100")
    ensures r.Success? ==> r.value.from == current && r.value.to == target
    ensures r.Success? ==> r.value.duration == Duration(target, current)
  {
    if target < 0 || target > 100 then Failure(IllegalArgument("setPercentage not between 0 and 100"))
    else Success(Transition(current, target, Duration(target, current)))
  }

  /** Between values in [0, 100] the duration lies in [150, 1150]: it is never zero or negative. */
  lemma DurationBounds(target: int, current: int)
    requires 0 <= target <= 100 && 0 <= current <= 100
    ensures 150 <= Duration(target, current) <= ANIMATION_DURATION_BASE
  {
  }

  /** The full base duration is used exactly when the target is the current value. */
  lemma DurationFullIffStill(target: int, current: int)
    ensures Duration(target, current) == ANIMATION_DURATION_BASE <==> target == current
  {
  }

  /** A larger jump gets a shorter animation, and a strictly larger one a strictly shorter animation. */
  lemma DurationShrinksWithJump(near: int, far: int, current: int)
    ensures Abs(near - current) <= Abs(far - current) ==> Duration(far, current) <= Duration(near, current)
    ensures Abs(near - current) < Abs(far - current) ==> Duration(far, current) < Duration(near, current)
  {
  }

  /** From 0, going to 10 takes 1050 ms and going to 100 takes 150 ms. */
  lemma DurationFromZero()
    ensures Duration(10, 0) == 1050 && Duration(100, 0) == 150
  {
  }

  /**
   * Every accepted request carries a duration in [150, 1150] when the
   * current progress is itself in range.
   */
  lemma RequestDurationBounds(current: int, target: int)
    requires 0 <= current <= 100
    ensures RequestTransition(current, target).Success? ==>
      150 <= RequestTransition(current, target).value.duration <= ANIMATION_DURATION_BASE
  {
    if 0 <= target <= 100 {
      DurationBounds(target, current);
    }
  }
}
