/** Small value types and the integer arithmetic of the Java source. */
module Common {

  datatype Option<T> = None | Some(value: T)

  datatype Result<T, E> = Success(value: T) | Failure(error: E)

  /** The outcome of a Java `void` method that may throw. */
  datatype Outcome<E> = Pass | Fail(error: E)

  /** `Math.abs` on an int. */
  function Abs(x: int): (r: nat)
    ensures r == x || r == -x
  {
    if x < 0 then -x else x
  }

  function Min(a: int, b: int): (r: int)
    ensures r <= a && r <= b && (r == a || r == b)
  {
    if a <= b then a else b
  }

  /** `Math.max` on two ints. */
  function Max(a: int, b: int): (r: int)
    ensures a <= r && b <= r && (r == a || r == b)
  {
    if a <= b then b else a
  }

  /**
   * Java's `int` division by a positive divisor. It truncates toward zero,
   * whereas Dafny's `/` is Euclidean; the two agree on a non-negative dividend.
   */
  function Quot(a: int, d: int): (q: int)
    requires d > 0
    ensures 0 <= a ==> 0 <= q && d * q <= a < d * q + d
    ensures a < 0 ==> q <= 0 && d * q - d < a <= d * q
  {
    if a >= 0 then a / d else -((-a) / d)
  }

  /** Truncating division is odd in its dividend. */
  lemma QuotNegate(a: int, d: int)
    requires d > 0
    ensures Quot(-a, d) == -Quot(a, d)
  {
  }

  /** Truncating division by a positive divisor is monotone in the dividend. */
  lemma {:induction false} QuotMonotone(a: int, b: int, d: int)
    requires d > 0 && a <= b
    ensures Quot(a, d) <= Quot(b, d)
  {
    var qa, qb := Quot(a, d), Quot(b, d);
    if qb + 1 <= qa {
      MulMonotone(qb + 1, qa, d);
      assert false;
    }
  }

  /** Multiplication by a non-negative factor is monotone. */
  lemma {:induction false} MulMonotone(m: int, n: int, w: int)
    requires m <= n && 0 <= w
    ensures m * w <= n * w
  {
    assert n * w - m * w == (n - m) * w;
  }

  /** Dividing by 6 and then by 50, as Java does, equals dividing by 300. */
  lemma {:induction false} QuotSixThenFifty(a: int)
    ensures Quot(Quot(a, 6), 50) == Quot(a, 300)
  {
    if a < 0 {
      EuclidSixThenFifty(-a);
      QuotNegate(a, 6);
      QuotNegate(Quot(-a, 6), 50);
      QuotNegate(a, 300);
    } else {
      EuclidSixThenFifty(a);
    }
  }

  lemma {:induction false} EuclidSixThenFifty(a: nat)
    ensures (a / 6) / 50 == a / 300
  {
    var q1 := a / 6;
    var q2 := q1 / 50;
    assert a == 6 * q1 + a % 6;
    assert q1 == 50 * q2 + q1 % 50;
    assert a == 300 * q2 + (6 * (q1 % 50) + a % 6);
  }
}
