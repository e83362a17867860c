/** Failure-carrying results shared by every module of the model. */
module Wrappers {

  datatype Option<+T> = None | Some(value: T)

  /** A value or the error the source returns beside a zero value. */
  datatype Result<+T, +E> = Ok(value: T) | Err(error: E)
}

/**
 * The machine numbers of the source that differ from Dafny's unbounded ones:
 * the 32-bit signed wrap counts and Go's truncating float-to-int conversion.
 */
module Numeric {

  const MinInt32: int := -0x8000_0000
  const MaxInt32: int := 0x7fff_ffff

  newtype Int32 = x: int | -0x8000_0000 <= x < 0x8000_0000

  /** Two's-complement reduction of an integer into the 32-bit signed range. */
  function Wrap32(x: int): (r: Int32)
    ensures (r as int - x) % 0x1_0000_0000 == 0
    ensures MinInt32 <= x <= MaxInt32 ==> r as int == x
  {
    var m := (x - MinInt32) % 0x1_0000_0000;
    (m + MinInt32) as Int32
  }

  /** Go's `x + 1` on an int32. */
  function Inc32(x: Int32): (r: Int32)
    ensures x as int < MaxInt32 ==> r as int == x as int + 1
    ensures x as int == MaxInt32 ==> r as int == MinInt32
  {
    Wrap32(x as int + 1)
  }

  /** Go's `x - 1` on an int32. */
  function Dec32(x: Int32): (r: Int32)
    ensures x as int > MinInt32 ==> r as int == x as int - 1
    ensures x as int == MinInt32 ==> r as int == MaxInt32
  {
    Wrap32(x as int - 1)
  }

  /** Go's unary `-x` on an int32: the negation of the minimum is the minimum. */
  function Neg32(x: Int32): (r: Int32)
    ensures x as int > MinInt32 ==> r as int == -(x as int)
    ensures x as int == MinInt32 ==> r == x
  {
    Wrap32(-(x as int))
  }

  function Abs(x: real): (r: real)
    ensures r >= 0.0
    ensures r == x || r == -x
  {
    if x < 0.0 then -x else x
  }

  /** Go's `int(x)` on a float: truncation toward zero. */
  function Trunc(x: real): (r: int)
    ensures x >= 0.0 ==> 0 <= r && r as real <= x < r as real + 1.0
    ensures x <= 0.0 ==> r <= 0 && r as real - 1.0 < x <= r as real
  {
    if x >= 0.0 then x.Floor else -((-x).Floor)
  }

  /** Comparing a quotient by a positive divisor is comparing the dividend with the scaled bound. */
  lemma QuotientExceeds(x: real, d: real, c: real)
    requires d > 0.0
    ensures x / d > c <==> x > c * d
    ensures Abs(x / d) > c <==> Abs(x) > c * d
  {
    var q := x / d;
    assert x == q * d;
    if q > c {
      assert q * d > c * d;
    } else {
      assert q * d <= c * d;
    }
    if -q > c {
      assert -q * d > c * d;
    } else {
      assert -q * d <= c * d;
    }
  }
}
