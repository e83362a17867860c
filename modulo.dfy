/**
 * Range reductions by repeated addition and subtraction (Modulo24,
 * Modulo360, ModuloN, Modulo2Pi) and the eight-step bit reversal of a byte.
 */
module Modulo {
  import opened Angles

  /** The representative of x in [0, n): x minus the whole multiples of n below it. */
  function ModReal(x: real, n: real): real
    requires n > 0.0
  {
    x - n * (x / n).Floor as real
  }

  /** Dividing (q + k) * n by n gives back q + k. */
  lemma DivShift(v: real, n: real, k: real)
    requires n > 0.0
    ensures (v + k * n) / n == v / n + k
  {
    var q := v / n;
    assert v == q * n;
    assert v + k * n == (q + k) * n;
  }

  lemma ScaleBounds(t: real, n: real)
    requires n > 0.0
    ensures 0.0 <= t * n < n <==> 0.0 <= t < 1.0
  {
    if t < 0.0 {
      assert t * n < 0.0;
    } else if t >= 1.0 {
      assert t * n >= 1.0 * n;
    }
  }

  /** ModReal lies in [0, n). */
  lemma ModRealRange(x: real, n: real)
    requires n > 0.0
    ensures 0.0 <= ModReal(x, n) < n
  {
    var q := x / n;
    var t := q - q.Floor as real;
    assert x == q * n;
    assert ModReal(x, n) == t * n;
    ScaleBounds(t, n);
    assert 0.0 <= t * n < n;
  }

  /** The only value in [0, n) that differs from x by k times n is ModReal(x, n). */
  lemma ModRealUnique(x: real, n: real, k: int)
    requires n > 0.0
    requires 0.0 <= x + k as real * n < n
    ensures ModReal(x, n) == x + k as real * n
  {
    var q := x / n;
    assert x == q * n;
    var t := q + k as real;
    assert x + k as real * n == t * n;
    ScaleBounds(t, n);
    assert q.Floor == -k;
  }

  /**
   * The loop pair of Modulo24, Modulo360 and the function ModuloN returns:
   * add n while v <= n, then subtract n while v >= n.
   */
  method ModuloN(n: real, v0: real) returns (v: real)
    requires n > 0.0
    ensures 0.0 <= v < n
    ensures v == ModReal(v0, n)
  {
    v := v0;
    ghost var k: int := 0;
    while v <= n
      invariant v == v0 + k as real * n
      decreases ((n - v) / n).Floor
    {
      DivShift(n - v, n, -1.0);
      v := v + n;
      k := k + 1;
    }
    while v >= n
      invariant v == v0 + k as real * n
      invariant v >= 0.0
      decreases (v / n).Floor
    {
      DivShift(v, n, -1.0);
      v := v - n;
      k := k - 1;
    }
    ModRealUnique(v0, n, k);
  }

  /** Hours reduced to [0, 24); the source's comment says (0, 24], but 24 gives 0. */
  method Modulo24(hours: real) returns (r: real)
    ensures 0.0 <= r < 24.0
    ensures r == ModReal(hours, 24.0)
  {
    r := ModuloN(24.0, hours);
  }

  /** Degrees reduced to [0, 360). */
  method Modulo360(deg: real) returns (r: real)
    ensures 0.0 <= r < 360.0
    ensures r == ModReal(deg, 360.0)
  {
    r := ModuloN(360.0, deg);
  }

  /** The angle's degree value reduced to [0, 360), as a Degree angle. */
  method Modulo2Pi(a: Angle) returns (r: Angle)
    ensures r.unit == Degree
    ensures 0.0 <= r.value < 360.0
    ensures r.value == ModReal(Deg(a), 360.0)
  {
    var v := Modulo360(ToDegree(a).value);
    r := NewAngle(Degree, v);
  }

  /** The reductions reproduce the source's expected values: 25 -> 1, -1 -> 23, 24 -> 0, -23.9 -> 0.1. */
  lemma Modulo24Examples()
    ensures ModReal(25.0, 24.0) == 1.0 && ModReal(-1.0, 24.0) == 23.0
    ensures ModReal(24.0, 24.0) == 0.0 && ModReal(-24.0, 24.0) == 0.0
    ensures ModReal(-23.9, 24.0) == 0.1 && ModReal(49.1, 24.0) == 1.1
  {
    ModRealUnique(25.0, 24.0, -1);
    ModRealUnique(-1.0, 24.0, 1);
    ModRealUnique(24.0, 24.0, -1);
    ModRealUnique(-24.0, 24.0, 1);
    ModRealUnique(-23.9, 24.0, 1);
    ModRealUnique(49.1, 24.0, -2);
  }

  /** Reducing twice is reducing once. */
  lemma ModRealIdempotent(x: real, n: real)
    requires n > 0.0
    ensures ModReal(ModReal(x, n), n) == ModReal(x, n)
  {
    ModRealRange(x, n);
    ModRealUnique(ModReal(x, n), n, 0);
  }

  // Bit reversal.

  /** Bit i of x. */
  function Bit(x: bv8, i: nat): bool
    requires i < 8
  {
    (x >> i) & 1 == 1
  }

  /** The low i bits of x in reverse order, as the first i steps of the loop leave them. */
  function ReversedLow(x: bv8, i: nat): bv8
    requires i <= 8
  {
    if i == 0 then 0 else (ReversedLow(x, i - 1) << 1) | ((x >> (i - 1)) & 1)
  }

  /** The byte with its eight bits in reverse order. */
  function Reversed(x: bv8): (r: bv8)
    ensures forall j :: 0 <= j < 8 ==> Bit(r, j) == Bit(x, 7 - j)
  {
    assert ReversedLow(x, 1) == x & 1;
    assert ReversedLow(x, 2) == ((x & 1) << 1) | ((x >> 1) & 1);
    assert ReversedLow(x, 3) == ((x & 1) << 2) | (((x >> 1) & 1) << 1) | ((x >> 2) & 1);
    assert ReversedLow(x, 4) == ((x & 1) << 3) | (((x >> 1) & 1) << 2) | (((x >> 2) & 1) << 1) | ((x >> 3) & 1);
    assert ReversedLow(x, 5) == ((x & 1) << 4) | (((x >> 1) & 1) << 3) | (((x >> 2) & 1) << 2)
      | (((x >> 3) & 1) << 1) | ((x >> 4) & 1);
    assert ReversedLow(x, 6) == ((x & 1) << 5) | (((x >> 1) & 1) << 4) | (((x >> 2) & 1) << 3)
      | (((x >> 3) & 1) << 2) | (((x >> 4) & 1) << 1) | ((x >> 5) & 1);
    assert ReversedLow(x, 7) == ((x & 1) << 6) | (((x >> 1) & 1) << 5) | (((x >> 2) & 1) << 4)
      | (((x >> 3) & 1) << 3) | (((x >> 4) & 1) << 2) | (((x >> 5) & 1) << 1) | ((x >> 6) & 1);
    assert ReversedLow(x, 8) == ((x & 1) << 7) | (((x >> 1) & 1) << 6) | (((x >> 2) & 1) << 5)
      | (((x >> 3) & 1) << 4) | (((x >> 4) & 1) << 3) | (((x >> 5) & 1) << 2) | (((x >> 6) & 1) << 1) | ((x >> 7) & 1);
    ReversedLow(x, 8)
  }

  /** reverse8Bits: shifts the low bit of num into result eight times. */
  method Reverse8Bits(num0: bv8) returns (result: bv8)
    ensures result == Reversed(num0)
  {
    var num := num0;
    result := 0;
    var i := 0;
    while i < 8
      invariant 0 <= i <= 8
      invariant num == num0 >> i
      invariant result == ReversedLow(num0, i)
    {
      result := (result << 1) | (num & 1);
      num := num >> 1;
      i := i + 1;
    }
  }

  /** Two bytes with the same eight bits are equal. */
  lemma BitsDetermine(x: bv8, y: bv8)
    requires forall j :: 0 <= j < 8 ==> Bit(x, j) == Bit(y, j)
    ensures x == y
  {
    assert Bit(x, 0) == Bit(y, 0) && Bit(x, 1) == Bit(y, 1) && Bit(x, 2) == Bit(y, 2);
    assert Bit(x, 3) == Bit(y, 3) && Bit(x, 4) == Bit(y, 4) && Bit(x, 5) == Bit(y, 5);
    assert Bit(x, 6) == Bit(y, 6) && Bit(x, 7) == Bit(y, 7);
  }

  /** Reversing the bits of a byte twice gives the byte back. */
  lemma ReversedInvolution(x: bv8)
    ensures Reversed(Reversed(x)) == x
  {
    var r := Reversed(x);
    forall j | 0 <= j < 8 ensures Bit(Reversed(r), j) == Bit(x, j) {
      assert Bit(Reversed(r), j) == Bit(r, 7 - j);
    }
    BitsDetermine(Reversed(r), x);
  }
}
