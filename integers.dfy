/** Go's `int64` and `uint64` with the arithmetic the interpreter relies on:
    two's-complement wrap-around, division that truncates toward zero, and the
    bit-pattern conversion `uint64(x)`. */
module Integers {

  const TWO_63: int := 0x8000_0000_0000_0000
  const TWO_64: int := 0x1_0000_0000_0000_0000

  type Int64 = x: int | -TWO_63 <= x < TWO_63
  type UInt64 = x: int | 0 <= x < TWO_64

  /** The int64 value that the mathematical integer `x` wraps around to. */
  function Wrap(x: int): (r: Int64)
    ensures (x - r) % TWO_64 == 0
    ensures -TWO_63 <= x < TWO_63 ==> r == x
  {
    (x + TWO_63) % TWO_64 - TWO_63
  }

  /** Go's integer division: the quotient truncated toward zero. */
  function Quot(a: int, b: int): (q: int)
    requires b != 0
  {
    var q := Abs(a) / Abs(b);
    if (a < 0) == (b < 0) then q else -q
  }

  function Abs(x: int): (r: nat)
    ensures r == x || r == -x
  {
    if x < 0 then -x else x
  }

  /** `uint64(x)` for an int64 `x`: the same 64 bits read as unsigned. */
  function BitPattern(x: Int64): (r: UInt64)
    ensures (r - x) % TWO_64 == 0
  {
    if x < 0 then x + TWO_64 else x
  }

  /** Wrapping is idempotent on results and agrees for values 2^64 apart. */
  lemma WrapCongruent(x: int, y: int)
    requires (x - y) % TWO_64 == 0
    ensures Wrap(x) == Wrap(y)
  {
    var k := (x - y) / TWO_64;
    assert x == y + k * TWO_64;
    assert (x + TWO_63) % TWO_64 == (y + TWO_63 + k * TWO_64) % TWO_64;
    ModuloShift(y + TWO_63, k);
  }

  lemma ModuloShift(a: int, k: int)
    ensures (a + k * TWO_64) % TWO_64 == a % TWO_64
  {
  }

  /** Negating twice gives back every int64, including the most negative one,
      which negation maps to itself. */
  lemma {:induction false} NegateTwice(v: Int64)
    ensures Wrap(-(Wrap(-(v as int)) as int)) == v
  {
    var n: int := v;
    if n == -TWO_63 {
      assert Wrap(-n) == n;
    } else {
      assert Wrap(-n) == -n;
    }
  }

  /** Truncated division: the remainder is smaller than the divisor and takes
      the sign of the dividend (the rule of Go's `/` and `%`). */
  lemma {:induction false} QuotRemainder(a: int, b: int)
    requires b != 0
    ensures Abs(a - Quot(a, b) * b) < Abs(b)
    ensures a - Quot(a, b) * b == 0 || ((a - Quot(a, b) * b < 0) <==> (a < 0))
  {
    var q := Abs(a) / Abs(b);
    var m := Abs(a) % Abs(b);
    assert Abs(a) == q * Abs(b) + m;
    if a >= 0 && b > 0 {
      assert a - Quot(a, b) * b == m;
    } else if a >= 0 && b < 0 {
      assert Quot(a, b) * b == (-q) * b == q * Abs(b);
      assert a - Quot(a, b) * b == m;
    } else if a < 0 && b > 0 {
      assert Quot(a, b) * b == (-q) * b == -(q * Abs(b));
      assert a - Quot(a, b) * b == -m;
    } else {
      assert Quot(a, b) * b == q * b == -(q * Abs(b));
      assert a - Quot(a, b) * b == -m;
    }
  }

  /** A quotient of int64 values fits in an int64, except the most negative
      value divided by -1. */
  lemma QuotFits(a: Int64, b: Int64)
    requires b != 0 && !(a == -TWO_63 && b == -1)
    ensures -TWO_63 <= Quot(a, b) < TWO_63
  {
    if Abs(b) == 1 {
      assert Abs(a) / 1 == Abs(a);
    } else {
      DivideByAtLeastTwo(Abs(a), Abs(b));
    }
  }

  lemma DivideByAtLeastTwo(n: nat, d: nat)
    requires d >= 2
    ensures 2 * (n / d) <= n
  {
    var q := n / d;
    assert q * d <= n;
    MultiplyMonotone(q, d);
  }

  lemma MultiplyMonotone(q: nat, d: nat)
    requires d >= 2
    ensures 2 * q <= q * d
  {
    assert q * d == q * 2 + q * (d - 2);
  }

  /** Distinct int64 values have distinct bit patterns. */
  lemma BitPatternInjective(x: Int64, y: Int64)
    ensures BitPattern(x) == BitPattern(y) <==> x == y
  {
  }
}
