/**
 * Java's fixed-width integers and its integer operators, written out over
 * Dafny's unbounded integers.
 */
module JavaTypes {

  /** An unsigned octet; Java's signed `byte` is the same eight bits. */
  newtype byte = x: int | 0 <= x < 0x100

  const TWO_32: int := 0x1_0000_0000
  const TWO_64: int := 0x1_0000_0000_0000_0000

  /** Java `int`. */
  newtype i32 = x: int | -0x8000_0000 <= x < 0x8000_0000

  /** Java `long`. */
  newtype i64 = x: int | -0x8000_0000_0000_0000 <= x < 0x8000_0000_0000_0000

  /** Raw IEEE-754 bit patterns of a `float` and a `double`. */
  newtype u32 = x: int | 0 <= x < 0x1_0000_0000
  newtype u64 = x: int | 0 <= x < 0x1_0000_0000_0000_0000

  /** Two's-complement reading of 32 bits. */
  function ToSigned32(u: u32): (r: i32)
    ensures (r as int) % TWO_32 == u as int
  {
    if u < 0x8000_0000 then u as int as i32 else (u as int - TWO_32) as i32
  }

  /** The 32 bits of a Java `int`. */
  function ToUnsigned32(v: i32): (r: u32)
    ensures ToSigned32(r) == v
  {
    if v < 0 then (v as int + TWO_32) as u32 else v as int as u32
  }

  function ToSigned64(u: u64): (r: i64)
    ensures (r as int) % TWO_64 == u as int
  {
    if u < 0x8000_0000_0000_0000 then u as int as i64 else (u as int - TWO_64) as i64
  }

  function ToUnsigned64(v: i64): (r: u64)
    ensures ToSigned64(r) == v
  {
    if v < 0 then (v as int + TWO_64) as u64 else v as int as u64
  }

  /** A Java `int` that overflowed: its value taken modulo 2^32. */
  function Wrap32(x: int): (r: i32)
    ensures (r as int - x) % TWO_32 == 0
  {
    ToSigned32((x % TWO_32) as u32)
  }

  /** Java's `/` on integers: the quotient truncated toward zero. */
  function JavaDiv(a: int, b: int): (q: int)
    requires b != 0
    ensures 0 <= a ==> 0 < b ==> q == a / b
    ensures Abs(q) <= Abs(a)
  {
    var n, d := Abs(a), Abs(b);
    DivAtMost(n, d);
    if (a < 0) == (b < 0) then n / d else -(n / d)
  }

  function Abs(x: int): nat {
    if x < 0 then -x else x
  }

  /** Dividing a natural number by a positive one never makes it larger. */
  lemma DivAtMost(n: nat, d: int)
    requires 0 < d
    ensures 0 <= n / d <= n
  {
    var q, r := n / d, n % d;
    assert n == q * d + r && 0 <= r < d;
    if q < 0 {
      MulNonPos(q, d);
    } else {
      MulNonNeg(q, d - 1);
      assert q * d == q + q * (d - 1);
    }
  }

  lemma MulNonNeg(x: int, y: int)
    requires 0 <= x && 0 <= y
    ensures 0 <= x * y
  {
  }

  lemma MulNonPos(x: int, y: int)
    requires x < 0 && 0 < y
    ensures x * y <= x
  {
    MulNonNeg(-x, y - 1);
    assert x * y == x - (-x) * (y - 1);
  }

  /** Java's `%` on integers: the remainder takes the sign of the dividend. */
  function JavaRem(a: int, b: int): (r: int)
    requires b != 0
    ensures a == JavaDiv(a, b) * b + r
  {
    a - JavaDiv(a, b) * b
  }

  /** Java's `long / long`, including its one overflow (MIN_VALUE / -1). */
  function LongDiv(a: i64, b: i64): (q: i64)
    requires b != 0
    ensures 0 <= a ==> 0 < b ==> q as int == a as int / b as int
    ensures a as int == -0x8000_0000_0000_0000 && b == -1 ==> q == a
  {
    var x := JavaDiv(a as int, b as int);
    if x == 0x8000_0000_0000_0000 then -0x8000_0000_0000_0000 as i64 else x as i64
  }

  /**
   * For the small literal divisors the source uses, a Java remainder is zero
   * exactly when the divisor divides the dividend, whatever its sign.
   */
  lemma JavaRemZero(a: int, b: int)
    requires b == 2 || b == 3
    ensures JavaRem(a, b) == 0 <==> a % b == 0
  {
    if b == 2 {
      assert JavaRem(a, 2) == 0 <==> a % 2 == 0;
    } else {
      assert JavaRem(a, 3) == 0 <==> a % 3 == 0;
    }
  }
}
