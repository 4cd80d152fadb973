/** The parts of Java's integer arithmetic and of `java.time.Duration` that the
    media source relies on, written out over Dafny's unbounded integers. */
module JavaNum {
  import opened Wrappers

  const MinInt32: int := -0x8000_0000
  const MaxInt32: int := 0x7fff_ffff
  const MinInt64: int := -0x8000_0000_0000_0000
  const MaxInt64: int := 0x7fff_ffff_ffff_ffff

  /** The 2^32 values of a Java `int`. */
  const Int32Range: int := 0x1_0000_0000

  /** A Java `int`. */
  type Int32 = x: int | MinInt32 <= x <= MaxInt32

  /** A Java `long`. */
  type Int64 = x: int | MinInt64 <= x <= MaxInt64

  /** An opaque byte of a buffer; its numeric value never matters here. */
  type byte = bv8

  /** Narrowing of an unbounded integer to a Java `int` (two's complement). */
  function WrapInt32(x: int): (r: Int32)
    ensures (r - x) % Int32Range == 0
    ensures MinInt32 <= x <= MaxInt32 ==> r == x
  {
    (x - MinInt32) % Int32Range + MinInt32
  }

  /** Narrowing is insensitive to a prior narrowing of one summand. */
  lemma WrapInt32Shift(x: int, k: int)
    ensures WrapInt32(WrapInt32(x) + k) == WrapInt32(x + k)
  {
  }

  /** The value an `int` variable holds after `i++`: one more, wrapping from
      the largest `int` to the smallest. */
  function PostIncrement(i: Int32): (r: Int32)
    ensures i < MaxInt32 ==> r == i + 1
    ensures i == MaxInt32 ==> r == MinInt32
  {
    if i == MaxInt32 then MinInt32 else i + 1
  }

  /** The value an `int` counter starting at `i` holds after `n` post-increments. */
  function Advance(i: Int32, n: nat): Int32
    decreases n
  {
    if n == 0 then i else Advance(PostIncrement(i), n - 1)
  }

  /** `n` post-increments add `n` modulo 2^32: the counter is a two's-complement
      `int`. */
  lemma {:induction false} AdvanceWraps(i: Int32, n: nat)
    ensures Advance(i, n) == WrapInt32(i + n)
    decreases n
  {
    if n == 0 {
    } else {
      AdvanceWraps(PostIncrement(i), n - 1);
      assert PostIncrement(i) == WrapInt32(i + 1);
      WrapInt32Shift(i + 1, n - 1);
    }
  }

  /** A counter starting at zero counts exactly until it reaches the largest `int`. */
  lemma {:induction false} AdvanceFromZero(n: nat)
    requires n <= MaxInt32
    ensures Advance(0, n) == n
  {
    AdvanceWraps(0, n);
  }

  /** Java's `x / 100` on an integral operand: the quotient rounded toward
      zero, so the remainder takes the sign of the dividend. */
  function JavaDivBy100(a: int): (q: int)
    ensures a >= 0 ==> 0 <= a - q * 100 < 100
    ensures a < 0 ==> -100 < a - q * 100 <= 0
    ensures a >= 0 ==> 0 <= q <= a
    ensures a < 0 ==> a <= q <= 0
  {
    if a >= 0 then a / 100 else -((-a) / 100)
  }

  /** A `java.time.Duration`, represented by its exact length in nanoseconds. */
  datatype Duration = Duration(nanos: int)

  /** `Duration.ofSeconds(s)`. */
  function OfSeconds(s: int): Duration
  {
    Duration(s * 1_000_000_000)
  }

  /** `Duration.ofMillis(ms)`. */
  function OfMillis(ms: int): Duration
  {
    Duration(ms * 1_000_000)
  }

  /** The exception `Duration.toNanos()` throws when the length does not fit in a `long`. */
  datatype ArithmeticException = LongOverflow

  /** `Duration.toNanos()`: the exact length when it fits in a `long`, otherwise
      an `ArithmeticException`. */
  function ToNanos(d: Duration): (r: Result<Int64, ArithmeticException>)
    ensures r.Ok? <==> MinInt64 <= d.nanos <= MaxInt64
    ensures r.Ok? ==> r.value == d.nanos
  {
    if MinInt64 <= d.nanos <= MaxInt64 then Ok(d.nanos) else Err(LongOverflow)
  }

  /** `d.toNanos() / 100` for a duration that fits in a `long`: its length in
      the 100-nanosecond units of the producer SDK. */
  function HundredNanos(d: Duration): (u: Int64)
    requires MinInt64 <= d.nanos <= MaxInt64
    ensures d.nanos >= 0 ==> u * 100 <= d.nanos < u * 100 + 100
    ensures d.nanos % 100 == 0 ==> u * 100 == d.nanos
  {
    JavaDivBy100(d.nanos)
  }
}
