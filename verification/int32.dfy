/**
 * Java's 32-bit `int`, and the silently wrapping addition that
 * `IntStream.sum()` performs.
 */
module Int32 {

  const MIN_INT: int := -0x8000_0000
  const MAX_INT: int := 0x7fff_ffff
  const MODULUS: int := 0x1_0000_0000

  /** The values a Java `int` can hold. */
  type Int = x: int | MIN_INT <= x <= MAX_INT

  /** Two's-complement truncation of a mathematical integer to 32 bits. */
  function Wrap(x: int): (r: Int)
    ensures (r - x) % MODULUS == 0
    ensures MIN_INT <= x <= MAX_INT ==> r == x
  {
    (x - MIN_INT) % MODULUS + MIN_INT
  }

  /** Java's `a + b` on two `int`s. */
  function Add(a: Int, b: Int): Int {
    Wrap(a + b)
  }

  /** The mathematical sum of a sequence of `int`s. */
  function Sum(xs: seq<Int>): int {
    if xs == [] then 0 else Sum(xs[..|xs| - 1]) + xs[|xs| - 1]
  }

  /**
   * `IntStream.sum()`: a left-to-right reduction with `Integer::sum`
   * starting from 0, wrapping on every addition.
   */
  function StreamSum(xs: seq<Int>): (r: Int)
    ensures (r - Sum(xs)) % MODULUS == 0
  {
    if xs == [] then 0 else Add(StreamSum(xs[..|xs| - 1]), xs[|xs| - 1])
  }

  /** Wrapping once at the end gives the same value as wrapping at every step. */
  lemma {:induction false} StreamSumIsWrappedSum(xs: seq<Int>)
    ensures StreamSum(xs) == Wrap(Sum(xs))
  {
    if xs != [] {
      var init, last := xs[..|xs| - 1], xs[|xs| - 1];
      StreamSumIsWrappedSum(init);
      WrapCongruent(StreamSum(init) + last, Sum(init) + last);
    }
  }

  /** Two integers that differ by a multiple of 2^32 wrap to the same `int`. */
  lemma WrapCongruent(x: int, y: int)
    requires (x - y) % MODULUS == 0
    ensures Wrap(x) == Wrap(y)
  {
  }

  /** When the mathematical sum fits in an `int`, `IntStream.sum()` is exact. */
  lemma StreamSumExact(xs: seq<Int>)
    requires MIN_INT <= Sum(xs) <= MAX_INT
    ensures StreamSum(xs) == Sum(xs)
  {
    StreamSumIsWrappedSum(xs);
  }
}
