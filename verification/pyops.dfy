/** Python number semantics the engines rely on, restated over Dafny's
    unbounded integers and exact reals: floor division, the built-in `round`
    (half to even, as both Python floats and numpy arrays round), `abs`, and
    the decimal text `str(n)` produces for a natural number. */
module PyOps {

  /** Python's `a // b` on integers: the floor of the exact quotient, for a
      divisor of either sign (Dafny's own `/` is Euclidean). */
  function FloorDiv(a: int, b: int): int
    requires b != 0
  {
    if b > 0 then a / b else (-a) / (-b)
  }

  /** `a // b` is the largest integer whose product with a positive `b` does
      not exceed `a` (the smallest whose product with a negative `b` is not
      below `a`). Kept apart from `FloorDiv` so that the nonlinear facts
      enter a proof only where they are needed. */
  lemma FloorDivIsFloor(a: int, b: int)
    requires b != 0
    ensures b > 0 ==> FloorDiv(a, b) * b <= a < FloorDiv(a, b) * b + b
    ensures b < 0 ==> FloorDiv(a, b) * b + b < a <= FloorDiv(a, b) * b
  {
  }

  /** Python's `x // b` when `x` is a float and `b` an integer: the floor of
      the exact quotient. */
  function RealFloorDiv(x: real, b: int): (q: int)
    requires b != 0
    ensures q as real <= x / b as real < q as real + 1.0
  {
    (x / b as real).Floor
  }

  function Abs(x: real): (r: real)
    ensures r >= 0.0
    ensures r == x || r == -x
  {
    if x < 0.0 then -x else x
  }

  predicate IsEven(n: int) {
    n % 2 == 0
  }

  /** The property Python's `round(x)` promises: `n` is an integer nearest to
      `x`, and when `x` lies exactly halfway between two integers, the even
      one. */
  ghost predicate NearestHalfEven(x: real, n: int) {
    var d := n as real - x;
    (-0.5 < d < 0.5) || ((d == 0.5 || d == -0.5) && IsEven(n))
  }

  /** Python's `round(x)` with no digits argument. */
  function RoundHalfEven(x: real): (n: int)
    ensures NearestHalfEven(x, n)
  {
    var f := x.Floor;
    var frac := x - f as real;
    if frac < 0.5 then f
    else if frac > 0.5 then f + 1
    else if IsEven(f) then f
    else f + 1
  }

  /** At most one integer satisfies the rounding rule, so the rule alone
      determines `round(x)`. */
  lemma NearestHalfEvenUnique(x: real, n: int, m: int)
    requires NearestHalfEven(x, n) && NearestHalfEven(x, m)
    ensures n == m
  {
  }

  /** Rounding a value between two integers stays between them. */
  lemma RoundWithin(x: real, lo: int, hi: int)
    requires lo as real <= x <= hi as real
    ensures lo <= RoundHalfEven(x) <= hi
  {
  }

  /** A share between 0 and 1 of a non-negative amount lies between 0 and
      the amount. */
  lemma ShareWithin(p: real, n: real)
    requires 0.0 <= p <= 1.0 && 0.0 <= n
    ensures 0.0 <= p * n <= n
  {
    MulNonneg(p, n);
    MulNonneg(1.0 - p, n);
    assert (1.0 - p) * n == n - p * n;
  }

  /** Rounding a share between 0 and 1 of `n` gives between 0 and `n`. */
  lemma RoundShareWithin(p: real, n: nat)
    requires 0.0 <= p <= 1.0
    ensures 0 <= RoundHalfEven(p * n as real) <= n
  {
    ShareWithin(p, n as real);
    RoundWithin(p * n as real, 0, n);
  }

  lemma MulNonneg(a: real, b: real)
    requires 0.0 <= a && 0.0 <= b
    ensures 0.0 <= a * b
  {
  }

  /** The decimal digit character for `d`. */
  function Digit(d: nat): (c: char)
    requires d < 10
    ensures '0' <= c <= '9'
  {
    "0123456789"[d]
  }

  /** `str(n)` for a natural number: its decimal digits, most significant
      first, with no leading zero. */
  function NatToString(n: nat): (s: string)
    ensures |s| >= 1
    ensures forall i :: 0 <= i < |s| ==> '0' <= s[i] <= '9'
    ensures (|s| == 1) == (n < 10)
  {
    if n < 10 then [Digit(n)] else NatToString(n / 10) + [Digit(n % 10)]
  }

  /** `str(i)` for any integer: a minus sign before the digits of a
      negative number. */
  function IntToString(i: int): (s: string)
    ensures i >= 0 ==> s == NatToString(i)
    ensures i < 0 ==> s == "-" + NatToString(-i)
  {
    if i < 0 then "-" + NatToString(-i) else NatToString(i)
  }

  /** `10 ** k`. */
  function Pow10(k: nat): (p: nat)
    ensures p >= 1
  {
    if k == 0 then 1 else 10 * Pow10(k - 1)
  }

  /** `str(n)` has at most `k` characters exactly when `n` is below `10 ** k`. */
  lemma {:induction false} NatToStringLength(n: nat, k: nat)
    requires k >= 1
    ensures |NatToString(n)| <= k <==> n < Pow10(k)
  {
    if n >= 10 && k > 1 {
      NatToStringLength(n / 10, k - 1);
      assert n / 10 < Pow10(k - 1) <==> n < 10 * Pow10(k - 1);
    }
  }

  /** `str(n)` has four characters exactly for the numbers 1000 to 9999. */
  lemma NatToStringFour(n: nat)
    ensures |NatToString(n)| == 4 <==> 1000 <= n <= 9999
  {
    NatToStringLength(n, 4);
    NatToStringLength(n, 3);
    assert Pow10(3) == 1000 && Pow10(4) == 10000;
  }

  lemma DigitInjective(a: nat, b: nat)
    requires a < 10 && b < 10 && Digit(a) == Digit(b)
    ensures a == b
  {
  }

  /** Distinct numbers have distinct decimal texts, which is what keeps the
      generated agent names apart. */
  lemma {:induction false} NatToStringInjective(a: nat, b: nat)
    requires NatToString(a) == NatToString(b)
    ensures a == b
  {
    var sa, sb := NatToString(a), NatToString(b);
    if a < 10 || b < 10 {
      assert a < 10 && b < 10;
      DigitInjective(a, b);
    } else {
      assert sa[|sa| - 1] == Digit(a % 10);
      assert sb[|sb| - 1] == Digit(b % 10);
      DigitInjective(a % 10, b % 10);
      assert sa[..|sa| - 1] == NatToString(a / 10);
      assert sb[..|sb| - 1] == NatToString(b / 10);
      NatToStringInjective(a / 10, b / 10);
    }
  }
}
