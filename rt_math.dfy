/** The math helpers of the modular runtime (runtime/rt_math.c): native helpers over `int64_t`
    and bigint helpers over rt_bigint.c's numbers.

    The native helpers take and return 64-bit values; their loops run over locals and are
    methods, each tied to a reference definition (Power, the floor square root, Gcd, IsPrime)
    whose properties are proved beside it.  The bigint helpers write an out-parameter through
    rt_bigint.c's operations. */
module RtMath {
  import opened CInt
  import opened Limbs
  import B = RtBigint
  import RtError
  import opened Wrappers

  // ---------------------------------------------------------------------------------------------
  // Native integer math

  /** rt_math_abs_si: the magnitude, saturated at INT64_MAX, so abs(INT64_MIN) is INT64_MAX. */
  function AbsSi(x: int): (r: int)
    requires InInt64(x)
    ensures InInt64(r) && r >= 0
    ensures r == if Abs(x) > Int64Max then Int64Max else Abs(x)
  {
    if x == Int64Min then Int64Max else if x < 0 then -x else x
  }

  /** rt_math_min_si: the smaller argument. */
  function MinSi(a: int, b: int): (r: int)
    ensures r <= a && r <= b && (r == a || r == b)
  {
    if a < b then a else b
  }

  /** rt_math_max_si: the larger argument. */
  function MaxSi(a: int, b: int): (r: int)
    ensures r >= a && r >= b && (r == a || r == b)
  {
    if a > b then a else b
  }

  /** A product passes a bound exactly when one factor passes the bound divided (rounding down)
      by the other: the overflow test rt_math.c makes before each multiplication. */
  lemma ProductExceeds(p: int, q: int, bound: nat)
    requires p >= 0 && q > 0
    ensures p > bound / q <==> p * q > bound
  {
    var d, m := bound / q, bound % q;
    assert bound == q * d + m && 0 <= m < q;
    if p > d {
      assert p * q >= (d + 1) * q by { MulLe(q, d + 1, p); }
      assert (d + 1) * q == q * d + q;
    } else {
      assert p * q <= d * q by { MulLe(q, p, d); }
      assert d * q == q * d;
    }
  }

  lemma {:induction false} PowerAtLeast(x: int, n: nat)
    requires x >= 1
    ensures Power(x, n) >= 1
    ensures n >= 1 ==> Power(x, n) >= x
    decreases n
  {
    if n >= 1 {
      PowerAtLeast(x, n - 1);
      MulGeSelf(x, Power(x, n - 1));
    }
  }

  /** For a negative base the squaring test fails only when the square is past INT64_MAX. */
  lemma NegativeSquareTest(b: int)
    requires Int64Min <= b < 0
    ensures !(b > CDiv(Int64Max, b)) ==> b * b > Int64Max
  {
    var m := -b;
    assert CDiv(Int64Max, b) == -(Int64Max / m);
    if m <= 3037000499 {
      assert m * (m + 1) <= 3037000499 * 3037000500 by { MulLe(m + 1, m, 3037000499); MulLe(3037000499, m + 1, 3037000500); }
      ProductExceeds(m + 1, m, Int64Max);
      assert m * (m + 1) == (m + 1) * m;
      assert Int64Max / m >= m + 1;
    } else {
      assert m * m >= 3037000500 * 3037000500 by { MulLe(m, 3037000500, m); MulLe(3037000500, 3037000500, m); }
      assert b * b == m * m;
    }
  }

  /** A negative base of -3037000499 or more squares within INT64_MAX, so the squaring test
      refuses it. */
  lemma NegativeSquareFits(b: int)
    requires -3037000499 <= b < 0
    ensures b * b <= Int64Max && b > CDiv(Int64Max, b)
  {
    var m := -b;
    assert m * m <= 3037000499 * 3037000499 by { MulLe(m, m, 3037000499); MulLe(3037000499, m, 3037000499); }
    assert b * b == m * m;
    NegativeSquareTest(b);
  }

  /** A base of -3037000500 or less passes the squaring test although its square is past
      INT64_MAX: the quotient it is compared against is negative and above it. */
  lemma NegativeSquarePasses(b: int)
    requires Int64Min <= b <= -3037000500
    ensures !(b > CDiv(Int64Max, b)) && b * b > Int64Max
  {
    var m := -b;
    assert CDiv(Int64Max, b) == -(Int64Max / m);
    assert 3037000500 * m >= 3037000500 * 3037000500 by { MulLe(3037000500, 3037000500, m); }
    ProductExceeds(3037000500, m, Int64Max);
    assert m * m >= 3037000500 * m by { MulLe(m, 3037000500, m); }
    assert b * b == m * m;
  }

  /** `b *= b` on an int64_t as the hardware performs it: the square reduced into int64_t. */
  function WrapSquare(b: int): (w: int)
    ensures InInt64(w)
    ensures b * b <= Int64Max ==> w == b * b
  {
    Wrap64(b * b)
  }

  /** The result of pow_si(base, 2) for a base whose square the squaring test lets through: the
      square reduced into int64_t, then multiplied into 1 under the multiplication test.  None is
      the division of INT64_MAX by a square that reduced to 0. */
  function WrappedSquareOutcome(base: int): Option<int>
  {
    var w := WrapSquare(base);
    if w == 0 then None else if w < 0 then Some(Int64Max) else Some(w)
  }

  /** rt_math_pow_si: 0 for a negative exponent, 1 for exponent 0, 0 and 1 for those bases;
      otherwise square and multiply, giving INT64_MAX as soon as a product would pass it.  For
      an exponent of one or more that makes base ** exp itself for a base of two or more when it
      fits and INT64_MAX when it does not.  For a negative base the tests compare against a
      negative quotient of INT64_MAX: the multiplication is always refused, and the squaring is
      refused exactly when the square fits.  So an odd exponent, or a base of -3037000499 or
      more, gives INT64_MAX, while for an even exponent and a base of -3037000500 or less the
      square passes INT64_MAX.  The model reduces that square into int64_t (Wrap64) as the
      hardware does, and gives None where a later test divides INT64_MAX by a zero square. */
  method PowSi(base: int, exp: int) returns (r: Option<int>)
    requires InInt64(base) && InInt64(exp)
    ensures r.Some? ==> InInt64(r.value)
    ensures r.None? ==> exp > 0 && exp % 2 == 0 && base < -3037000499
    ensures exp < 0 ==> r == Some(0)
    ensures exp == 0 ==> r == Some(1)
    ensures exp > 0 && (base == 0 || base == 1) ==> r == Some(base)
    ensures exp > 0 && base >= 2 ==> r == Some(if Power(base, exp) <= Int64Max then Power(base, exp) else Int64Max)
    ensures exp > 0 && base < 0 && (exp % 2 == 1 || -3037000499 <= base) ==> r == Some(Int64Max)
    ensures exp == 2 && base < -3037000499 ==> r == WrappedSquareOutcome(base)
  {
    if exp < 0 {
      return Some(0);
    }
    if exp == 0 {
      return Some(1);
    }
    if base == 0 {
      return Some(0);
    }
    if base == 1 {
      return Some(1);
    }
    var result := 1;
    var b := base;
    var e := exp;
    while e > 0
      invariant 0 <= e && PowInv(base, exp, b, e, result)
      decreases e
    {
      var done, out;
      done, out, b, e, result := PowSiRound(base, exp, b, e, result);
      if done {
        return out;
      }
    }
    return Some(result);
  }

  /** What pow_si promises for an exponent of one or more and a base other than 0 and 1. */
  ghost predicate PowSiPost(base: int, exp: nat, r: Option<int>)
  {
    (r.Some? ==> InInt64(r.value)) &&
    (r.None? ==> exp % 2 == 0 && base < -3037000499) &&
    (base >= 2 ==> r == Some(if Power(base, exp) <= Int64Max then Power(base, exp) else Int64Max)) &&
    (base < 0 && (exp % 2 == 1 || -3037000499 <= base) ==> r == Some(Int64Max)) &&
    (exp == 2 && base < -3037000499 ==> r == WrappedSquareOutcome(base))
  }

  /** The state of pow_si's loop with e still to go: for a base of two or more, result times
      b ** e is the power; a negative base is either untouched or on the squared path of an even
      exponent and a base of -3037000500 or less; and for the exponent 2 the trace of that path. */
  ghost predicate PowInv(base: int, exp: nat, b: int, e: nat, result: int)
  {
    1 <= result <= Int64Max && InInt64(b) &&
    (base >= 2 ==> 2 <= b && result * Power(b, e) == Power(base, exp)) &&
    (base < 0 ==> (b == base && e == exp && result == 1) || (exp % 2 == 0 && base < -3037000499 && e < exp)) &&
    (exp == 2 && base < -3037000499 ==>
       (e == 2 && b == base && result == 1) || (e == 1 && b == WrapSquare(base) && result == 1) ||
       (e == 0 && result == WrapSquare(base)))
  }

  /** One round of pow_si's loop: either the function returns `out`, or the loop goes on with a
      smaller exponent. */
  method PowSiRound(ghost base: int, ghost exp: nat, b: int, e: nat, result: int)
    returns (done: bool, out: Option<int>, b': int, e': nat, result': int)
    requires InInt64(base) && exp > 0 && base != 0 && base != 1
    requires 0 < e && PowInv(base, exp, b, e, result)
    ensures done ==> PowSiPost(base, exp, out)
    ensures !done ==> e' < e && PowInv(base, exp, b', e', result')
  {
    done, out, e', result' := PowSiOdd(base, exp, b, e, result);
    b' := b;
    if !done && e' > 0 {
      done, out, b' := PowSiSquare(base, exp, b, e', result');
    }
  }

  /** The state of pow_si's loop between the halving `e >>= 1` and the squaring, with h left:
      like PowInv, with b still to be squared h more times. */
  ghost predicate PowMid(base: int, exp: nat, b: int, h: nat, result: int)
  {
    1 <= result <= Int64Max && InInt64(b) &&
    (base >= 2 ==> 2 <= b && result * Power(b, 2 * h) == Power(base, exp)) &&
    (base < 0 ==> (b == base && 2 * h == exp && result == 1) || (exp % 2 == 0 && base < -3037000499 && h < exp)) &&
    (exp == 2 && base < -3037000499 ==> (h == 1 && b == base && result == 1) || (h == 0 && result == WrapSquare(base)))
  }

  /** The first half of a round: `if (e & 1)` multiply into result unless the test refuses, then
      `e >>= 1`. */
  method PowSiOdd(ghost base: int, ghost exp: nat, b: int, e: nat, result: int)
    returns (done: bool, out: Option<int>, h: nat, result': int)
    requires InInt64(base) && exp > 0 && base != 0 && base != 1
    requires 0 < e && PowInv(base, exp, b, e, result)
    ensures done ==> PowSiPost(base, exp, out)
    ensures !done ==> h == e / 2 && PowMid(base, exp, b, h, result')
    ensures !done && h == 0 ==> PowInv(base, exp, b, 0, result')
  {
    done, out, result' := false, None, result;
    if e % 2 == 1 {
      if b == 0 {
        return true, None, 0, result;
      }
      if b < 0 {
        NegativeMultiplyTest(b);
      }
      if result > CDiv(Int64Max, b) {
        if base >= 2 {
          PowOverflowOdd(base, exp, b, e, result);
        }
        return true, Some(Int64Max), 0, result;
      }
      MultiplyFits(result, b);
      result' := result * b;
    }
    h := e / 2;
    if base >= 2 {
      PowHalfStep(base, exp, b, e, result, result', h);
    }
  }

  /** The second half of a round, with h > 0 left: `b *= b` unless the squaring test refuses. */
  method PowSiSquare(ghost base: int, ghost exp: nat, b: int, h: nat, result: int)
    returns (done: bool, out: Option<int>, b': int)
    requires InInt64(base) && exp > 0 && base != 0 && base != 1
    requires 0 < h && PowMid(base, exp, b, h, result)
    ensures done ==> PowSiPost(base, exp, out)
    ensures !done ==> PowInv(base, exp, b', h, result)
  {
    if b == 0 {
      return true, None, b;
    }
    if base < 0 && b == base {
      if -3037000499 <= base {
        NegativeSquareFits(b);
      } else {
        NegativeSquarePasses(b);
      }
    }
    if b > CDiv(Int64Max, b) {
      if base >= 2 {
        PowOverflowSquare(base, exp, b, h, result);
      }
      return true, Some(Int64Max), b;
    }
    if base >= 2 {
      PowSquareStep(base, exp, b, h, result);
    }
    return false, None, WrapSquare(b);
  }

  /** As written, pow_si(-6442450944, 2) squares past INT64_MAX: the square 9 * 2^62 reduces to
      2^62, which is returned, and pow_si(-4294967296, 2) squares 2^64 to 0 and then divides
      INT64_MAX by it. */
  lemma PowSiSquareOverflowShown()
    ensures !(-6442450944 > CDiv(Int64Max, -6442450944)) && Power(-6442450944, 2) > Int64Max
    ensures WrappedSquareOutcome(-6442450944) == Some(0x4000_0000_0000_0000)
    ensures !(-4294967296 > CDiv(Int64Max, -4294967296)) && WrappedSquareOutcome(-4294967296) == None
  {
    NegativeSquarePasses(-6442450944);
    NegativeSquarePasses(-4294967296);
    assert Power(-6442450944, 2) == -6442450944 * Power(-6442450944, 1);
    assert Power(-6442450944, 1) == -6442450944 * Power(-6442450944, 0);
    assert Wrap64(41505174165846491136) == 0x4000_0000_0000_0000;
    assert Wrap64(0x1_0000_0000_0000_0000) == 0;
  }

  /** The squaring test as intended: b * b computed or not, the test refuses exactly the squares
      past INT64_MAX, comparing against the quotient from the side the sign of b calls for. */
  function SquareOverflows(b: int): (r: bool)
    requires InInt64(b) && b != 0
    ensures r <==> b * b > Int64Max
  {
    var m := Abs(b);
    ProductExceeds(m, m, Int64Max);
    assert b * b == m * m;
    if b > 0 then b > CDiv(Int64Max, b) else b < CDiv(Int64Max, b)
  }

  /** The multiplication test passes: the product fits. */
  lemma MultiplyFits(result: int, b: int)
    requires 1 <= result && 1 <= b <= Int64Max && !(result > CDiv(Int64Max, b))
    ensures 1 <= result * b <= Int64Max
  {
    ProductExceeds(result, b, Int64Max);
    MulGeSelf(b, result);
    assert b * result == result * b;
  }

  /** With a negative base, or one already squared past INT64_MAX, the multiplication test always
      fails: the quotient of INT64_MAX it compares against is not positive. */
  lemma NegativeMultiplyTest(b: int)
    requires Int64Min <= b < 0 || b > Int64Max
    ensures 1 > CDiv(Int64Max, b)
  {
    if b > Int64Max {
      assert CDiv(Int64Max, b) == Int64Max / b;
    } else {
      assert CDiv(Int64Max, b) == -(Int64Max / Abs(b));
    }
  }

  /** After the odd step and the halving: what is left to multiply in is b to twice the new
      exponent. */
  lemma PowHalfStep(base: int, exp: nat, b: int, e0: nat, r0: int, result: int, e: nat)
    requires 2 <= b && e0 > 0 && r0 * Power(b, e0) == Power(base, exp) && e == e0 / 2
    requires result == if e0 % 2 == 1 then r0 * b else r0
    ensures result * Power(b, 2 * e) == Power(base, exp)
  {
    var rest := Power(b, 2 * e);
    if e0 % 2 == 1 {
      assert Power(b, e0) == b * rest by {
        assert e0 == 1 + 2 * e;
        PowerAdd(b, 1, 2 * e);
        assert Power(b, 1) == b;
      }
      MulAssoc(r0, b, rest);
    } else {
      assert e0 == 2 * e;
    }
  }

  lemma MulAssoc(x: int, y: int, z: int)
    ensures x * (y * z) == (x * y) * z
  {
  }

  /** The squaring test passes: b * b still fits, and b * b to the exponent left is what b to
      twice that exponent was. */
  lemma PowSquareStep(base: int, exp: nat, b: int, e: nat, result: int)
    requires 2 <= b <= Int64Max && result * Power(b, 2 * e) == Power(base, exp)
    requires !(b > CDiv(Int64Max, b))
    ensures 2 <= b * b <= Int64Max && result * Power(b * b, e) == Power(base, exp)
  {
    ProductExceeds(b, b, Int64Max);
    PowerSquare(b, e);
    MulGeSelf(b, b);
  }

  /** The multiplication test fails: result * b already passes INT64_MAX, and so does the power. */
  lemma PowOverflowOdd(base: int, exp: nat, b: int, e: nat, result: int)
    requires 2 <= b <= Int64Max && 1 <= result && e % 2 == 1
    requires result * Power(b, e) == Power(base, exp) && result > CDiv(Int64Max, b)
    ensures Power(base, exp) > Int64Max
  {
    ProductExceeds(result, b, Int64Max);
    PowerAtLeast(b, e);
    MulLe(result, b, Power(b, e));
  }

  /** The squaring test fails with exponent left: b * b passes INT64_MAX, and so does the power. */
  lemma PowOverflowSquare(base: int, exp: nat, b: int, e: nat, result: int)
    requires 2 <= b <= Int64Max && 1 <= result && e >= 1
    requires result * Power(b, 2 * e) == Power(base, exp) && b > CDiv(Int64Max, b)
    ensures Power(base, exp) > Int64Max
  {
    var bb := b * b;
    assert bb > Int64Max by { ProductExceeds(b, b, Int64Max); }
    var p := Power(bb, e);
    assert p >= bb by { MulGeSelf(b, b); PowerAtLeast(bb, e); }
    assert Power(b, 2 * e) == p by { PowerSquare(b, e); }
    assert result * p >= p by { MulGeSelf(result, p); }
  }

  /** rt_math_sqrt_si: -1 for a negative argument, otherwise the floor of the square root, found
      by binary search with the test x / mid against mid. */
  method SqrtSi(x: int) returns (r: int)
    requires InInt64(x)
    ensures x < 0 ==> r == -1
    ensures x >= 0 ==> 0 <= r && r * r <= x < (r + 1) * (r + 1)
  {
    if x < 0 {
      return -1;
    }
    if x <= 1 {
      return x;
    }
    var low, high := 1, x;
    var result := 0;
    MulGeSelf(x + 1, x + 1);
    while low <= high
      invariant 1 <= low <= high + 1 && high <= x && result == low - 1
      invariant result * result <= x < (high + 1) * (high + 1)
      decreases high - low
    {
      var mid := low + (high - low) / 2;
      var div := x / mid;
      if div == mid {
        SqrtExact(x, mid);
        return mid;
      } else if div > mid {
        SqrtBelow(x, mid);
        low := mid + 1;
        result := mid;
      } else {
        SqrtAbove(x, mid);
        high := mid - 1;
      }
    }
    return result;
  }

  lemma SqrtExact(x: nat, m: int)
    requires m >= 1 && x / m == m
    ensures m * m <= x < (m + 1) * (m + 1)
  {
    NatDivMod(x, m);
    assert (m + 1) * (m + 1) == m * m + 2 * m + 1;
  }

  lemma SqrtBelow(x: nat, m: int)
    requires m >= 1 && x / m > m
    ensures m * m <= x
  {
    NatDivMod(x, m);
    MulLe(m, m, x / m);
  }

  lemma SqrtAbove(x: nat, m: int)
    requires m >= 1 && x / m < m
    ensures x < m * m
  {
    NatDivMod(x, m);
    MulLe(m, x / m, m - 1);
    assert m * (m - 1) == m * m - m;
  }

  // Greatest common divisor and least common multiple

  /** d divides n (0 divides only 0). */
  predicate Divides(d: nat, n: nat)
  {
    if d == 0 then n == 0 else n % d == 0
  }

  /** Euclid's remainder sequence: the reference definition rt_math_gcd_si is proved against. */
  function Gcd(a: nat, b: nat): nat
    decreases b
  {
    if b == 0 then a else Gcd(b, a % b)
  }

  /** Gcd is the greatest common divisor in the divisibility order: it divides both arguments,
      every common divisor divides it, and it is 0 only for gcd(0, 0). */
  lemma {:induction false} GcdIsGreatest(a: nat, b: nat)
    ensures Divides(Gcd(a, b), a) && Divides(Gcd(a, b), b)
    ensures forall d: nat :: Divides(d, a) && Divides(d, b) ==> Divides(d, Gcd(a, b))
    ensures Gcd(a, b) == 0 <==> a == 0 && b == 0
    decreases b
  {
    if b > 0 {
      var m := a % b;
      GcdIsGreatest(b, m);
      var g := Gcd(b, m);
      NatDivMod(a, b);
      assert Divides(g, a) by { DividesCombination(g, b, a / b, m); }
      forall d: nat | Divides(d, a) && Divides(d, b) ensures Divides(d, g) {
        DividesRemainder(d, a, b);
      }
    }
  }

  /** A divisor of b and of m divides b * q + m. */
  lemma DividesCombination(g: nat, b: nat, q: nat, m: nat)
    requires Divides(g, b) && Divides(g, m)
    ensures Divides(g, b * q + m)
  {
    if g > 0 {
      var s, t := b / g, m / g;
      NatDivMod(b, g);
      NatDivMod(m, g);
      assert b * q + m == g * (s * q + t) by {
        assert b == g * s && m == g * t;
        assert (g * s) * q == g * (s * q);
      }
      MulNonneg(s, q);
      DivOf(b * q + m, g, s * q + t, 0);
    } else {
      assert b == 0 && m == 0;
    }
  }

  /** A common divisor of a and b divides a % b. */
  lemma DividesRemainder(d: nat, a: nat, b: nat)
    requires b > 0 && Divides(d, a) && Divides(d, b)
    ensures Divides(d, a % b)
  {
    assert d > 0;
    var s, t, q := a / d, b / d, a / b;
    NatDivMod(a, d);
    NatDivMod(b, d);
    NatDivMod(a, b);
    assert a % b == d * (s - t * q) by {
      assert a == d * s && b == d * t;
      assert b * q == d * (t * q);
    }
    DivOf(a % b, d, s - t * q, 0);
  }

  /** rt_math_gcd_si: Euclid's algorithm with `%` on the two magnitudes from rt_math_abs_si. */
  method GcdSi(a: int, b: int) returns (g: int)
    requires InInt64(a) && InInt64(b)
    ensures g >= 0 && g == Gcd(AbsSi(a), AbsSi(b))
  {
    var x := AbsSi(a);
    var y := AbsSi(b);
    while y != 0
      invariant x >= 0 && y >= 0 && Gcd(x, y) == Gcd(AbsSi(a), AbsSi(b))
      decreases y
    {
      var temp := y;
      y := x % y;
      x := temp;
    }
    return x;
  }

  /** rt_math_gcd_si(INT64_MIN, 2) is 1, although 2 divides both arguments: the magnitude
      2^63 is first saturated to INT64_MAX, which is odd. */
  lemma GcdOfMinShown()
    ensures Gcd(AbsSi(Int64Min), AbsSi(2)) == 1
    ensures Divides(2, Abs(Int64Min)) && Divides(2, Abs(2))
  {
    assert Int64Max % 2 == 1;
    assert Gcd(1, 0) == 1;
  }

  /** The gcd of the true magnitudes, as rt_math_gcd_si is meant to compute: a common divisor of
      both arguments that every common divisor divides.  It fits int64_t unless both arguments are
      0 or INT64_MIN and one of them is INT64_MIN. */
  function GcdExact(a: int, b: int): (g: nat)
    requires InInt64(a) && InInt64(b)
    ensures Divides(g, Abs(a)) && Divides(g, Abs(b))
    ensures forall d: nat :: Divides(d, Abs(a)) && Divides(d, Abs(b)) ==> Divides(d, g)
    ensures g <= Int64Max || ((a == 0 || a == Int64Min) && (b == 0 || b == Int64Min))
  {
    GcdIsGreatest(Abs(a), Abs(b));
    GcdFits(a, b);
    Gcd(Abs(a), Abs(b))
  }

  lemma GcdFits(a: int, b: int)
    requires InInt64(a) && InInt64(b)
    ensures Gcd(Abs(a), Abs(b)) <= Int64Max || ((a == 0 || a == Int64Min) && (b == 0 || b == Int64Min))
  {
    GcdBelow(Abs(a), Abs(b));
  }

  /** A gcd with a nonzero argument is at most that argument. */
  lemma GcdBelow(a: nat, b: nat)
    ensures b > 0 ==> Gcd(a, b) <= b
    ensures a > 0 ==> Gcd(a, b) <= a
    ensures a > 0 || b > 0 ==> Gcd(a, b) > 0
  {
    GcdIsGreatest(a, b);
    var g := Gcd(a, b);
    if b > 0 {
      DividesBelow(g, b);
    }
    if a > 0 {
      DividesBelow(g, a);
    }
  }

  lemma DividesBelow(d: nat, n: nat)
    requires n > 0 && Divides(d, n)
    ensures d <= n
  {
    NatDivMod(n, d);
    MulGe(d, n / d);
  }

  /** rt_math_lcm_si: 0 when either argument is 0; otherwise |a| / gcd * |b| over the saturated
      magnitudes, or INT64_MAX when that product would pass it. */
  method LcmSi(a: int, b: int) returns (r: int)
    requires InInt64(a) && InInt64(b)
    ensures a == 0 || b == 0 ==> r == 0
    ensures a != 0 && b != 0 ==> var l := Lcm(AbsSi(a), AbsSi(b));
                                 r == if l <= Int64Max then l else Int64Max
  {
    if a == 0 || b == 0 {
      return 0;
    }
    var g := GcdSi(a, b);
    var absA := AbsSi(a);
    var absB := AbsSi(b);
    GcdBelow(absA, absB);
    var temp := absA / g;
    ProductExceeds(temp, absB, Int64Max);
    if temp > Int64Max / absB {
      return Int64Max;
    }
    return temp * absB;
  }

  /** The least common multiple of two positive numbers, as rt_math.c forms it: x / gcd * y. */
  function Lcm(x: nat, y: nat): (l: nat)
    requires x > 0 && y > 0
  {
    GcdBelow(x, y);
    MulNonneg(x / Gcd(x, y), y);
    x / Gcd(x, y) * y
  }

  /** Lcm is a common multiple of both arguments, and times their gcd it is their product. */
  lemma LcmIsCommonMultiple(x: nat, y: nat)
    requires x > 0 && y > 0
    ensures Divides(x, Lcm(x, y)) && Divides(y, Lcm(x, y))
    ensures Lcm(x, y) * Gcd(x, y) == x * y
  {
    GcdIsGreatest(x, y);
    GcdBelow(x, y);
    var g := Gcd(x, y);
    var s, t := x / g, y / g;
    NatDivMod(x, g);
    NatDivMod(y, g);
    assert x == g * s && y == g * t;
    var l := s * y;
    assert l == Lcm(x, y);
    assert l == x * t by { assert s * (g * t) == (g * s) * t; }
    MulNonneg(x, t);
    DivOf(l, y, s, 0);
    DivOf(l, x, t, 0);
    assert l * g == x * y by { assert (s * y) * g == (g * s) * y; }
  }

  // Primes

  /** n is prime: at least 2, with no divisor strictly between 1 and n. */
  ghost predicate IsPrime(n: int)
  {
    n >= 2 && forall d :: 2 <= d < n ==> n % d != 0
  }

  /** rt_math_is_prime_si: 1 exactly for the primes, 0 otherwise, by trial division with 2 and
      then the odd numbers up to rt_math_sqrt_si(n). */
  method IsPrimeSi(n: int) returns (r: int)
    requires InInt64(n)
    ensures r == 0 || r == 1
    ensures r == 1 <==> IsPrime(n)
  {
    if n < 2 {
      return 0;
    }
    if n == 2 {
      return 1;
    }
    if n % 2 == 0 {
      return 0;
    }
    var root := SqrtSi(n);
    var i := 3;
    while i <= root
      invariant 3 <= i && i % 2 == 1
      invariant forall d :: 2 <= d < i ==> n % d != 0
    {
      if n % i == 0 {
        RootBelow(n, root);
        return 0;
      }
      OddHasNoEvenDivisor(n, i + 1);
      i := i + 2;
    }
    forall d | i <= d < n
      ensures n % d != 0
    {
      if n % d == 0 {
        var c := Cofactor(n, root, d);
      }
    }
    return 1;
  }

  lemma RootBelow(n: int, root: int)
    requires n >= 2 && 1 <= root && root * root <= n
    ensures root < n
  {
    if root >= 2 {
      MulGeSelf(root, root);
      assert root * root >= 2 * root by { MulLe(root, 2, root); }
    }
  }

  lemma OddHasNoEvenDivisor(n: int, d: int)
    requires n % 2 == 1 && d >= 2 && d % 2 == 0
    ensures n % d != 0
  {
    if n % d == 0 {
      var q := n / d;
      NatDivMod(if n >= 0 then n else 0, d);
      assert n == d * (n / d) by { DivModOf(n, d); }
      var h := d / 2;
      assert n == 2 * (h * q);
      DivOf(n, 2, h * q, 0);
    }
  }

  /** Euclidean division, stated for any dividend. */
  lemma DivModOf(n: int, d: int)
    requires d > 0
    ensures n == d * (n / d) + n % d && 0 <= n % d < d
  {
  }

  /** A divisor d of n above its square root has a cofactor n / d of at least 2 and at most the
      root. */
  lemma Cofactor(n: int, root: int, d: int) returns (c: int)
    requires n >= 2 && root >= 0 && n < (root + 1) * (root + 1)
    requires root < d < n && n % d == 0
    ensures 2 <= c <= root && n % c == 0
  {
    c := n / d;
    assert n == d * c by {
      DivModOf(n, d);
    }
    assert c <= root by {
      if c > root {
        MulLe(d, root + 1, c);
        MulLe(root + 1, root + 1, d);
      }
    }
    assert n % c == 0 && c >= 2 by {
      DivOf(n, c, d, 0);
    }
  }

  /** A signed 64-bit addition as the hardware performs it: the exact sum reduced into int64_t
      (two's complement).  rt_math_next_prime_si relies on it to notice the end of the range. */
  function Wrap64(v: int): (w: int)
    ensures InInt64(w) && (w - v) % 0x1_0000_0000_0000_0000 == 0
    ensures InInt64(v) ==> w == v
    ensures Int64Max < v <= Int64Max + 0x1_0000_0000_0000_0000 ==> w == v - 0x1_0000_0000_0000_0000
  {
    var m := 0x1_0000_0000_0000_0000;
    var k := v - Int64Min;
    if 0 <= k < m then
      DivOf(k, m, 0, k);
      v
    else if m <= k < 2 * m then
      DivOf(k, m, 1, k - m);
      k % m + Int64Min
    else
      k % m + Int64Min
  }

  /** rt_math_next_prime_si: 2 for n <= 2; otherwise the least prime above n, searched over the
      odd numbers, or 0 once the search wraps past INT64_MAX with no prime found. */
  method NextPrimeSi(n: int) returns (r: int)
    requires InInt64(n)
    ensures n <= 2 ==> r == 2
    ensures n > 2 && r != 0 ==> n < r <= Int64Max && r % 2 == 1 && IsPrime(r)
    ensures n > 2 && r != 0 ==> forall p :: n < p < r ==> !IsPrime(p)
    ensures n > 2 && r == 0 ==> forall p :: n < p <= Int64Max ==> !IsPrime(p)
  {
    if n <= 2 {
      return 2;
    }
    var c := n;
    if c % 2 == 0 {
      c := c + 1;
    } else {
      c := AddTwo(c);
      if c > 0 {
        EvenNotPrime(n + 1);
      }
    }
    while c > 0
      invariant InInt64(c)
      invariant c > 0 ==> n < c && c % 2 == 1 && NoPrimeBetween(n, c)
      invariant c <= 0 ==> n == Int64Max
      decreases Int64Max - c
    {
      var found;
      found, c := NextPrimeRound(n, c);
      if found {
        return c;
      }
      if c < 0 {
        return 0;
      }
    }
    return 0;
  }

  /** No prime lies strictly between lo and hi. */
  ghost predicate NoPrimeBetween(lo: int, hi: int)
  {
    forall p :: lo < p < hi ==> !IsPrime(p)
  }

  /** One candidate of rt_math_next_prime_si's search: `c` itself when it is prime, otherwise the
      next odd candidate, negative once `c += 2` wraps. */
  method NextPrimeRound(n: int, c: int) returns (found: bool, c': int)
    requires InInt64(n) && 2 < n < c && InInt64(c) && c % 2 == 1
    requires NoPrimeBetween(n, c)
    ensures found ==> c' == c && IsPrime(c)
    ensures !found ==> InInt64(c') && (c + 2 <= Int64Max ==> c' == c + 2) && (c + 2 > Int64Max ==> c' < 0)
    ensures !found ==> NoPrimeBetween(n, if c + 2 <= Int64Max then c + 2 else Int64Max + 1)
  {
    var isPrime := IsPrimeSi(c);
    if isPrime == 1 {
      return true, c;
    }
    NextOddCandidate(n, c);
    c' := AddTwo(c);
    found := false;
  }

  /** `c += 2` on a positive int64_t: the sum while it fits, a negative value once it wraps. */
  function AddTwo(c: int): (w: int)
    requires InInt64(c) && c > 0
    ensures InInt64(w) && (c + 2 <= Int64Max ==> w == c + 2) && (c + 2 > Int64Max ==> w < 0)
  {
    Wrap64(c + 2)
  }

  lemma EvenNotPrime(p: int)
    requires p > 2 && p % 2 == 0
    ensures !IsPrime(p)
  {
    assert 2 <= 2 < p && p % 2 == 0;
  }

  /** Stepping from a composite odd candidate c to c + 2 skips only c and the even c + 1. */
  lemma NextOddCandidate(n: int, c: int)
    requires 2 < n < c && c % 2 == 1 && !IsPrime(c)
    requires forall p :: n < p < c ==> !IsPrime(p)
    ensures forall p :: n < p < c + 2 && p <= Int64Max ==> !IsPrime(p)
  {
    forall p | n < p < c + 2
      ensures !IsPrime(p)
    {
      if p == c + 1 {
        EvenNotPrime(p);
      }
    }
  }

  // ---------------------------------------------------------------------------------------------
  // Bigint math

  /** rt_math_num_digits: the number of decimal digits of |x|, with 1 for zero and for NULL:
      nine per limb below the top one, plus the digits of the top limb counted by repeated
      division by 10. */
  method NumDigits(x: Option<Num>) returns (count: nat)
    requires x.Some? ==> NumValid(x.value)
    ensures x.None? || NumValue(x.value) == 0 ==> count == 1
    ensures x.Some? && NumValue(x.value) != 0 ==>
              count >= 1 && Power(10, count - 1) <= Abs(NumValue(x.value)) < Power(10, count)
  {
    if x.None? || B.IsZero(x.value) {
      return 1;
    }
    var limbs := x.value.limbs;
    count := (|limbs| - 1) * 9;
    var last := limbs[|limbs| - 1];
    ghost var top, c := last, 0;
    while last > 0
      invariant count == (|limbs| - 1) * 9 + c
      invariant Power(10, c) >= 1 && last == top / Power(10, c)
      invariant c >= 1 ==> Power(10, c - 1) <= top
      decreases last
    {
      DigitStep(top, c);
      PowerAtLeast(10, c + 1);
      count := count + 1;
      last := last / 10;
      c := c + 1;
    }
    DigitsOfValue(x.value, c);
  }

  /** One more division by 10 is a division by the next power of 10. */
  lemma DigitStep(top: int, c: nat)
    requires top >= 0 && Power(10, c) >= 1 && top / Power(10, c) > 0
    ensures Power(10, c + 1) == Power(10, c) * 10 && top / Power(10, c) / 10 == top / Power(10, c + 1)
    ensures Power(10, c) <= top
  {
    PowerAtLeast(10, c);
    DivDiv(top, Power(10, c), 10);
    NatDivMod(top, Power(10, c));
    MulGeSelf(Power(10, c), top / Power(10, c));
  }

  /** A limb is nine decimal digits. */
  lemma {:induction false} PowIsPowerOfTen(k: nat)
    ensures Pow(k) == Power(10, 9 * k)
    decreases k
  {
    if k > 0 {
      PowIsPowerOfTen(k - 1);
      PowerAdd(10, 9, 9 * (k - 1));
      assert Power(10, 9) == Base;
    }
  }

  /** c digits in the top limb and nine in each limb below give the digit count of the value. */
  lemma DigitsOfValue(x: Num, c: nat)
    requires NumValid(x) && |x.limbs| > 0 && c >= 1
    requires Power(10, c - 1) <= x.limbs[|x.limbs| - 1] < Power(10, c)
    ensures Power(10, 9 * (|x.limbs| - 1) + c - 1) <= Abs(NumValue(x)) < Power(10, 9 * (|x.limbs| - 1) + c)
  {
    var s := x.limbs;
    var n := |s| - 1;
    var top := s[n];
    var low := Val(s[..n]);
    var p := Pow(n);
    var below, above := Power(10, c - 1), Power(10, c);
    assert Abs(NumValue(x)) == low + p * top by {
      ValueSign(x);
    }
    assert 0 <= low < p by {
      PrefixLimbs(s, n);
      ValBounds(s[..n]);
    }
    assert Power(10, 9 * n + c - 1) == p * below && Power(10, 9 * n + c) == p * above by {
      PowIsPowerOfTen(n);
      PowerAdd(10, 9 * n, c - 1);
      PowerAdd(10, 9 * n, c);
    }
    assert p * below <= p * top by {
      MulLe(p, below, top);
    }
    assert low + p * top < p * above by {
      MulLe(p, top + 1, above);
      Distrib(p, top, 1);
    }
  }

  /** rt_math_abs: x copied into out, then a negative sign made positive. */
  method AbsBig(out: B.BigInt, x: Num) returns (code: int)
    requires NumValid(x) && out.len <= out.digits.Length
    modifies out, out.digits
    ensures code == RtError.Success && out.Valid()
    ensures out.Value() == Abs(NumValue(x))
  {
    out.Copy(x);
    if out.sign < 0 {
      out.sign := 1;
    }
    ValueSign(x);
    return RtError.Success;
  }

  /** rt_math_min: a copy of the smaller operand, of a on a tie. */
  method MinBig(out: B.BigInt, a: Num, b: Num) returns (code: int)
    requires NumValid(a) && NumValid(b) && out.len <= out.digits.Length
    modifies out, out.digits
    ensures code == RtError.Success && out.Valid()
    ensures out.Snap() == if NumValue(a) <= NumValue(b) then a else b
    ensures out.Value() <= NumValue(a) && out.Value() <= NumValue(b)
  {
    var cmp := B.Cmp(a, b);
    var src := if cmp <= 0 then a else b;
    out.Copy(src);
    return RtError.Success;
  }

  /** rt_math_max: a copy of the larger operand, of a on a tie. */
  method MaxBig(out: B.BigInt, a: Num, b: Num) returns (code: int)
    requires NumValid(a) && NumValid(b) && out.len <= out.digits.Length
    modifies out, out.digits
    ensures code == RtError.Success && out.Valid()
    ensures out.Snap() == if NumValue(a) >= NumValue(b) then a else b
    ensures out.Value() >= NumValue(a) && out.Value() >= NumValue(b)
  {
    var cmp := B.Cmp(a, b);
    var src := if cmp >= 0 then a else b;
    out.Copy(src);
    return RtError.Success;
  }

  const NegativeExponent: string := "Negative exponent not supported"

  lemma NegativeExponentStored()
    ensures RtError.StoredMessage(NegativeExponent) == NegativeExponent
  {
    RtError.CStringNoNul(NegativeExponent);
  }

  /** rt_math_pow: RT_ERROR_INVALID with its message for a negative exponent; otherwise
      base ** exp, by squaring and multiplying through a scratch number. */
  method PowBig(out: B.BigInt, base: Num, exp: int, err: RtError.ErrorState) returns (code: int)
    requires NumValid(base) && InInt64(exp) && out.len <= out.digits.Length
    modifies out, out.digits, err
    ensures code == RtError.Invalid <==> exp < 0
    ensures code == RtError.Success <==> exp >= 0
    ensures exp < 0 ==> err.code == RtError.Invalid && err.message == NegativeExponent
                        && err.file == Some("rt_math.c") && err.line == 179 && unchanged(out)
    ensures exp >= 0 ==> out.Valid() && out.Value() == Power(NumValue(base), exp) && unchanged(err)
  {
    if exp < 0 {
      err.Set(RtError.Invalid, Some(NegativeExponent), Some("rt_math.c"), 179);
      NegativeExponentStored();
      return RtError.Invalid;
    }
    if exp == 0 {
      out.SetSi(1);
      return RtError.Success;
    }
    if B.IsZero(base) {
      out.SetSi(0);
      PowerOfZero(exp);
      return RtError.Success;
    }
    var result := PowBySquaring(base, exp);
    out.Copy(result.Snap());
    result.Clear();
    return RtError.Success;
  }

  /** `rt_int_mul(&temp, acc, x)` followed by `rt_int_copy(acc, &temp)`: acc multiplied by x
      through a scratch number. */
  method MulThrough(acc: B.BigInt, temp: B.BigInt, x: Num)
    requires acc != temp && acc.digits != temp.digits && NumValid(x)
    requires acc.Valid() && temp.len <= temp.digits.Length
    modifies acc, acc.digits, temp, temp.digits
    ensures acc.Valid() && acc.Value() == old(acc.Value()) * NumValue(x)
    ensures temp.len <= temp.digits.Length && acc.digits != temp.digits
    ensures acc.digits == old(acc.digits) || fresh(acc.digits)
    ensures temp.digits == old(temp.digits) || fresh(temp.digits)
  {
    temp.Mul(acc.Snap(), x);
    acc.Copy(temp.Snap());
  }

  lemma {:induction false} PowerOfZero(n: nat)
    requires n > 0
    ensures Power(0, n) == 0
  {
  }

  /** The loop of rt_math_pow: result set to 1 and b to a copy of base, then rounds of square
      and multiply until the exponent is used up; b and temp are cleared afterwards. */
  method PowBySquaring(base: Num, exp: nat) returns (result: B.BigInt)
    requires NumValid(base)
    ensures fresh(result) && fresh(result.digits)
    ensures result.Valid() && result.Value() == Power(NumValue(base), exp)
  {
    result := new B.BigInt();
    var b := new B.BigInt();
    var temp := new B.BigInt();
    result.SetSi(1);
    b.Copy(base);
    var e := exp;
    while e > 0
      invariant e >= 0 && result.Valid() && b.Valid() && temp.len <= temp.digits.Length
      invariant result.digits != b.digits && result.digits != temp.digits && b.digits != temp.digits
      invariant fresh(result.digits) && fresh(b.digits) && fresh(temp.digits)
      invariant result.Value() * Power(b.Value(), e) == Power(NumValue(base), exp)
      decreases e
    {
      e := PowRound(result, b, temp, e);
    }
    b.Clear();
    temp.Clear();
  }

  /** One round of rt_math_pow's loop: result multiplied by b when e is odd, e halved, and b
      squared when some exponent is left. */
  method PowRound(result: B.BigInt, b: B.BigInt, temp: B.BigInt, e: nat) returns (e': nat)
    requires e > 0 && result.Valid() && b.Valid() && temp.len <= temp.digits.Length
    requires result != b && result != temp && b != temp
    requires result.digits != b.digits && result.digits != temp.digits && b.digits != temp.digits
    modifies result, result.digits, b, b.digits, temp, temp.digits
    ensures e' == e / 2 && result.Valid() && b.Valid() && temp.len <= temp.digits.Length
    ensures result.digits != b.digits && result.digits != temp.digits && b.digits != temp.digits
    ensures result.digits == old(result.digits) || fresh(result.digits)
    ensures b.digits == old(b.digits) || fresh(b.digits)
    ensures temp.digits == old(temp.digits) || fresh(temp.digits)
    ensures result.Value() * Power(b.Value(), e') == old(result.Value()) * Power(old(b.Value()), e)
  {
    ghost var r0, b0 := result.Value(), b.Value();
    PowerHalve(b0, e);
    if e % 2 == 1 {
      MulThrough(result, temp, b.Snap());
    }
    e' := e / 2;
    if e' > 0 {
      MulThrough(b, temp, b.Snap());
    }
    SquareAndMultiply(r0, b0, e, result.Value(), b.Value(), e');
  }

  /** One round of square and multiply keeps result * b ** e. */
  lemma SquareAndMultiply(r0: int, b0: int, e0: nat, r1: int, b1: int, e1: nat)
    requires e0 > 0 && e1 == e0 / 2
    requires Power(b0, e0) == (if e0 % 2 == 1 then b0 else 1) * Power(b0 * b0, e0 / 2)
    requires r1 == if e0 % 2 == 1 then r0 * b0 else r0
    requires b1 == if e1 > 0 then b0 * b0 else b0
    ensures r1 * Power(b1, e1) == r0 * Power(b0, e0)
  {
    var x := Power(b0 * b0, e1);
    if e1 == 0 {
      assert x == 1 && Power(b1, e1) == 1;
    }
    if e0 % 2 == 1 {
      assert r0 * (b0 * x) == (r0 * b0) * x;
    }
  }

  /** n!, the product 1 * 2 * ... * n. */
  function Fact(n: nat): (f: nat)
  {
    if n == 0 then 1 else n * Fact(n - 1)
  }

  lemma {:induction false} FactPositive(n: nat)
    ensures Fact(n) >= 1
    decreases n
  {
    if n > 0 {
      FactPositive(n - 1);
      MulGeSelf(n, Fact(n - 1));
    }
  }

  const NegativeFactorial: string := "Factorial of negative number is undefined"

  lemma NegativeFactorialStored()
    ensures RtError.StoredMessage(NegativeFactorial) == NegativeFactorial
  {
    RtError.CStringNoNul(NegativeFactorial);
  }

  /** The loop of rt_math_factorial: out, holding 1, multiplied by i for i from 2 to n (the
      multiplier set with rt_int_set_si, the product formed in a scratch number). */
  method FactorialLoop(out: B.BigInt, n: int)
    requires 2 <= n && InInt64(n) && out.Valid() && out.Value() == 1
    modifies out, out.digits
    ensures out.Valid() && out.Value() == Fact(n)
  {
    var i := 2;
    assert Fact(1) == 1;
    while i <= n
      invariant 2 <= i <= n + 1
      invariant out.Valid() && out.Value() == Fact(i - 1)
      invariant out.digits == old(out.digits) || fresh(out.digits)
    {
      ScaleBy(out, i);
      assert out.Value() == Fact(i) by {
        assert Fact(i) == i * Fact(i - 1);
        assert Fact(i - 1) * i == i * Fact(i - 1);
      }
      i := i + 1;
    }
  }

  /** rt_math_factorial: RT_ERROR_INVALID with its message for a negative n; otherwise out
      is set to 1 and multiplied by 2, 3, ..., n in turn. */
  method Factorial(out: B.BigInt, n: int, err: RtError.ErrorState) returns (code: int)
    requires InInt64(n) && out.len <= out.digits.Length
    modifies out, out.digits, err
    ensures code == RtError.Invalid <==> n < 0
    ensures code == RtError.Success <==> n >= 0
    ensures n < 0 ==> err.code == RtError.Invalid && err.message == NegativeFactorial
                      && err.file == Some("rt_math.c") && err.line == 318 && unchanged(out)
    ensures n >= 0 ==> out.Valid() && out.Value() == Fact(n) && unchanged(err)
  {
    if n < 0 {
      err.Set(RtError.Invalid, Some(NegativeFactorial), Some("rt_math.c"), 318);
      NegativeFactorialStored();
      return RtError.Invalid;
    }
    out.SetSi(1);
    if n <= 1 {
      assert Fact(n) == 1 by { assert Fact(0) == 1; }
      return RtError.Success;
    }
    FactorialLoop(out, n);
    return RtError.Success;
  }

  /** Binomial coefficients by Pascal's rule: the number of k-element subsets of an n-element
      set. */
  function Choose(n: nat, k: nat): nat
    decreases n
  {
    if k == 0 then 1 else if n == 0 then 0 else Choose(n - 1, k - 1) + Choose(n - 1, k)
  }

  lemma {:induction false} ChooseAbove(n: nat, k: nat)
    requires k > n
    ensures Choose(n, k) == 0
    decreases n
  {
    if n > 0 {
      ChooseAbove(n - 1, k - 1);
      ChooseAbove(n - 1, k);
    }
  }

  lemma {:induction false} ChooseAll(n: nat)
    ensures Choose(n, n) == 1
    decreases n
  {
    if n > 0 {
      ChooseAll(n - 1);
      ChooseAbove(n - 1, n);
    }
  }

  lemma {:induction false} ChoosePositive(n: nat, k: nat)
    requires k <= n
    ensures Choose(n, k) >= 1
    decreases n
  {
    if k > 0 {
      ChoosePositive(n - 1, k - 1);
    }
  }

  lemma {:induction false} ChooseOne(n: nat)
    ensures Choose(n, 1) == n
    decreases n
  {
    if n > 0 {
      ChooseOne(n - 1);
    }
  }

  /** The absorption identity k * C(n, k) == n * C(n - 1, k - 1), which makes each step of
      rt_math_binomial's loop an exact division. */
  lemma {:induction false} ChooseAbsorb(n: nat, k: nat)
    requires n >= 1 && k >= 1
    ensures k * Choose(n, k) == n * Choose(n - 1, k - 1)
    decreases n
  {
    if k == 1 {
      ChooseOne(n);
    } else if n == 1 {
      ChooseAbove(0, k - 1);
      ChooseAbove(0, k);
    } else {
      var a, b := Choose(n - 1, k - 1), Choose(n - 1, k);
      var x, y := Choose(n - 2, k - 2), Choose(n - 2, k - 1);
      assert Choose(n, k) == a + b && a == x + y;
      ChooseAbsorb(n - 1, k - 1);
      ChooseAbsorb(n - 1, k);
      assert (k - 1) * a == (n - 1) * x && k * b == (n - 1) * y;
      Distrib(k, a, b);
      MulSucc(k, a);
      Distrib(n - 1, x, y);
      MulSucc(n, a);
    }
  }

  lemma MulSucc(k: int, a: int)
    ensures k * a == (k - 1) * a + a
  {
  }

  /** C(n, k) == C(n, n - k): choosing the k members is choosing the n - k non-members. */
  lemma {:induction false} ChooseSymmetric(n: nat, k: nat)
    requires k <= n
    ensures Choose(n, k) == Choose(n, n - k)
    decreases n
  {
    if k == 0 {
      ChooseAll(n);
    } else if k == n {
      ChooseAll(n);
    } else {
      ChooseSymmetric(n - 1, k - 1);
      ChooseSymmetric(n - 1, k);
      assert n - k - 1 == (n - 1) - k && n - k == (n - 1) - (k - 1);
    }
  }

  /** C(n, k) * k! * (n - k)! == n!: Pascal's coefficients are the factorial quotient. */
  lemma {:induction false} ChooseFactorials(n: nat, k: nat)
    requires k <= n
    ensures Choose(n, k) * Fact(k) * Fact(n - k) == Fact(n)
    decreases k
  {
    if k > 0 {
      ChooseFactorials(n - 1, k - 1);
      ChooseAbsorb(n, k);
      var c, c1 := Choose(n, k), Choose(n - 1, k - 1);
      var f, g := Fact(k - 1), Fact(n - k);
      assert Fact(k) == k * f;
      assert c1 * f * g == Fact(n - 1) by {
        assert (n - 1) - (k - 1) == n - k;
      }
      assert k * c == n * c1;
      Regroup(c, k, f, g, n, c1);
      assert Fact(n) == n * Fact(n - 1);
    }
  }

  /** c * (k * f) * g == n * (c1 * f * g) once k * c == n * c1. */
  lemma Regroup(c: int, k: int, f: int, g: int, n: int, c1: int)
    requires k * c == n * c1
    ensures c * (k * f) * g == n * (c1 * f * g)
  {
    assert c * (k * f) * g == (k * c) * (f * g);
    assert n * (c1 * f * g) == (n * c1) * (f * g);
  }

  /** rt_int_set_si of a positive value below the base is one limb, of a larger one more. */
  lemma OneLimbExactly(v: int)
    requires v > 0
    ensures |FromInt(v).limbs| == 1 <==> v < Base
  {
    ValueOfFromInt(v);
    var s := FromInt(v).limbs;
    ValueSign(FromInt(v));
    ValBounds(s);
    if |s| >= 2 {
      ValTop(s);
      PowMono(1, |s| - 1);
    }
    if |s| <= 1 {
      PowMono(|s|, 1);
    }
  }

  const NegativeN: string := "n must be non-negative"
  const KOutOfRange: string := "k must satisfy 0 <= k <= n"

  lemma NegativeNStored()
    ensures RtError.StoredMessage(NegativeN) == NegativeN
  {
    RtError.CStringNoNul(NegativeN);
  }

  lemma KOutOfRangeStored()
    ensures RtError.StoredMessage(KOutOfRange) == KOutOfRange
  {
    RtError.CStringNoNul(KOutOfRange);
  }

  /** rt_math_binomial: RT_ERROR_INVALID with its message for a negative n and for k outside
      0..n; otherwise C(n, k) by the product (n - k' + i) / i over i from 1 to k', with k' the
      smaller of k and n - k.  Each division goes through rt_int_floordiv, which refuses a
      divisor of more than one limb, so the call fails with RT_ERROR_INVALID, and the record
      rt_int_divmod makes for a long divisor, once k' reaches the base 10^9. */
  method Binomial(out: B.BigInt, n: int, k: int, err: RtError.ErrorState) returns (code: int)
    requires InInt64(n) && InInt64(k) && out.len <= out.digits.Length
    modifies out, out.digits, err
    ensures code == RtError.Success || code == RtError.Invalid
    ensures code == RtError.Success <==> 0 <= k <= n && MinSi(k, n - k) < Base
    ensures n < 0 ==> err.code == RtError.Invalid && err.message == NegativeN
                      && err.file == Some("rt_math.c") && err.line == 355 && unchanged(out)
    ensures 0 <= n && (k < 0 || k > n) ==>
              err.code == RtError.Invalid && err.message == KOutOfRange
              && err.file == Some("rt_math.c") && err.line == 360 && unchanged(out)
    ensures 0 <= k <= n && MinSi(k, n - k) < Base ==> unchanged(err)
    ensures 0 <= k <= n && MinSi(k, n - k) >= Base ==>
              err.code == RtError.Invalid && err.message == B.ComplexDivision
              && err.file == Some("rt_bigint.c") && err.line == 481
    ensures code == RtError.Success ==> out.Valid() && out.Value() == Choose(n, k)
  {
    if n < 0 {
      err.Set(RtError.Invalid, Some(NegativeN), Some("rt_math.c"), 355);
      NegativeNStored();
      return RtError.Invalid;
    }
    if k < 0 || k > n {
      err.Set(RtError.Invalid, Some(KOutOfRange), Some("rt_math.c"), 360);
      KOutOfRangeStored();
      return RtError.Invalid;
    }
    var kk := k;
    if kk > n - kk {
      kk := n - kk;
    }
    ChooseSymmetric(n, k);
    out.SetSi(1);
    if kk == 0 {
      return RtError.Success;
    }
    code := BinomialLoop(out, n, kk, err);
  }

  /** The loop of rt_math_binomial: out, holding 1, multiplied by n - k + i and floor-divided by
      i for i from 1 to k; the first failing division ends it. */
  method BinomialLoop(out: B.BigInt, n: int, k: int, err: RtError.ErrorState) returns (code: int)
    requires 1 <= k <= n && InInt64(n) && out.Valid() && out.Value() == 1
    modifies out, out.digits, err
    ensures code == RtError.Success || code == RtError.Invalid
    ensures code == RtError.Success <==> k < Base
    ensures code == RtError.Success ==> out.Valid() && out.Value() == Choose(n, k)
    ensures B.DivModRecord(err, code)
  {
    var i := 1;
    code := RtError.Success;
    while i <= k
      invariant 1 <= i <= k + 1 && i - 1 < Base && code == RtError.Success
      invariant out.Valid() && out.Value() == Choose(n - k + i - 1, i - 1)
      invariant out.digits == old(out.digits) || fresh(out.digits)
      invariant unchanged(err)
    {
      code := BinomialStep(out, n, k, i, err);
      if code != RtError.Success {
        break;
      }
      i := i + 1;
    }
  }

  /** One round of rt_math_binomial's loop: out times n - k + i through a scratch product, then
      floor-divided by i.  The division refuses a divisor of two limbs, so the round fails
      exactly when i reaches the base. */
  method BinomialStep(out: B.BigInt, n: int, k: int, i: int, err: RtError.ErrorState) returns (code: int)
    requires 1 <= i <= k <= n && InInt64(n)
    requires out.Valid() && out.Value() == Choose(n - k + i - 1, i - 1)
    modifies out, out.digits, err
    ensures code == RtError.Success || code == RtError.Invalid
    ensures code == RtError.Success <==> i < Base
    ensures code == RtError.Success ==> out.Valid() && out.Value() == Choose(n - k + i, i)
    ensures out.digits == old(out.digits) || fresh(out.digits)
    ensures B.DivModRecord(err, code)
  {
    var m := n - k + i;
    BinomialArith(out.Value(), m, i);
    ScaleBy(out, m);
    code := DivideBy(out, i, err);
  }

  /** `rt_int_set_si(&num, v)`, `rt_int_mul(&temp, out, &num)`, `rt_int_copy(out, &temp)`. */
  method ScaleBy(out: B.BigInt, v: int)
    requires InInt64(v) && out.Valid()
    modifies out, out.digits
    ensures out.Valid() && out.Value() == old(out.Value()) * v
    ensures out.digits == old(out.digits) || fresh(out.digits)
  {
    var temp := new B.BigInt();
    var num := new B.BigInt();
    num.SetSi(v);
    MulThrough(out, temp, num.Snap());
    temp.Clear();
    num.Clear();
  }

  /** `rt_int_set_si(&den, d)`, `rt_int_floordiv(&temp, out, &den)` and, when that succeeds,
      `rt_int_copy(out, &temp)`: RT_ERROR_INVALID, with the record rt_int_divmod makes, for a
      nonzero out once d needs two limbs. */
  method DivideBy(out: B.BigInt, d: int, err: RtError.ErrorState) returns (code: int)
    requires 1 <= d && InInt64(d) && out.Valid() && out.Value() != 0
    modifies out, out.digits, err
    ensures code == RtError.Success || code == RtError.Invalid
    ensures code == RtError.Success <==> d < Base
    ensures code == RtError.Success ==> out.Valid() && out.Value() == PyFloorDiv(old(out.Value()), d)
    ensures out.digits == old(out.digits) || fresh(out.digits)
    ensures B.DivModRecord(err, code)
  {
    var temp := new B.BigInt();
    var den := new B.BigInt();
    den.SetSi(d);
    OneLimbExactly(d);
    code := B.FloorDiv(temp, out.Snap(), den.Snap(), err);
    if code == RtError.Success {
      out.Copy(temp.Snap());
    }
    temp.Clear();
    den.Clear();
  }

  /** The arithmetic of one binomial step: C(m - 1, i - 1) * m is positive and i * C(m, i), so
      the floor division by i is exact. */
  lemma BinomialArith(c: int, m: int, i: int)
    requires 1 <= i <= m && c == Choose(m - 1, i - 1)
    ensures c * m != 0 && PyFloorDiv(c * m, i) == Choose(m, i)
  {
    ChooseAbsorb(m, i);
    ChoosePositive(m - 1, i - 1);
    MulGeSelf(m, c);
    assert c * m == i * Choose(m, i);
    DivOf(i * Choose(m, i), i, Choose(m, i), 0);
  }
}
