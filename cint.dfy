/** C's integer arithmetic set beside Python's: the 64-bit range, C's truncating `/` and `%`, and
    Python's floor division and modulo (section 6.7 of the Python Language Reference), with the
    facts about them that the code generators and the runtime models share. */
module CInt {
  const Int64Min: int := -0x8000_0000_0000_0000
  const Int64Max: int := 0x7fff_ffff_ffff_ffff
  /** ULLONG_MAX. */
  const UInt64Max: int := 0xffff_ffff_ffff_ffff

  predicate InInt64(v: int) { Int64Min <= v <= Int64Max }

  /** C's `/` on integers: the quotient truncated toward zero. */
  function CDiv(a: int, b: int): int
    requires b != 0
  {
    var q := Abs(a) / Abs(b);
    if (a < 0) != (b < 0) then -q else q
  }

  /** C's `%`: the remainder that goes with the truncated quotient, with the sign of a. */
  function CMod(a: int, b: int): int
    requires b != 0
  {
    a - b * CDiv(a, b)
  }

  function Abs(a: int): nat { if a < 0 then -a else a }

  /** Python's `//`: the floor of the exact quotient. */
  function PyFloorDiv(a: int, b: int): int
    requires b != 0
  {
    if b > 0 then a / b else (-a) / (-b)
  }

  /** Python's `%`: what is left after the floor quotient. */
  function PyMod(a: int, b: int): int
    requires b != 0
  {
    a - b * PyFloorDiv(a, b)
  }


  /** Euclidean division of naturals, the fact everything below rests on. */
  lemma NatDivMod(n: nat, d: nat)
    requires d > 0
    ensures n == d * (n / d) + n % d && 0 <= n % d < d
  {
  }

  /** The truncated quotient and remainder: |CMod| < |b|, and CMod is zero or has a's sign. */
  lemma CDivModShape(a: int, b: int)
    requires b != 0
    ensures Abs(CMod(a, b)) < Abs(b)
    ensures CMod(a, b) == 0 || (CMod(a, b) < 0) == (a < 0)
  {
    var q := Abs(a) / Abs(b);
    var m := Abs(a) % Abs(b);
    NatDivMod(Abs(a), Abs(b));
    if a >= 0 && b > 0 {
      assert CMod(a, b) == m;
    } else if a >= 0 && b < 0 {
      assert CMod(a, b) == a - b * (-q) == Abs(a) - Abs(b) * q;
    } else if a < 0 && b > 0 {
      assert CMod(a, b) == a + b * q == -(Abs(a) - Abs(b) * q);
    } else {
      assert CMod(a, b) == a - b * q == -(Abs(a) - Abs(b) * q);
    }
  }

  /** Python's floor division and modulo: a == b * (a // b) + a % b, with a % b zero or of b's sign
      and smaller than b in magnitude. */
  lemma PyDivModShape(a: int, b: int)
    requires b != 0
    ensures a == b * PyFloorDiv(a, b) + PyMod(a, b)
    ensures Abs(PyMod(a, b)) < Abs(b)
    ensures PyMod(a, b) == 0 || (PyMod(a, b) < 0) == (b < 0)
  {
    if b > 0 {
      assert PyMod(a, b) == a % b;
    } else {
      var q := (-a) / (-b);
      assert (-a) == (-b) * q + (-a) % (-b);
      assert PyMod(a, b) == a - b * q == -((-a) % (-b));
    }
  }

  /** x * k is at least x for a positive k. */
  lemma {:induction false} MulGe(x: nat, k: nat)
    requires k >= 1
    ensures x * k >= x
    decreases k
  {
    if k > 1 {
      MulGe(x, k - 1);
      assert x * k == x * (k - 1) + x;
    }
  }

  lemma AbsMul(b: int, k: int)
    ensures Abs(b * k) == Abs(b) * Abs(k)
  {
    if b < 0 && k < 0 {
      assert b * k == (-b) * (-k);
    } else if b < 0 {
      assert b * k == -((-b) * k);
    } else if k < 0 {
      assert b * k == -(b * (-k));
    }
  }

  /** A quotient and remainder pair with those properties is unique. */
  lemma DivModUnique(a: int, b: int, q: int, m: int, q': int, m': int)
    requires b != 0
    requires a == b * q + m && Abs(m) < Abs(b) && (m == 0 || (m < 0) == (b < 0))
    requires a == b * q' + m' && Abs(m') < Abs(b) && (m' == 0 || (m' < 0) == (b < 0))
    ensures q == q' && m == m'
  {
    var k := q - q';
    assert b * k == b * q - b * q';
    assert b * k == m' - m;
    assert Abs(m' - m) < Abs(b);
    if k != 0 {
      AbsMul(b, k);
      MulGe(Abs(b), Abs(k));
      assert false;
    }
  }

  /** Floor division recovered from the truncated one: with |a| == |b| * t + rem, the floor
      quotient is t when the signs agree, -t when they differ and nothing is left over, and
      -t - 1 otherwise, when the remainder a's sign gives rem is moved by b. */
  lemma FloorFromTruncated(sa: int, sb: int, d: int, t: int, rem: int)
    requires (sa == 1 || sa == -1) && (sb == 1 || sb == -1) && d > 0 && t >= 0 && 0 <= rem < d
    ensures var a := sa * (d * t + rem);
            var b := sb * d;
            var q := if sa == sb then t else if rem == 0 then -t else -t - 1;
            var r := if rem == 0 then 0 else if sa == sb then sa * rem else sa * rem + b;
            q == PyFloorDiv(a, b) && r == PyMod(a, b)
  {
    var dt := d * t;
    var a := sa * (dt + rem);
    var b := sb * d;
    var q := if sa == sb then t else if rem == 0 then -t else -t - 1;
    var r := if rem == 0 then 0 else if sa == sb then sa * rem else sa * rem + b;
    NegatedProducts(d, t);
    if sa == 1 {
      assert a == dt + rem;
    } else {
      assert a == -dt - rem;
    }
    if sb == 1 {
      assert b == d;
    } else {
      assert b == -d;
    }
    FloorOf(a, b, q, r);
  }

  /** The products of FloorFromTruncated's sign cases. */
  lemma NegatedProducts(d: int, t: int)
    ensures (-d) * t == -(d * t) && d * (-t) == -(d * t) && (-d) * (-t) == d * t
    ensures (-d) * (-t - 1) == d * t + d && d * (-t - 1) == -(d * t) - d
  {
  }

  /** A division identity with a remainder of the divisor's sign determines Python's pair. */
  lemma FloorOf(a: int, b: int, q: int, r: int)
    requires b != 0 && a == b * q + r && Abs(r) < Abs(b) && (r == 0 || (r < 0) == (b < 0))
    ensures q == PyFloorDiv(a, b) && r == PyMod(a, b)
  {
    PyDivModShape(a, b);
    DivModUnique(a, b, q, r, PyFloorDiv(a, b), PyMod(a, b));
  }

  /** Dafny's division on a positive divisor is determined by the division identity. */
  lemma DivOf(n: int, d: int, q: int, m: int)
    requires d > 0 && n == d * q + m && 0 <= m < d
    ensures n / d == q && n % d == m
  {
    DivModUnique(n, d, q, m, n / d, n % d);
  }

  /** A quotient is at most the dividend, and at most half of it for a divisor of two or more. */
  lemma QuotientBound(n: nat, d: nat)
    requires d >= 1
    ensures n / d <= n
    ensures d >= 2 ==> 2 * (n / d) <= n
  {
    var q, m := n / d, n % d;
    assert n == d * q + m && m >= 0;
    FactorBound(n, d, q, m);
  }

  /** The arithmetic of QuotientBound, without division. */
  lemma FactorBound(n: int, d: int, q: nat, m: int)
    requires d >= 1 && m >= 0 && n == d * q + m
    ensures q <= n && (d >= 2 ==> 2 * q <= n)
  {
    MulGe(q, d);
    assert d * q == q * d;
    if d >= 2 {
      assert d * q == 2 * q + (d - 2) * q;
      assert (d - 2) * q >= 0;
    }
  }

  // -----------------------------------------------------------------------------------------------
  // Integer powers

  /** x to the n-th power, Python's `x ** n` for a non-negative exponent (so 0 ** 0 == 1). */
  function Power(x: int, n: nat): int
    decreases n
  {
    if n == 0 then 1 else x * Power(x, n - 1)
  }

  lemma {:induction false} PowerAdd(x: int, m: nat, n: nat)
    ensures Power(x, m + n) == Power(x, m) * Power(x, n)
    decreases m
  {
    if m > 0 {
      PowerAdd(x, m - 1, n);
      assert Power(x, m + n) == x * Power(x, m - 1 + n);
      assert x * (Power(x, m - 1) * Power(x, n)) == (x * Power(x, m - 1)) * Power(x, n);
    }
  }

  lemma {:induction false} PowerSquare(x: int, n: nat)
    ensures Power(x * x, n) == Power(x, 2 * n)
    decreases n
  {
    if n > 0 {
      PowerSquare(x, n - 1);
      PowerAdd(x, 2, 2 * (n - 1));
      assert Power(x, 2) == x * x;
    }
  }

  /** The step square-and-multiply rests on: an odd exponent gives up one factor, and the rest
      is the square to half the exponent. */
  lemma PowerHalve(x: int, n: nat)
    ensures Power(x, n) == (if n % 2 == 1 then x else 1) * Power(x * x, n / 2)
  {
    PowerSquare(x, n / 2);
    if n % 2 == 1 {
      assert n == 1 + 2 * (n / 2);
      PowerAdd(x, 1, 2 * (n / 2));
    } else {
      assert n == 2 * (n / 2);
    }
  }

  // -----------------------------------------------------------------------------------------------
  // Python's `%` as a congruence

  /** Adding a multiple of the divisor does not change Python's remainder. */
  lemma PyModShift(x: int, m: int, k: int)
    requires m != 0
    ensures PyMod(x + m * k, m) == PyMod(x, m)
  {
    PyDivModShape(x, m);
    var q, r := PyFloorDiv(x, m), PyMod(x, m);
    assert x + m * k == m * (q + k) + r;
    FloorOf(x + m * k, m, q + k, r);
  }

  /** A remainder is its own remainder. */
  lemma PyModIdem(x: int, m: int)
    requires m != 0
    ensures PyMod(PyMod(x, m), m) == PyMod(x, m)
  {
    PyDivModShape(x, m);
    FloorOf(PyMod(x, m), m, 0, PyMod(x, m));
  }

  /** Replacing the left factor by its remainder does not change the product's remainder. */
  lemma PyModMulLeft(x: int, y: int, m: int)
    requires m != 0
    ensures PyMod(PyMod(x, m) * y, m) == PyMod(x * y, m)
  {
    var q := PyFloorDiv(x, m);
    assert PyMod(x, m) * y == x * y + m * (-q * y) by {
      assert PyMod(x, m) * y == (x - m * q) * y;
    }
    PyModShift(x * y, m, -q * y);
  }

  /** Factors with the same remainders have products with the same remainder. */
  lemma PyModMul(x: int, x': int, y: int, y': int, m: int)
    requires m != 0 && PyMod(x, m) == PyMod(x', m) && PyMod(y, m) == PyMod(y', m)
    ensures PyMod(x * y, m) == PyMod(x' * y', m)
  {
    PyModMulLeft(x, y, m);
    PyModMulLeft(x', y, m);
    PyModMulLeft(y, x', m);
    PyModMulLeft(y', x', m);
    assert y * x' == x' * y && y' * x' == x' * y';
    assert PyMod(y, m) * x' == x' * PyMod(y, m);
  }

  /** Bases with the same remainder have powers with the same remainder. */
  lemma {:induction false} PyModPower(x: int, x': int, n: nat, m: int)
    requires m != 0 && PyMod(x, m) == PyMod(x', m)
    ensures PyMod(Power(x, n), m) == PyMod(Power(x', n), m)
    decreases n
  {
    if n > 0 {
      PyModPower(x, x', n - 1, m);
      PyModMul(x, x', Power(x, n - 1), Power(x', n - 1), m);
    }
  }
}
