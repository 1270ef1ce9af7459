/** The number representation both big-integer runtimes use (runtime/runtime.h:44-49,
    runtime/rt_bigint.h:21-27): a sign in {-1, 0, +1} and little-endian base 10^9 limbs.

    `Val` is the abstraction from limbs to the natural number they spell.  A representation is
    canonical when every limb is below the base, the top limb is not zero, and the sign is 0
    exactly when there are no limbs; canonical representations and integers are in one-to-one
    correspondence (`FromIntOfValue`, `ValueOfFromInt`). */
module Limbs {
  import CInt

  /** RT_INT_BASE. */
  const Base: int := 1_000_000_000

  /** Base^n. */
  function Pow(n: nat): (r: int)
    ensures r >= 1
  {
    if n == 0 then 1 else Base * Pow(n - 1)
  }

  predicate IsLimbs(s: seq<int>)
  {
    forall i | 0 <= i < |s| :: 0 <= s[i] < Base
  }

  /** No leading zero limb. */
  predicate Normalized(s: seq<int>)
  {
    IsLimbs(s) && (|s| == 0 || s[|s| - 1] != 0)
  }

  /** The natural number the limbs spell, least significant first. */
  function Val(s: seq<int>): int
  {
    if |s| == 0 then 0 else Val(s[..|s| - 1]) + Pow(|s| - 1) * s[|s| - 1]
  }

  /** The i-th limb, zero past the end, and the limbs below position i. */
  function Limb(s: seq<int>, i: nat): int
  {
    if i < |s| then s[i] else 0
  }

  function Take(s: seq<int>, i: nat): seq<int>
  {
    if i < |s| then s[..i] else s
  }

  // ---------------------------------------------------------------------------------------------
  // Powers of the base

  lemma {:induction false} PowAdd(m: nat, n: nat)
    ensures Pow(m + n) == Pow(m) * Pow(n)
    decreases n
  {
    if n > 0 {
      PowAdd(m, n - 1);
      assert Pow(m + n) == Base * Pow(m + n - 1);
      assert Base * (Pow(m) * Pow(n - 1)) == Pow(m) * (Base * Pow(n - 1));
    }
  }

  lemma {:induction false} PowMono(m: nat, n: nat)
    requires m <= n
    ensures Pow(m) <= Pow(n)
    ensures m < n ==> Base * Pow(m) <= Pow(n)
    decreases n - m
  {
    if m < n {
      PowMono(m, n - 1);
    }
  }

  /** A smaller power has a smaller exponent. */
  lemma PowLess(m: nat, n: nat)
    requires Pow(m) < Pow(n)
    ensures m < n
  {
    if n <= m {
      PowMono(n, m);
    }
  }

  // ---------------------------------------------------------------------------------------------
  // The value of a limb sequence

  lemma MulNonneg(x: int, y: int)
    requires x >= 0 && y >= 0
    ensures x * y >= 0
  {
  }

  /** p * d for a limb d lies between 0 and p * (Base - 1). */
  lemma LimbScaled(p: int, d: int)
    requires p >= 0 && 0 <= d < Base
    ensures 0 <= p * d <= p * Base - p
  {
    MulNonneg(p, d);
    MulNonneg(p, Base - 1 - d);
    Distrib(p, Base - 1, -d);
  }

  lemma Distrib(p: int, x: int, y: int)
    ensures p * (x + y) == p * x + p * y
  {
  }

  lemma Distrib3(p: int, a: int, q: int, d: int)
    ensures p * (a + q * d) == p * a + (p * q) * d
  {
    Distrib(p, a, q * d);
    assert p * (q * d) == (p * q) * d;
  }

  lemma {:induction false} ValBounds(s: seq<int>)
    requires IsLimbs(s)
    ensures 0 <= Val(s) < Pow(|s|)
    decreases |s|
  {
    if |s| > 0 {
      var n := |s| - 1;
      var init := s[..n];
      assert IsLimbs(init) by {
        forall i | 0 <= i < |init| ensures 0 <= init[i] < Base { assert init[i] == s[i]; }
      }
      ValBounds(init);
      LimbScaled(Pow(n), s[n]);
    }
  }

  /** A normalized nonempty sequence is at least Base^(length - 1). */
  lemma ValTop(s: seq<int>)
    requires Normalized(s) && |s| > 0
    ensures Val(s) >= Pow(|s| - 1)
  {
    var n := |s| - 1;
    var init := s[..n];
    assert IsLimbs(init) by {
      forall i | 0 <= i < |init| ensures 0 <= init[i] < Base { assert init[i] == s[i]; }
    }
    ValBounds(init);
    LimbScaled(Pow(n), s[n] - 1);
  }

  lemma ValSnoc(s: seq<int>, d: int)
    ensures Val(s + [d]) == Val(s) + Pow(|s|) * d
  {
    assert (s + [d])[..|s|] == s;
  }

  /** Adding a limb to a prefix. */
  lemma ValPrefix(s: seq<int>, i: nat)
    requires i < |s|
    ensures Val(s[..i + 1]) == Val(s[..i]) + Pow(i) * s[i]
  {
    assert s[..i + 1] == s[..i] + [s[i]];
    ValSnoc(s[..i], s[i]);
  }

  lemma TakeStep(s: seq<int>, i: nat)
    ensures Val(Take(s, i + 1)) == Val(Take(s, i)) + Pow(i) * Limb(s, i)
  {
    if i < |s| {
      ValPrefix(s, i);
      if i + 1 == |s| {
        assert s[..i + 1] == s;
      }
    }
  }

  /** A top zero limb adds nothing. */
  lemma ValDropZero(s: seq<int>)
    requires |s| > 0 && s[|s| - 1] == 0
    ensures Val(s) == Val(s[..|s| - 1])
  {
  }

  /** The limbs split at k: the low part plus Base^k times the high part. */
  lemma {:induction false} ValSplit(s: seq<int>, k: nat)
    requires k <= |s|
    ensures Val(s) == Val(s[..k]) + Pow(k) * Val(s[k..])
    decreases |s|
  {
    if |s| > k {
      var n := |s| - 1;
      var init := s[..n];
      ValSplit(init, k);
      assert init[..k] == s[..k];
      var hi := s[k..];
      assert hi == init[k..] + [s[n]];
      ValSnoc(init[k..], s[n]);
      PowAdd(k, n - k);
      Distrib3(Pow(k), Val(init[k..]), Pow(n - k), s[n]);
    } else {
      assert s[..k] == s;
      assert s[k..] == [];
    }
  }

  /** A limb in front: the lowest limb plus Base times the rest. */
  lemma ValCons(d: int, s: seq<int>)
    ensures Val([d] + s) == d + Base * Val(s)
  {
    var t := [d] + s;
    ValSplit(t, 1);
    assert t[..1] == [d];
    assert t[1..] == s;
  }

  /** Reading from the top: the suffix from i - 1 is limb i - 1 plus Base times the suffix from i. */
  lemma ValSuffix(s: seq<int>, i: nat)
    requires 0 < i <= |s|
    ensures Val(s[i - 1..]) == s[i - 1] + Base * Val(s[i..])
  {
    assert s[i - 1..] == [s[i - 1]] + s[i..];
    ValCons(s[i - 1], s[i..]);
  }

  /** Overwriting limb k changes the value by Base^k times the difference. */
  lemma ValUpdate(s: seq<int>, k: nat, v: int)
    requires k < |s|
    ensures Val(s[k := v]) == Val(s) + Pow(k) * (v - s[k])
  {
    var t := s[k := v];
    ValSplit(s, k);
    ValSplit(t, k);
    assert t[..k] == s[..k];
    ValSuffix(s, k + 1);
    ValSuffix(t, k + 1);
    assert t[k + 1..] == s[k + 1..];
    var h := Val(s[k + 1..]);
    Distrib(Pow(k), v, Base * h);
    Distrib(Pow(k), s[k], Base * h);
    Distrib(Pow(k), s[k], v - s[k]);
  }

  // ---------------------------------------------------------------------------------------------
  // Comparison of magnitudes

  /** A normalized sequence with fewer limbs spells a smaller number. */
  lemma ShorterIsSmaller(a: seq<int>, b: seq<int>)
    requires Normalized(a) && Normalized(b) && |a| < |b|
    ensures Val(a) < Val(b)
  {
    ValBounds(a);
    ValTop(b);
    PowMono(|a|, |b| - 1);
  }

  /** Equal lengths: the highest differing limb decides. */
  lemma HighestLimbDecides(a: seq<int>, b: seq<int>, i: nat)
    requires IsLimbs(a) && IsLimbs(b) && |a| == |b| && i < |a|
    requires a[i + 1..] == b[i + 1..] && a[i] < b[i]
    ensures Val(a) < Val(b)
  {
    var h, p := Val(a[i + 1..]), Pow(i);
    var a0, b0 := Val(a[..i]), Val(b[..i]);
    var ma, mb := Val(a[i..]), Val(b[i..]);
    assert Val(a) == a0 + p * ma by {
      ValSplit(a, i);
    }
    assert Val(b) == b0 + p * mb by {
      ValSplit(b, i);
    }
    assert ma == a[i] + Base * h by {
      ValSuffix(a, i + 1);
    }
    assert mb == b[i] + Base * h by {
      ValSuffix(b, i + 1);
    }
    assert 0 <= a0 < p by {
      PrefixLimbs(a, i);
      ValBounds(a[..i]);
    }
    assert 0 <= b0 by {
      PrefixLimbs(b, i);
      ValBounds(b[..i]);
    }
    LowerHigh(a0, b0, p, ma, mb, a[i], b[i], h);
  }

  lemma PrefixLimbs(s: seq<int>, i: nat)
    requires IsLimbs(s) && i <= |s|
    ensures IsLimbs(s[..i])
  {
    assert forall k | 0 <= k < i :: s[..i][k] == s[k];
  }

  /** The arithmetic behind HighestLimbDecides. */
  lemma LowerHigh(a0: int, b0: int, p: int, ma: int, mb: int, x: int, y: int, h: int)
    requires 0 <= a0 < p && 0 <= b0 && x < y
    requires ma == x + Base * h && mb == y + Base * h
    ensures a0 + p * ma < b0 + p * mb
  {
    Distrib(p, x, Base * h);
    Distrib(p, y, Base * h);
    Distrib(p, x + 1, y - x - 1);
    MulNonneg(p, y - x - 1);
  }

  // ---------------------------------------------------------------------------------------------
  // One step of the digit loops

  /** A limb written as s % Base with the carry s / Base accounts for p * s. */
  lemma CarryStep(p: int, s: int)
    ensures p * (s % Base) + (Base * p) * (s / Base) == p * s
  {
    assert s == Base * (s / Base) + s % Base;
    Distrib(p, Base * (s / Base), s % Base);
    assert p * (Base * (s / Base)) == (Base * p) * (s / Base);
  }

  /** One step of an addition loop: the limb d and the carry out c' of c + lx + ly, at weights
      p and Base * p. */
  lemma AddStep(p: int, c: int, lx: int, ly: int, d: int, c': int)
    requires c + lx + ly == d + Base * c'
    ensures p * d + c' * (Base * p) == c * p + p * lx + p * ly
  {
    Distrib(p, d, Base * c');
    Distrib(p, c + lx, ly);
    Distrib(p, c, lx);
    assert p * (Base * c') == c' * (Base * p);
  }

  /** One step of a subtraction loop: the limb is lx - bw - ly, plus Base when it borrows. */
  lemma SubStep(v: int, bw: int, p: int, lx: int, ly: int, d: int, bw': int)
    requires d == lx - bw - ly + Base * bw'
    ensures v + p * d - bw' * (Base * p) == (v - bw * p) + p * lx - p * ly
  {
    Distrib(p, lx - bw - ly, Base * bw');
    Distrib(p, lx - bw, -ly);
    Distrib(p, lx, -bw);
    assert p * (Base * bw') == bw' * (Base * p);
  }

  /** One step of the long-division loop from the top: the dividend rem * Base + limb gives a
      quotient limb below Base and a new remainder. */
  lemma DivStep(quot: int, rem: int, d: int, limb: int)
    requires 0 <= rem < d && 0 <= limb < Base
    ensures var dv := rem * Base + limb;
            0 <= dv / d < Base && 0 <= dv % d < d
            && limb + Base * (d * quot + rem) == d * (dv / d + Base * quot) + dv % d
  {
    var dv := rem * Base + limb;
    assert dv == d * (dv / d) + dv % d;
    assert rem * Base + limb < d * Base by {
      Distrib(Base, rem, d - rem);
      assert (d - rem) * Base >= Base;
    }
    if dv / d >= Base {
      MulNonneg(d, dv / d - Base);
      Distrib(d, Base, dv / d - Base);
      assert false;
    }
    Distrib(d, dv / d, Base * quot);
    Distrib(Base, d * quot, rem);
    assert d * (Base * quot) == Base * (d * quot);
  }

  /** Emitting the low limb of `rest` at the end of `pre` moves rest / Base one position up. */
  lemma EmitLimb(pre: seq<int>, rest: int)
    requires IsLimbs(pre)
    ensures IsLimbs(pre + [rest % Base])
    ensures Val(pre + [rest % Base]) + Pow(|pre| + 1) * (rest / Base) == Val(pre) + Pow(|pre|) * rest
  {
    ValSnoc(pre, rest % Base);
    CarryStep(Pow(|pre|), rest);
  }

  /** One step of the carry loop of an addition, on sequences. */
  lemma AddLimbStep(pre: seq<int>, i: nat, x: seq<int>, y: seq<int>, carry: int, d: int, carry': int)
    requires IsLimbs(pre) && |pre| == i
    requires Val(pre) + carry * Pow(i) == Val(Take(x, i)) + Val(Take(y, i))
    requires carry + Limb(x, i) + Limb(y, i) == d + Base * carry' && 0 <= d < Base
    ensures IsLimbs(pre + [d])
    ensures Val(pre + [d]) + carry' * Pow(i + 1) == Val(Take(x, i + 1)) + Val(Take(y, i + 1))
  {
    var lx, ly := Limb(x, i), Limb(y, i);
    var p := Pow(i);
    assert IsLimbs(pre + [d]) by {
      forall k | 0 <= k < |pre| + 1 ensures 0 <= (pre + [d])[k] < Base {
        if k < |pre| {
          assert (pre + [d])[k] == pre[k];
        }
      }
    }
    assert Val(pre + [d]) == Val(pre) + p * d by {
      ValSnoc(pre, d);
    }
    assert carry' * Pow(i + 1) == carry' * (Base * p);
    assert Val(Take(x, i + 1)) == Val(Take(x, i)) + p * lx by {
      TakeStep(x, i);
    }
    assert Val(Take(y, i + 1)) == Val(Take(y, i)) + p * ly by {
      TakeStep(y, i);
    }
    AddStep(p, carry, lx, ly, d, carry');
  }

  /** One step of the borrow loop of a subtraction, on sequences. */
  lemma SubLimbStep(pre: seq<int>, i: nat, x: seq<int>, y: seq<int>, borrow: int, d: int, borrow': int)
    requires IsLimbs(pre) && |pre| == i && i < |x| && 0 <= d < Base
    requires Val(pre) - borrow * Pow(i) == Val(x[..i]) - Val(Take(y, i))
    requires d == x[i] - borrow - Limb(y, i) + Base * borrow'
    ensures IsLimbs(pre + [d])
    ensures Val(pre + [d]) - borrow' * Pow(i + 1) == Val(x[..i + 1]) - Val(Take(y, i + 1))
  {
    var lx, ly := x[i], Limb(y, i);
    var p := Pow(i);
    assert IsLimbs(pre + [d]) by {
      forall k | 0 <= k < |pre| + 1 ensures 0 <= (pre + [d])[k] < Base {
        if k < |pre| {
          assert (pre + [d])[k] == pre[k];
        }
      }
    }
    assert Val(pre + [d]) == Val(pre) + p * d by {
      ValSnoc(pre, d);
    }
    assert borrow' * Pow(i + 1) == borrow' * (Base * p);
    assert Val(x[..i + 1]) == Val(x[..i]) + p * lx by {
      ValPrefix(x, i);
    }
    assert Val(Take(y, i + 1)) == Val(Take(y, i)) + p * ly by {
      TakeStep(y, i);
    }
    SubStep(Val(pre), borrow, p, lx, ly, d, borrow');
  }

  /** Dividing by a then by b is dividing by a * b. */
  lemma DivDiv(x: int, a: int, b: int)
    requires x >= 0 && a > 0 && b > 0
    ensures (x / a) / b == x / (a * b)
  {
    var q, r := x / a, x % a;
    var q2, r2 := q / b, q % b;
    assert x == a * q + r;
    assert q == b * q2 + r2;
    Distrib(a, b * q2, r2);
    assert x == (a * b) * q2 + (a * r2 + r);
    MulNonneg(a, r2);
    MulNonneg(a, b - 1 - r2);
    Distrib(a, r2, b - 1 - r2);
    assert a * r2 + r < a * b;
    CInt.DivOf(x, a * b, q2, a * r2 + r);
  }

  /** The top limb of a sequence at least Base^(length - 1) is not zero. */
  lemma TopNonzero(s: seq<int>)
    requires IsLimbs(s) && |s| > 0 && Val(s) >= Pow(|s| - 1)
    ensures s[|s| - 1] != 0
  {
    PrefixLimbs(s, |s| - 1);
    ValBounds(s[..|s| - 1]);
  }

  lemma SuffixLimbs(s: seq<int>, i: nat)
    requires IsLimbs(s) && i <= |s|
    ensures IsLimbs(s[i..])
  {
    forall k | 0 <= k < |s| - i ensures 0 <= s[i..][k] < Base { assert s[i..][k] == s[i + k]; }
  }

  /** The limbs from position k up spell no more than the whole. */
  lemma ValGeSuffix(s: seq<int>, k: nat)
    requires IsLimbs(s) && k <= |s|
    ensures 0 <= Val(s[k..]) <= Val(s)
  {
    var lo, hi, p := Val(s[..k]), Val(s[k..]), Pow(k);
    assert Val(s) == lo + p * hi by {
      ValSplit(s, k);
    }
    assert lo >= 0 by {
      PrefixLimbs(s, k);
      ValBounds(s[..k]);
    }
    assert hi >= 0 by {
      SuffixLimbs(s, k);
      ValBounds(s[k..]);
    }
    MulGeSelf(p, hi);
  }

  lemma MulGeSelf(p: int, h: int)
    requires p >= 1 && h >= 0
    ensures p * h >= h
  {
    MulNonneg(p - 1, h);
  }

  lemma MulLe(p: int, u: int, w: int)
    requires p >= 0 && u <= w
    ensures p * u <= p * w
  {
    MulNonneg(p, w - u);
    Distrib(p, u, w - u);
  }

  /** Products of bounded naturals are bounded by the product of the bounds. */
  lemma MulStrict(a: int, b: int, x: int, y: int)
    requires 0 <= a < x && 0 <= b < y
    ensures a * b < x * y
  {
    MulLe(b, a, x - 1);
    assert b * a == a * b;
    MulLe(x, b, y - 1);
    Distrib(x, y - 1, 1);
    Distrib(b, x - 1, 1);
    assert b * (x - 1) < x * y - x + x by {
      MulLe(x - 1, b, y - 1);
      assert (x - 1) * b == b * (x - 1);
      Distrib(x - 1, y - 1, 1);
      Distrib(y, x - 1, 1);
      assert (x - 1) * y == y * (x - 1);
    }
  }

  /** A product of two limbs stays below Base^2 with room for two more limbs. */
  lemma LimbProduct(a: int, b: int)
    requires 0 <= a < Base && 0 <= b < Base
    ensures 0 <= a * b <= (Base - 1) * (Base - 1)
  {
    MulNonneg(a, b);
    MulLe(a, b, Base - 1);
    MulLe(Base - 1, a, Base - 1);
    assert (Base - 1) * a == a * (Base - 1);
  }

  /** Limbs that are all zero spell zero. */
  lemma {:induction false} ValZeros(s: seq<int>)
    requires forall k | 0 <= k < |s| :: s[k] == 0
    ensures Val(s) == 0
    decreases |s|
  {
    if |s| > 0 {
      ValZeros(s[..|s| - 1]);
    }
  }

  /** One step of a row of the schoolbook product, on integers: the block limb sk at weight
      P = pi * pj takes the carry and ai * yj, leaving the limb d and the carry out c'. */
  lemma MulStep(pi: int, pj: int, sk: int, c: int, ai: int, yj: int, t: int, d: int, c': int)
    requires sk + c + ai * yj == d + Base * c'
    ensures (pi * pj) * (d - sk) + c' * (Base * (pi * pj))
            == c * (pi * pj) + ai * (pi * (t + pj * yj)) - ai * (pi * t)
  {
    var p := pi * pj;
    Distrib(p, d - sk, Base * c');
    assert p * (Base * c') == c' * (Base * p);
    Distrib(p, c, ai * yj);
    Distrib(pi, t, pj * yj);
    Distrib(ai, pi * t, pi * (pj * yj));
    assert p * (ai * yj) == ai * (pi * (pj * yj));
  }

  /** One step of a row of the schoolbook product, on the block: limb k becomes d, and the
      carry out moves one position up. */
  lemma MulLimbStep(s: seq<int>, k: nat, y: seq<int>, j: nat, ai: int, pi: int, acc: int,
                    c: int, d: int, c': int)
    requires IsLimbs(s) && k < |s| && 0 <= d < Base && pi * Pow(j) == Pow(k)
    requires s[k] + c + ai * Limb(y, j) == d + Base * c'
    requires Val(s) + c * Pow(k) == acc + ai * (pi * Val(Take(y, j)))
    ensures IsLimbs(s[k := d])
    ensures Val(s[k := d]) + c' * Pow(k + 1) == acc + ai * (pi * Val(Take(y, j + 1)))
  {
    var t := s[k := d];
    assert IsLimbs(t) by {
      forall m | 0 <= m < |t| ensures 0 <= t[m] < Base {
        if m != k {
          assert t[m] == s[m];
        }
      }
    }
    assert Val(s[k := d]) == Val(s) + Pow(k) * (d - s[k]) by {
      ValUpdate(s, k, d);
    }
    assert Val(Take(y, j + 1)) == Val(Take(y, j)) + Pow(j) * Limb(y, j) by {
      TakeStep(y, j);
    }
    assert Pow(k + 1) == Base * Pow(k);
    MulStep(pi, Pow(j), s[k], c, ai, Limb(y, j), Val(Take(y, j)), d, c');
  }

  /** While the row's partial sum stays below Base^n, a carry out of position k leaves room
      above it. */
  lemma MulCarryRoom(v: int, c: int, k: nat, n: nat, below: int, bound: int)
    requires v >= 0 && c >= 1 && v + c * Pow(k) == below && below <= bound < Pow(n)
    ensures k < n
  {
    MulLe(Pow(k), 1, c);
    assert Pow(k) * c == c * Pow(k);
    PowLess(k, n);
  }

  /** A row's carry out of position i + j while the row's total stays below Base^|s| has a
      limb of s to go into. */
  lemma MulRowRoom(s: seq<int>, y: seq<int>, ai: int, i: nat, j: nat, acc: int, carry: int)
    requires IsLimbs(s) && IsLimbs(y) && 0 <= ai && carry >= 1
    requires Val(s) + carry * Pow(i + j) == acc + ai * (Pow(i) * Val(Take(y, j)))
    requires acc + ai * (Pow(i) * Val(y)) < Pow(|s|)
    ensures i + j < |s|
  {
    var ty := Val(Take(y, j));
    assert ty <= Val(y) && 0 <= ty by {
      TakeLe(y, j);
    }
    assert ai * (Pow(i) * ty) <= ai * (Pow(i) * Val(y)) by {
      MulLe(Pow(i), ty, Val(y));
      MulLe(ai, Pow(i) * ty, Pow(i) * Val(y));
    }
    ValBounds(s);
    MulCarryRoom(Val(s), carry, i + j, |s|, acc + ai * (Pow(i) * ty), acc + ai * (Pow(i) * Val(y)));
  }

  /** Adding the next row: the accumulated product over the first i limbs of x plus limb i's row
      is the product over the first i + 1 limbs, and it stays below Base^(i + 1 + |y|). */
  lemma MulRowBound(x: seq<int>, y: seq<int>, i: nat)
    requires IsLimbs(x) && IsLimbs(y) && i < |x|
    ensures Val(x[..i]) * Val(y) + x[i] * (Pow(i) * Val(y)) == Val(x[..i + 1]) * Val(y)
    ensures Val(x[..i + 1]) * Val(y) < Pow(i + 1 + |y|)
  {
    ValPrefix(x, i);
    assert x[i] * (Pow(i) * Val(y)) == (Pow(i) * x[i]) * Val(y);
    Distrib(Val(y), Val(x[..i]), Pow(i) * x[i]);
    assert Val(y) * Val(x[..i]) == Val(x[..i]) * Val(y);
    assert Val(y) * Val(x[..i + 1]) == Val(x[..i + 1]) * Val(y);
    assert Val(y) * (Pow(i) * x[i]) == (Pow(i) * x[i]) * Val(y);
    PrefixLimbs(x, i + 1);
    ValBounds(x[..i + 1]);
    ValBounds(y);
    MulStrict(Val(x[..i + 1]), Val(y), Pow(i + 1), Pow(|y|));
    PowAdd(i + 1, |y|);
  }

  /** A prefix spells no more than the whole. */
  lemma TakeLe(s: seq<int>, i: nat)
    requires IsLimbs(s)
    ensures 0 <= Val(Take(s, i)) <= Val(s)
  {
    if i < |s| {
      ValSplit(s, i);
      PrefixLimbs(s, i);
      ValBounds(s[..i]);
      assert IsLimbs(s[i..]) by {
        forall k | 0 <= k < |s| - i ensures 0 <= s[i..][k] < Base { assert s[i..][k] == s[i + k]; }
      }
      ValBounds(s[i..]);
      MulNonneg(Pow(i), Val(s[i..]));
    } else {
      ValBounds(s);
    }
  }

  // ---------------------------------------------------------------------------------------------
  // Schoolbook addition and subtraction, limb by limb

  /** The carry into position i when x and y are added from the bottom. */
  function CarryIn(x: seq<int>, y: seq<int>, i: nat): int
  {
    if i == 0 then 0 else (CarryIn(x, y, i - 1) + Limb(x, i - 1) + Limb(y, i - 1)) / Base
  }

  /** Limb i of the sum. */
  function SumLimb(x: seq<int>, y: seq<int>, i: nat): int
  {
    (CarryIn(x, y, i) + Limb(x, i) + Limb(y, i)) % Base
  }

  /** The sum's limbs below position n. */
  function SumLimbs(x: seq<int>, y: seq<int>, n: nat): (r: seq<int>)
    ensures |r| == n
  {
    if n == 0 then [] else SumLimbs(x, y, n - 1) + [SumLimb(x, y, n - 1)]
  }

  lemma {:induction false} SumLimbsAt(x: seq<int>, y: seq<int>, n: nat)
    ensures forall k | 0 <= k < n :: SumLimbs(x, y, n)[k] == SumLimb(x, y, k)
  {
    if n > 0 {
      SumLimbsAt(x, y, n - 1);
      assert forall k | 0 <= k < n - 1 :: SumLimbs(x, y, n)[k] == SumLimbs(x, y, n - 1)[k];
    }
  }

  /** The carry is 0 or 1, and it is 0 past the longer operand's top limb. */
  lemma {:induction false} CarryBound(x: seq<int>, y: seq<int>, i: nat)
    requires IsLimbs(x) && IsLimbs(y)
    ensures 0 <= CarryIn(x, y, i) <= 1
    ensures i > |x| && i > |y| ==> CarryIn(x, y, i) == 0
  {
    if i > 0 {
      CarryBound(x, y, i - 1);
    }
  }

  /** The sum's limbs and the carry out of them spell the sum of the operands' low parts. */
  lemma {:induction false} SumLimbsValue(x: seq<int>, y: seq<int>, n: nat)
    requires IsLimbs(x) && IsLimbs(y)
    ensures IsLimbs(SumLimbs(x, y, n))
    ensures Val(SumLimbs(x, y, n)) + CarryIn(x, y, n) * Pow(n) == Val(Take(x, n)) + Val(Take(y, n))
  {
    if n > 0 {
      var i := n - 1;
      var pre := SumLimbs(x, y, i);
      var c := CarryIn(x, y, i);
      assert IsLimbs(pre) && Val(pre) + c * Pow(i) == Val(Take(x, i)) + Val(Take(y, i)) by {
        SumLimbsValue(x, y, i);
      }
      var sum := c + Limb(x, i) + Limb(y, i);
      var d, c' := sum % Base, sum / Base;
      assert SumLimbs(x, y, n) == pre + [d];
      assert CarryIn(x, y, n) == c';
      AddLimbStep(pre, i, x, y, c, d, c');
    } else {
      assert Take(x, 0) == [] && Take(y, 0) == [];
    }
  }

  /** The borrow into position i when y is taken from x from the bottom. */
  function BorrowIn(x: seq<int>, y: seq<int>, i: nat): int
  {
    if i == 0 then 0
    else if Limb(x, i - 1) - BorrowIn(x, y, i - 1) - Limb(y, i - 1) < 0 then 1
    else 0
  }

  /** Limb i of the difference. */
  function DiffLimb(x: seq<int>, y: seq<int>, i: nat): int
  {
    var d := Limb(x, i) - BorrowIn(x, y, i) - Limb(y, i);
    if d < 0 then d + Base else d
  }

  function DiffLimbs(x: seq<int>, y: seq<int>, n: nat): (r: seq<int>)
    ensures |r| == n
  {
    if n == 0 then [] else DiffLimbs(x, y, n - 1) + [DiffLimb(x, y, n - 1)]
  }

  lemma {:induction false} DiffLimbsAt(x: seq<int>, y: seq<int>, n: nat)
    ensures forall k | 0 <= k < n :: DiffLimbs(x, y, n)[k] == DiffLimb(x, y, k)
  {
    if n > 0 {
      DiffLimbsAt(x, y, n - 1);
      assert forall k | 0 <= k < n - 1 :: DiffLimbs(x, y, n)[k] == DiffLimbs(x, y, n - 1)[k];
    }
  }

  /** The difference's limbs less the borrow out of them spell the difference of the low parts. */
  /** Limb i of the difference and the borrow out of it, when the borrow in is 0 or 1. */
  lemma DiffLimbFacts(x: seq<int>, y: seq<int>, i: nat)
    requires IsLimbs(x) && IsLimbs(y) && i < |x|
    requires BorrowIn(x, y, i) == 0 || BorrowIn(x, y, i) == 1
    ensures BorrowIn(x, y, i + 1) == 0 || BorrowIn(x, y, i + 1) == 1
    ensures 0 <= DiffLimb(x, y, i) < Base
    ensures DiffLimb(x, y, i) == x[i] - BorrowIn(x, y, i) - Limb(y, i) + Base * BorrowIn(x, y, i + 1)
  {
    assert 0 <= Limb(y, i) < Base;
  }

  lemma {:induction false} DiffLimbsValue(x: seq<int>, y: seq<int>, n: nat)
    requires IsLimbs(x) && IsLimbs(y) && n <= |x|
    ensures BorrowIn(x, y, n) == 0 || BorrowIn(x, y, n) == 1
    ensures IsLimbs(DiffLimbs(x, y, n))
    ensures Val(DiffLimbs(x, y, n)) - BorrowIn(x, y, n) * Pow(n) == Val(x[..n]) - Val(Take(y, n))
  {
    if n > 0 {
      var i := n - 1;
      var pre := DiffLimbs(x, y, i);
      var b := BorrowIn(x, y, i);
      assert IsLimbs(pre) && (b == 0 || b == 1) by {
        DiffLimbsValue(x, y, i);
      }
      assert Val(pre) - b * Pow(i) == Val(x[..i]) - Val(Take(y, i)) by {
        DiffLimbsValue(x, y, i);
      }
      DiffLimbFacts(x, y, i);
      var d := DiffLimb(x, y, i);
      var b' := BorrowIn(x, y, i + 1);
      assert DiffLimbs(x, y, n) == pre + [d];
      SubLimbStep(pre, i, x, y, b, d, b');
    } else {
      assert x[..0] == [] && Take(y, 0) == [];
    }
  }

  /** Limbs equal to the sum's limbs up to where the carry runs out spell the sum. */
  lemma SumLimbsSpell(x: seq<int>, y: seq<int>, d: seq<int>)
    requires IsLimbs(x) && IsLimbs(y) && |x| <= |d| && |y| <= |d| && CarryIn(x, y, |d|) == 0
    requires forall k | 0 <= k < |d| :: d[k] == SumLimb(x, y, k)
    ensures IsLimbs(d) && Val(d) == Val(x) + Val(y)
  {
    SumLimbsAt(x, y, |d|);
    assert d == SumLimbs(x, y, |d|);
    SumLimbsValue(x, y, |d|);
    assert Take(x, |d|) == x && Take(y, |d|) == y;
  }

  /** Limbs equal to the difference's limbs over the length of the larger operand spell the
      difference. */
  lemma DiffLimbsSpell(x: seq<int>, y: seq<int>, d: seq<int>)
    requires IsLimbs(x) && IsLimbs(y) && |y| <= |x| == |d| && Val(y) <= Val(x)
    requires forall k | 0 <= k < |d| :: d[k] == DiffLimb(x, y, k)
    ensures IsLimbs(d) && Val(d) == Val(x) - Val(y)
  {
    var n := |x|;
    var b := BorrowIn(x, y, n);
    assert d == DiffLimbs(x, y, n) by {
      DiffLimbsAt(x, y, n);
    }
    assert x[..n] == x && Take(y, n) == y;
    assert IsLimbs(d) && (b == 0 || b == 1) && Val(d) - b * Pow(n) == Val(x) - Val(y) by {
      DiffLimbsValue(x, y, n);
    }
    ValBounds(d);
    NoBorrowOut(Val(d), b, Pow(n), Val(x) - Val(y));
  }

  /** A final borrow of 1 would make the difference negative. */
  lemma NoBorrowOut(v: int, b: int, p: int, diff: int)
    requires (b == 0 || b == 1) && v < p && v - b * p == diff && diff >= 0
    ensures v == diff
  {
  }

  // ---------------------------------------------------------------------------------------------
  // The canonical limbs of a natural number

  function ToLimbs(n: nat): seq<int>
    decreases n
  {
    if n == 0 then [] else [n % Base] + ToLimbs(n / Base)
  }

  lemma {:induction false} ToLimbsSpec(n: nat)
    ensures Normalized(ToLimbs(n)) && Val(ToLimbs(n)) == n
    decreases n
  {
    if n > 0 {
      var t := ToLimbs(n / Base);
      ToLimbsSpec(n / Base);
      var r := [n % Base] + t;
      ValCons(n % Base, t);
      assert IsLimbs(r) by {
        forall i | 0 <= i < |r| ensures 0 <= r[i] < Base {
          if i > 0 { assert r[i] == t[i - 1]; }
        }
      }
      if t == [] {
        assert n / Base == 0;
      } else {
        assert r[|r| - 1] == t[|t| - 1];
      }
    }
  }

  /** Normalized limbs are the canonical limbs of their value: the representation is unique. */
  lemma {:induction false} ToLimbsUnique(s: seq<int>)
    requires Normalized(s)
    ensures Val(s) >= 0 && ToLimbs(Val(s)) == s
    decreases |s|
  {
    if |s| > 0 {
      var rest := s[1..];
      assert s == [s[0]] + rest;
      ValCons(s[0], rest);
      assert Normalized(rest) by {
        forall i | 0 <= i < |rest| ensures 0 <= rest[i] < Base { assert rest[i] == s[i + 1]; }
      }
      ValBounds(rest);
      ValTop(s);
      ToLimbsUnique(rest);
      CInt.DivOf(Val(s), Base, Val(rest), s[0]);
    }
  }

  // ---------------------------------------------------------------------------------------------
  // Signed numbers

  /** An rt_int's sign and used limbs, as a value. */
  datatype Num = Num(sign: int, limbs: seq<int>)

  function SignedVal(sign: int, s: seq<int>): int
  {
    if sign == 0 then 0 else if sign > 0 then Val(s) else -Val(s)
  }

  /** The representation invariant (runtime/runtime.h:44-49). */
  predicate NumValid(n: Num)
  {
    Normalized(n.limbs) && -1 <= n.sign <= 1 && (n.sign == 0 <==> |n.limbs| == 0)
  }

  function NumValue(n: Num): int
  {
    SignedVal(n.sign, n.limbs)
  }

  function Sign(v: int): int
  {
    if v < 0 then -1 else if v == 0 then 0 else 1
  }

  /** The canonical representation of an integer. */
  function FromInt(v: int): Num
  {
    Num(Sign(v), ToLimbs(CInt.Abs(v)))
  }

  /** The sign of a valid number is the sign of its value, and its limbs spell the magnitude. */
  lemma ValueSign(n: Num)
    requires NumValid(n)
    ensures Sign(NumValue(n)) == n.sign
    ensures CInt.Abs(NumValue(n)) == Val(n.limbs)
  {
    ValBounds(n.limbs);
    if n.sign != 0 {
      ValTop(n.limbs);
    }
  }

  lemma ValueOfFromInt(v: int)
    ensures NumValid(FromInt(v)) && NumValue(FromInt(v)) == v
  {
    ToLimbsSpec(CInt.Abs(v));
  }

  /** Valid numbers with the same value have the same representation. */
  lemma FromIntOfValue(n: Num)
    requires NumValid(n)
    ensures FromInt(NumValue(n)) == n
  {
    ValueSign(n);
    ToLimbsUnique(n.limbs);
  }

  /** The product of two nonzero numbers' values is the product of their signs times limbs
      spelling the product of their magnitudes. */
  lemma SignedProduct(a: Num, b: Num, p: seq<int>)
    requires NumValid(a) && NumValid(b) && a.sign != 0 && b.sign != 0
    requires Val(p) == Val(a.limbs) * Val(b.limbs)
    ensures SignedVal(a.sign * b.sign, p) == NumValue(a) * NumValue(b)
  {
    var x, y := Val(a.limbs), Val(b.limbs);
    var sa, sb := a.sign, b.sign;
    assert NumValue(a) == (if sa > 0 then x else -x);
    assert NumValue(b) == (if sb > 0 then y else -y);
    assert sa * sb == 1 || sa * sb == -1;
    assert SignedVal(sa * sb, p) == (if sa * sb > 0 then Val(p) else -Val(p));
    SignProduct(sa, sb, x, y);
  }

  /** The arithmetic of SignedProduct, on integers. */
  lemma SignProduct(sa: int, sb: int, x: int, y: int)
    requires (sa == 1 || sa == -1) && (sb == 1 || sb == -1)
    ensures (if sa * sb > 0 then x * y else -(x * y)) == (if sa > 0 then x else -x) * (if sb > 0 then y else -y)
  {
    if sa == 1 && sb == -1 {
      assert x * (-y) == -(x * y);
    } else if sa == -1 && sb == 1 {
      assert (-x) * y == -(x * y);
    } else if sa == -1 {
      assert (-x) * (-y) == x * y;
    }
  }

  /** The range check of runtime/runtime.c:526-550, shared by both runtimes' exact conversion:
      the limbs are accumulated from the top into an unsigned 64-bit value, refusing as soon as a
      step would overflow it, and the result must then fit the sign's int64_t range. */
  method CheckedInt64(a: Num) returns (ok: bool, v: int)
    requires NumValid(a)
    ensures ok <==> CInt.InInt64(NumValue(a))
    ensures ok ==> v == NumValue(a)
  {
    ValueSign(a);
    if a.sign == 0 || |a.limbs| == 0 {
      return true, 0;
    }
    var s := a.limbs;
    var acc := 0;
    var i := |s|;
    while i > 0
      invariant 0 <= i <= |s| && acc == Val(s[i..]) && 0 <= acc <= CInt.UInt64Max
    {
      var limb := s[i - 1];
      ValSuffix(s, i);
      if acc > CInt.UInt64Max / Base {
        ValGeSuffix(s, i - 1);
        return false, 0;
      }
      acc := acc * Base;
      if acc > CInt.UInt64Max - limb {
        ValGeSuffix(s, i - 1);
        return false, 0;
      }
      acc := acc + limb;
      i := i - 1;
    }
    assert s[0..] == s;
    if a.sign > 0 {
      if acc > CInt.Int64Max {
        return false, 0;
      }
      return true, acc;
    }
    if acc > CInt.Int64Max + 1 {
      return false, 0;
    }
    if acc == CInt.Int64Max + 1 {
      return true, CInt.Int64Min;
    }
    return true, -acc;
  }
}
