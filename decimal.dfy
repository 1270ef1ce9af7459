/** Decimal text of integers, as Python's `str(n)` / f-string formatting and C's `%d` print them.
    The compiler builds temp names (`pcc_tmp_3`), labels (`while_start_7`), literals (`42LL`) and
    error messages (`Line 4: ...`) from it, so its injectivity is what makes generated names unique. */
module Decimal {

  predicate IsDigit(c: char) { '0' <= c <= '9' }

  predicate AllDigits(s: string) { forall i :: 0 <= i < |s| ==> IsDigit(s[i]) }

  function DigitChar(d: nat): (c: char)
    requires d < 10
    ensures IsDigit(c)
  {
    ['0', '1', '2', '3', '4', '5', '6', '7', '8', '9'][d]
  }

  function DigitValue(c: char): (d: nat)
    requires IsDigit(c)
    ensures d < 10
  {
    (c as int - '0' as int) as nat
  }

  /** The shortest decimal text of n: no sign, no leading zero except for n == 0. */
  function NatToString(n: nat): (s: string)
    decreases n
  {
    if n < 10 then [DigitChar(n)] else NatToString(n / 10) + [DigitChar(n % 10)]
  }

  /** Python `str(i)` for an int: a minus sign for negative values. */
  function IntToString(i: int): (s: string)
  {
    if i < 0 then "-" + NatToString(-i) else NatToString(i)
  }

  /** Reads back a run of decimal digits (the inverse of NatToString). */
  function ParseDigits(s: string): (n: nat)
    requires AllDigits(s)
    decreases |s|
  {
    if s == [] then 0 else 10 * ParseDigits(s[..|s| - 1]) + DigitValue(s[|s| - 1])
  }

  lemma DigitRoundTrip(d: nat)
    requires d < 10
    ensures DigitValue(DigitChar(d)) == d
  {
  }

  lemma {:induction false} NatToStringShape(n: nat)
    ensures |NatToString(n)| >= 1 && AllDigits(NatToString(n))
    ensures |NatToString(n)| > 1 ==> NatToString(n)[0] != '0'
    ensures n < 10 <==> |NatToString(n)| == 1
    decreases n
  {
    if n >= 10 {
      NatToStringShape(n / 10);
      var s := NatToString(n / 10);
      assert NatToString(n) == s + [DigitChar(n % 10)];
      assert NatToString(n)[0] == s[0];
    }
  }

  lemma {:induction false} NatToStringRoundTrip(n: nat)
    ensures AllDigits(NatToString(n))
    ensures ParseDigits(NatToString(n)) == n
    decreases n
  {
    NatToStringShape(n);
    var s := NatToString(n);
    if n < 10 {
      DigitRoundTrip(n);
    } else {
      NatToStringRoundTrip(n / 10);
      DigitRoundTrip(n % 10);
      assert s[..|s| - 1] == NatToString(n / 10);
    }
  }

  /** Distinct numbers have distinct decimal texts. */
  lemma NatToStringInjective(a: nat, b: nat)
    ensures NatToString(a) == NatToString(b) <==> a == b
  {
    if NatToString(a) == NatToString(b) {
      NatToStringRoundTrip(a);
      NatToStringRoundTrip(b);
    }
  }

  lemma IntToStringInjective(a: int, b: int)
    ensures IntToString(a) == IntToString(b) <==> a == b
  {
    if IntToString(a) == IntToString(b) {
      NatToStringShape(if a < 0 then -a else a);
      NatToStringShape(if b < 0 then -b else b);
      if a < 0 && b < 0 {
        assert NatToString(-a) == IntToString(a)[1..];
        assert NatToString(-b) == IntToString(b)[1..];
        NatToStringInjective(-a, -b);
      } else if a >= 0 && b >= 0 {
        NatToStringInjective(a, b);
      }
    }
  }

  /** The end of the run of decimal digits that starts at i. */
  function DigitsEnd(t: string, i: nat): (j: nat)
    requires i <= |t|
    ensures i <= j <= |t| && (j < |t| ==> !IsDigit(t[j]))
    decreases |t| - i
  {
    if i < |t| && IsDigit(t[i]) then DigitsEnd(t, i + 1) else i
  }

  lemma {:induction false} DigitsEndTo(t: string, i: nat, j: nat)
    requires i <= j <= |t| && (forall k | i <= k < j :: IsDigit(t[k])) && (j < |t| ==> !IsDigit(t[j]))
    ensures DigitsEnd(t, i) == j
    decreases j - i
  {
    if i < j {
      DigitsEndTo(t, i + 1, j);
    }
  }

  lemma {:induction false} DigitsEndOver(t: string, i: nat)
    requires i <= |t|
    ensures forall k | i <= k < DigitsEnd(t, i) :: IsDigit(t[k])
    decreases |t| - i
  {
    if i < |t| && DigitsEnd(t, i) != i {
      DigitsEndOver(t, i + 1);
    }
  }

  /** A stretch inside a run of digits is all digits. */
  lemma DigitRun(t: string, z: nat, e: nat)
    requires z <= e <= |t| && forall k | z <= k < e :: IsDigit(t[k])
    ensures AllDigits(t[z..e])
  {
    forall k | 0 <= k < e - z ensures IsDigit(t[z..e][k]) {
      assert t[z..e][k] == t[z + k];
    }
  }

  /** A text whose stretch from i to j is all digits has a digit at every position there. */
  lemma DigitsRange(t: string, i: nat, j: nat)
    requires i <= j <= |t| && AllDigits(t[i..j])
    ensures forall k | i <= k < j :: IsDigit(t[k])
  {
    forall k | i <= k < j ensures IsDigit(t[k]) {
      assert t[k] == t[i..j][k - i];
    }
  }

  /** Reading one more digit of the run multiplies by ten and adds it. */
  lemma DigitsNext(t: string, z: nat, p: nat)
    requires z <= p < |t| && p < DigitsEnd(t, z) && AllDigits(t[z..p])
    ensures IsDigit(t[p]) && AllDigits(t[z..p + 1])
    ensures ParseDigits(t[z..p + 1]) == 10 * ParseDigits(t[z..p]) + DigitValue(t[p])
  {
    DigitsEndOver(t, z);
    DigitRun(t, z, p + 1);
    assert t[z..p + 1][..p - z] == t[z..p];
  }
}
