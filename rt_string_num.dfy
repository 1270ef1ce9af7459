/** The string-to-integer conversions of the modular runtime (runtime/rt_string_ex.c:367-407):
    the text is trimmed of whitespace, an empty result is refused, and what is left goes through
    rt_int_from_dec, and for the int64_t form on through rt_int_to_si_checked.

    The `out` pointers are never NULL here (the RT_CHECK_NULL guards are not modelled); the
    trimmed copy and the scratch number are released on every path, which leaves nothing to
    model. */
module RtStringNum {
  import opened Wrappers
  import RtError
  import CInt
  import Decimal
  import opened Limbs
  import opened RtString
  import opened RtStringEx
  import B = RtBigint

  const EmptyInteger: string := "Empty string cannot be parsed as integer"

  lemma EmptyIntegerStored()
    ensures RtError.StoredMessage(EmptyInteger) == EmptyInteger
  {
    RtError.CStringNoNul(EmptyInteger);
  }

  /** What both conversions parse: the characters with leading and trailing whitespace gone. */
  function Trimmed(s: Str): (t: seq<char>)
    ensures |t| <= |Text(s)|
  {
    TrimRight(TrimLeft(Text(s)))
  }

  /** rt_str_to_int: RT_ERROR_INVALID with its message when only whitespace is there, leaving
      the number alone; otherwise whatever rt_int_from_dec makes of the trimmed text up to its
      first NUL, its error included. */
  method StrToInt(s: Str, out: B.BigInt, err: RtError.ErrorState) returns (code: int)
    requires StrValid(s) && out.len <= out.digits.Length
    modifies out, out.digits, err
    ensures code == RtError.Success || code == RtError.Invalid
    ensures Trimmed(s) == [] ==>
      code == RtError.Invalid && err.code == RtError.Invalid && err.message == EmptyInteger
      && err.file == Some("rt_string_ex.c") && err.line == 374 && unchanged(out) && unchanged(out.digits)
    ensures Trimmed(s) != [] ==>
      (code == RtError.Invalid <==> B.DecParse(RtError.CString(Trimmed(s))).None?)
    ensures Trimmed(s) != [] && code == RtError.Invalid ==>
      err.code == RtError.Invalid && err.message == B.InvalidDecimal
    ensures Trimmed(s) != [] && code == RtError.Success ==>
      out.Valid() && out.Value() == B.DecParse(RtError.CString(Trimmed(s))).value && unchanged(err)
  {
    var trimmed := Trim(s);
    if trimmed.len == 0 {
      err.Set(RtError.Invalid, Some(EmptyInteger), Some("rt_string_ex.c"), 374);
      EmptyIntegerStored();
      return RtError.Invalid;
    }
    code := out.FromDec(Text(trimmed), err);
  }

  /** rt_str_to_si: the same refusals as rt_str_to_int; then the parsed number in a fresh
      scratch rt_int handed to rt_int_to_si_checked, which as written refuses every value of
      three limbs or more (|value| >= 10^18) with RT_ERROR_OVERFLOW, without recording it. */
  method StrToSi(s: Str, err: RtError.ErrorState) returns (code: int, out: int)
    requires StrValid(s)
    modifies err
    ensures code == RtError.Success || code == RtError.Invalid || code == RtError.Overflow
    ensures Trimmed(s) == [] ==>
      code == RtError.Invalid && err.code == RtError.Invalid && err.message == EmptyInteger
      && err.file == Some("rt_string_ex.c") && err.line == 392
    ensures Trimmed(s) != [] && B.DecParse(RtError.CString(Trimmed(s))).None? ==>
      code == RtError.Invalid && err.code == RtError.Invalid && err.message == B.InvalidDecimal
    ensures Trimmed(s) != [] && B.DecParse(RtError.CString(Trimmed(s))).Some? ==>
      var v := B.DecParse(RtError.CString(Trimmed(s))).value;
      (code == RtError.Success <==> CInt.Abs(v) < Pow(2))
      && (code != RtError.Success ==> code == RtError.Overflow)
      && (code == RtError.Success ==> out == v)
      && unchanged(err)
  {
    var trimmed := Trim(s);
    if trimmed.len == 0 {
      err.Set(RtError.Invalid, Some(EmptyInteger), Some("rt_string_ex.c"), 392);
      EmptyIntegerStored();
      return RtError.Invalid, 0;
    }
    var temp := new B.BigInt();
    code := temp.FromDec(Text(trimmed), err);
    if code != RtError.Success {
      return code, 0;
    }
    code, out := B.ToSiCheckedAsWritten(temp.Snap());
  }

  // ==================== Reading back what rt_str_from_si writes ====================

  /** Whitespace in front is dropped by the left trim. */
  lemma {:induction false} TrimLeftPadding(pre: seq<char>, x: seq<char>)
    requires forall i | 0 <= i < |pre| :: IsSpace(pre[i])
    requires x != [] && !IsSpace(x[0])
    ensures TrimLeft(pre + x) == x
    decreases |pre|
  {
    if pre == [] {
      assert pre + x == x;
    } else {
      var px := pre + x;
      assert px[0] == pre[0] && px[1..] == pre[1..] + x;
      assert TrimLeft(px) == TrimLeft(px[1..]);
      TrimLeftPadding(pre[1..], x);
    }
  }

  /** Whitespace behind is dropped by the right trim. */
  lemma {:induction false} TrimRightPadding(x: seq<char>, post: seq<char>)
    requires forall i | 0 <= i < |post| :: IsSpace(post[i])
    requires x != [] && !IsSpace(x[|x| - 1])
    ensures TrimRight(x + post) == x
    decreases |post|
  {
    if post == [] {
      assert x + post == x;
    } else {
      var xp := x + post;
      assert xp[|xp| - 1] == post[|post| - 1] && xp[..|xp| - 1] == x + post[..|post| - 1];
      assert TrimRight(xp) == TrimRight(xp[..|xp| - 1]);
      TrimRightPadding(x, post[..|post| - 1]);
    }
  }

  /** The decimal text of any integer, with any whitespace around it, reads back as that
      integer: the trim leaves exactly the text, which has no NUL and which rt_int_from_dec
      parses to the integer. */
  lemma PaddedIntegerReadsBack(n: int, pre: seq<char>, post: seq<char>)
    requires forall i | 0 <= i < |pre| :: IsSpace(pre[i])
    requires forall i | 0 <= i < |post| :: IsSpace(post[i])
    ensures TrimRight(TrimLeft(pre + Decimal.IntToString(n) + post)) == Decimal.IntToString(n)
    ensures B.DecParse(RtError.CString(Decimal.IntToString(n))) == Some(n)
  {
    var t := Decimal.IntToString(n);
    IntTextShape(n);
    ConcatAssoc(pre, t, post);
    TrimLeftPadding(pre, t + post);
    TrimRightPadding(t, post);
    RtError.CStringNoNul(t);
    B.DecParseRoundTrip(n);
  }

  /** The text of an integer starts with '-' or a digit, ends with a digit and has no NUL. */
  lemma IntTextShape(n: int)
    ensures var t := Decimal.IntToString(n);
      t != [] && !IsSpace(t[0]) && !IsSpace(t[|t| - 1]) && '\0' !in t
  {
    var m := if n < 0 then -n else n;
    var d := Decimal.NatToString(m);
    var t := Decimal.IntToString(n);
    Decimal.NatToStringShape(m);
    assert t == (if n < 0 then "-" else "") + d;
    assert t[|t| - 1] == d[|d| - 1];
    assert forall i | 0 <= i < |t| :: t[i] == '-' || Decimal.IsDigit(t[i]);
  }

  lemma ConcatAssoc(a: seq<char>, b: seq<char>, c: seq<char>)
    ensures a + b + c == a + (b + c)
  {
  }

  /** So rt_str_to_int returns RT_OK with the integer for any such text, and rt_str_to_si does
      so for the integers below 10^18 in magnitude: its result for a padded decimal text. */
  lemma {:induction false} PaddedIntegerTrimmed(n: int, pre: seq<char>, post: seq<char>, s: Str)
    requires StrValid(s) && Text(s) == pre + Decimal.IntToString(n) + post
    requires forall i | 0 <= i < |pre| :: IsSpace(pre[i])
    requires forall i | 0 <= i < |post| :: IsSpace(post[i])
    ensures Trimmed(s) != [] && B.DecParse(RtError.CString(Trimmed(s))) == Some(n)
  {
    PaddedIntegerReadsBack(n, pre, post);
    Decimal.NatToStringShape(if n < 0 then -n else n);
  }
}
