/** The single-file runtime's strings (runtime/runtime.c:45-114, runtime/runtime.h:10-29).

    An `rt_str` is a length and a data pointer passed by value; `Str` is that struct, its `data`
    the block's first `len` bytes (the NUL after them is implicit), or None for the NULL pointer
    of rt_str_null.  A C string argument is an optional sequence of characters (None for NULL)
    read up to its first NUL.  Characters stand for bytes, and memcmp compares them as unsigned
    bytes by their code; allocation always succeeds. */
module RuntimeStr {
  import opened Wrappers
  import RtError
  import Decimal
  import RuntimeInt

  datatype Str = Str(len: nat, data: Option<seq<char>>)

  /** The shapes the runtime builds: no block only for the empty rt_str_null, and otherwise
      exactly len bytes before the NUL. */
  ghost predicate StrValid(s: Str)
  {
    (s.data.None? ==> s.len == 0) && (s.data.Some? ==> |s.data.value| == s.len)
  }

  /** The string's characters. */
  function Text(s: Str): (t: seq<char>)
    ensures StrValid(s) ==> |t| == s.len
  {
    if s.data.None? then [] else s.data.value
  }

  /** rt_str_null. */
  const Null := Str(0, None)

  /** rt_str_from_cstr: the empty string without a block for NULL; otherwise a block holding
      the characters up to the NUL, also for "". */
  function FromCStr(cstr: Option<seq<char>>): (r: Str)
    ensures StrValid(r)
    ensures cstr.None? <==> r == Null
    ensures cstr.Some? ==> r.data.Some? && Text(r) == RtError.CString(cstr.value) && '\0' !in Text(r)
  {
    if cstr.None? then Null
    else
      var t := RtError.CString(cstr.value);
      Str(|t|, Some(t))
  }

  /** rt_str_concat: a's bytes, then b's, in a fresh block of a.len + b.len bytes. */
  function Concat(a: Str, b: Str): (r: Str)
    requires StrValid(a) && StrValid(b)
    ensures StrValid(r) && r.data.Some?
    ensures r.len == a.len + b.len && Text(r)[..a.len] == Text(a) && Text(r)[a.len..] == Text(b)
  {
    Str(a.len + b.len, Some(Text(a) + Text(b)))
  }

  /** Concatenation is associative in the characters it produces, and "" is its identity. */
  lemma ConcatLaws(a: Str, b: Str, c: Str)
    requires StrValid(a) && StrValid(b) && StrValid(c)
    ensures Text(Concat(Concat(a, b), c)) == Text(Concat(a, Concat(b, c)))
    ensures Text(Concat(a, FromCStr(Some("")))) == Text(a) && Text(Concat(FromCStr(Some("")), a)) == Text(a)
  {
    var ab, bc := Concat(a, b), Concat(b, c);
    assert Text(ab) == Text(a) + Text(b) by {
      assert Text(ab) == Text(ab)[..a.len] + Text(ab)[a.len..];
    }
    assert Text(bc) == Text(b) + Text(c) by {
      assert Text(bc) == Text(bc)[..b.len] + Text(bc)[b.len..];
    }
    var l, r := Concat(ab, c), Concat(a, bc);
    assert Text(l) == Text(ab) + Text(c) by {
      assert Text(l) == Text(l)[..ab.len] + Text(l)[ab.len..];
    }
    assert Text(r) == Text(a) + Text(bc) by {
      assert Text(r) == Text(r)[..a.len] + Text(r)[a.len..];
    }
    var e := FromCStr(Some(""));
    assert Text(e) == [];
    var ae, ea := Concat(a, e), Concat(e, a);
    assert Text(ae) == Text(ae)[..a.len];
    assert Text(ea) == Text(ea)[0..];
  }

  /** memcmp over n bytes: the sign of the first difference, as unsigned bytes. */
  function MemCmp(x: seq<char>, y: seq<char>): (r: int)
    requires |x| == |y|
    ensures r == -1 || r == 0 || r == 1
    ensures r == 0 <==> x == y
    ensures r != 0 ==> exists i :: 0 <= i < |x| && x[..i] == y[..i] && x[i] != y[i]
                                   && (r < 0 <==> (x[i] as int) < (y[i] as int))
    decreases |x|
  {
    if |x| == 0 then 0
    else if x[0] != y[0] then
      assert x[..0] == y[..0];
      if (x[0] as int) < (y[0] as int) then -1 else 1
    else
      var r := MemCmp(x[1..], y[1..]);
      if r != 0 then
        var i :| 0 <= i < |x| - 1 && x[1..][..i] == y[1..][..i] && x[1..][i] != y[1..][i]
                && (r < 0 <==> (x[1..][i] as int) < (y[1..][i] as int));
        assert x[..i + 1] == [x[0]] + x[1..][..i] && y[..i + 1] == [y[0]] + y[1..][..i];
        r
      else
        assert x == [x[0]] + x[1..] && y == [y[0]] + y[1..];
        r
  }

  /** rt_str_eq, which despite its name returns 0 for equal strings: 1 for different lengths,
      0 for two empty strings, and memcmp's result otherwise. */
  function Eq(a: Str, b: Str): (r: int)
    requires StrValid(a) && StrValid(b)
    ensures a.len != b.len ==> r == 1
    ensures r == 0 <==> Text(a) == Text(b)
    ensures a.len == b.len && r != 0 ==> r == MemCmp(Text(a), Text(b))
  {
    if a.len != b.len then 1
    else if a.len == 0 then 0
    else MemCmp(Text(a), Text(b))
  }

  /** The comparison is symmetric only as far as equality goes: with equal lengths swapping
      the operands negates the memcmp sign, but different lengths give 1 either way. */
  lemma {:induction false} EqSwapped(a: Str, b: Str)
    requires StrValid(a) && StrValid(b)
    ensures Eq(b, a) == if a.len != b.len then 1 else -Eq(a, b)
  {
    if a.len == b.len && a.len > 0 {
      MemCmpSwapped(Text(a), Text(b));
    }
  }

  lemma {:induction false} MemCmpSwapped(x: seq<char>, y: seq<char>)
    requires |x| == |y|
    ensures MemCmp(y, x) == -MemCmp(x, y)
    decreases |x|
  {
    if |x| > 0 && x[0] == y[0] {
      MemCmpSwapped(x[1..], y[1..]);
    }
  }

  /** A string built by rt_str_concat compares equal to the one built from the joined text. */
  lemma ConcatEqFromCStr(a: Str, b: Str)
    requires StrValid(a) && StrValid(b) && '\0' !in Text(a) + Text(b)
    ensures Eq(Concat(a, b), FromCStr(Some(Text(a) + Text(b)))) == 0
  {
    var c := Concat(a, b);
    assert Text(c) == Text(c)[..a.len] + Text(c)[a.len..];
    RtError.CStringNoNul(Text(a) + Text(b));
  }

  /** rt_str_free through a possibly NULL pointer: nothing for NULL, otherwise the block
      released and the pointee reset to rt_str_null. */
  function Free(p: Option<Str>): (r: Option<Str>)
    ensures p.None? ==> r.None?
    ensures p.Some? ==> r == Some(Null) && StrValid(r.value) && Text(r.value) == []
  {
    if p.None? then None else Some(Null)
  }

  /** rt_str_len into a non-NULL out: 0 for a NULL string; otherwise its length, set directly
      when it fits in a long long and read back from its decimal text when it does not. */
  method Len(out: RuntimeInt.RtInt, s: Option<Str>)
    requires out.len <= out.digits.Length
    modifies out, out.digits
    ensures out.Valid() && out.Value() == if s.None? then 0 else s.value.len
  {
    if s.None? {
      out.SetSi(0);
      return;
    }
    var n := s.value.len;
    if n > 0x7fff_ffff_ffff_ffff {
      var buf := Decimal.NatToString(n);
      LengthText(n);
      var code := out.FromDec(Some(buf));
      return;
    }
    out.SetSi(n);
  }

  /** The decimal text of a length has no NUL and reads back as that length. */
  lemma LengthText(n: nat)
    ensures RuntimeInt.DecText(Some(Decimal.NatToString(n))) == Some(n)
  {
    Decimal.NatToStringShape(n);
    var t := Decimal.NatToString(n);
    RtError.CStringNoNul(t);
    RuntimeInt.DecValueRoundTrip(n);
    assert Decimal.IntToString(n) == t;
  }
}
