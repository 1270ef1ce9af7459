/** The modular runtime's string (runtime/rt_string.c, runtime/rt_string.h): `rt_str` holds a
    length, a capacity and a heap block that is NULL for the empty string.

    `Str` is the struct as a value, the way `rt_str_from_cstr` and `rt_str_concat` return it and
    the dict stores it; its `data` is the block's first `len` bytes.  `StrRef` is an `rt_str*`
    whose pointee the in-place operations update.  A C string argument is an optional sequence of
    characters (None for NULL) read up to its first NUL. */
module RtString {
  import opened Wrappers
  import RtError
  import Growth

  /** RT_STR_INITIAL_CAPACITY. */
  const InitialCapacity: nat := 16

  datatype Str = Str(len: nat, cap: nat, data: Option<seq<char>>)

  /** The shapes the runtime keeps: no block for capacity 0, and room for the NUL otherwise. */
  ghost predicate StrValid(s: Str) {
    && (s.data.None? <==> s.cap == 0)
    && (s.data.None? ==> s.len == 0)
    && (s.data.Some? ==> |s.data.value| == s.len && s.len < s.cap)
  }

  /** The string's characters. */
  function Text(s: Str): (t: seq<char>)
    ensures StrValid(s) ==> |t| == s.len
  {
    if s.data.None? then [] else s.data.value
  }

  /** rt_str_null and the state rt_str_init leaves. */
  const Empty := Str(0, 0, None)

  /** The characters of a C string argument. */
  function CChars(cstr: Option<seq<char>>): (t: seq<char>)
    ensures '\0' !in t
  {
    if cstr.None? then [] else RtError.CString(cstr.value)
  }

  /** rt_str_from_cstr: NULL and "" give the empty string without a block; otherwise the bytes
      up to the NUL, with capacity for the NUL. */
  function FromCStr(cstr: Option<seq<char>>): (r: Str)
    ensures StrValid(r) && Text(r) == CChars(cstr)
    ensures CChars(cstr) == [] ==> r == Empty
    ensures CChars(cstr) != [] ==> r.cap == r.len + 1
  {
    var t := CChars(cstr);
    if t == [] then Empty else Str(|t|, |t| + 1, Some(t))
  }

  /** rt_str_concat: a's characters followed by b's in a fresh block sized exactly; an empty
      total gives the empty string. */
  function Concat(a: Str, b: Str): (r: Str)
    requires StrValid(a) && StrValid(b)
    ensures StrValid(r) && r.len == a.len + b.len
    ensures Text(r) == Text(a) + Text(b)
    ensures r.len == 0 ==> r == Empty
    ensures r.len > 0 ==> r.cap == r.len + 1
  {
    var total := a.len + b.len;
    if total == 0 then Empty else Str(total, total + 1, Some(Text(a) + Text(b)))
  }

  /** Concatenation is associative on the characters, with the empty string as unit. */
  lemma ConcatMonoid(a: Str, b: Str, c: Str)
    requires StrValid(a) && StrValid(b) && StrValid(c)
    ensures Text(Concat(Concat(a, b), c)) == Text(Concat(a, Concat(b, c)))
    ensures Text(Concat(Empty, a)) == Text(a) == Text(Concat(a, Empty))
  {
    assert Text(a) + Text(b) + Text(c) == Text(a) + (Text(b) + Text(c));
  }

  /** Building a string from its own characters gives those characters back. */
  lemma FromCStrText(s: Str)
    requires StrValid(s) && '\0' !in Text(s)
    ensures Text(FromCStr(Some(Text(s)))) == Text(s)
  {
    RtError.CStringNoNul(Text(s));
  }

  /** An `rt_str*`: the struct that the in-place operations update. */
  class StrRef {
    var v: Str

    ghost predicate Valid()
      reads this
    {
      StrValid(v)
    }

    constructor(s: Str)
      ensures v == s
    {
      v := s;
    }

    /** rt_str_reserve on a non-NULL string, with an allocation that succeeds: a no-op when the
        capacity suffices, otherwise capacity doubled from the current one (16 from zero) until
        it covers `minCap`, the characters unchanged. */
    method Reserve(minCap: nat)
      requires Valid()
      modifies this
      ensures Valid() && v.len == old(v.len) && Text(v) == old(Text(v))
      ensures v.cap == Growth.GrownCapacity(old(v.cap), minCap, InitialCapacity)
      ensures minCap <= old(v.cap) ==> v == old(v)
    {
      if minCap <= v.cap {
        return;
      }
      var newCap := Growth.DoubleUntil(if v.cap != 0 then v.cap else InitialCapacity, minCap);
      v := Str(v.len, newCap, Some(Text(v)));
    }

    /** rt_str_append_cstr on a non-NULL string: unchanged for NULL or "", otherwise the C
        string's characters follow the old ones, after a reserve for them and the NUL. */
    method AppendCStr(cstr: Option<seq<char>>)
      requires Valid()
      modifies this
      ensures Valid() && Text(v) == old(Text(v)) + CChars(cstr)
      ensures v.len == old(v.len) + |CChars(cstr)|
      ensures CChars(cstr) == [] ==> v == old(v)
      ensures CChars(cstr) != [] ==> v.cap == Growth.GrownCapacity(old(v.cap), v.len + 1, InitialCapacity)
    {
      var t := CChars(cstr);
      if t == [] {
        return;
      }
      var newLen := v.len + |t|;
      Reserve(newLen + 1);
      v := Str(newLen, v.cap, Some(Text(v) + t));
    }

    /** rt_str_clear: the block freed, length and capacity zero. */
    method Clear()
      modifies this
      ensures v == Empty && Valid()
    {
      v := Empty;
    }
  }

  /** RT_CHECK_NULL as rt_string.c expands it at `line`: a NULL string records RT_ERROR_INVALID
      with message "s is NULL", file "rt_string.c" and that line, and returns the code. */
  method CheckNull(s: StrRef?, line: int, err: RtError.ErrorState) returns (code: int)
    modifies err
    ensures code == (if s == null then RtError.Invalid else RtError.Success)
    ensures s == null ==> NullRecorded(err, line)
    ensures s != null ==> unchanged(err)
  {
    if s == null {
      err.Set(RtError.Invalid, Some("s is NULL"), Some("rt_string.c"), line);
      RtError.CStringNoNul("s is NULL");
      return RtError.Invalid;
    }
    return RtError.Success;
  }

  /** The record RT_CHECK_NULL leaves for a NULL string checked at rt_string.c:`line`. */
  ghost predicate NullRecorded(err: RtError.ErrorState, line: int)
    reads err
  {
    err.code == RtError.Invalid && err.message == "s is NULL" && err.file == Some("rt_string.c") && err.line == line
  }

  /** rt_str_init, its NULL check at line 42. */
  method Init(s: StrRef?, err: RtError.ErrorState) returns (code: int)
    modifies s, err
    ensures code == (if s == null then RtError.Invalid else RtError.Success)
    ensures s == null ==> NullRecorded(err, 42)
    ensures s != null ==> s.v == Empty && unchanged(err)
  {
    code := CheckNull(s, 42, err);
    if s != null {
      s.v := Empty;
    }
  }

  /** rt_str_append_cstr, its NULL check at line 117. */
  method AppendCStr(s: StrRef?, cstr: Option<seq<char>>, err: RtError.ErrorState) returns (code: int)
    requires s != null ==> s.Valid()
    modifies s, err
    ensures code == (if s == null then RtError.Invalid else RtError.Success)
    ensures s == null ==> NullRecorded(err, 117)
    ensures s != null ==> s.Valid() && Text(s.v) == old(Text(s.v)) + CChars(cstr) && unchanged(err)
  {
    code := CheckNull(s, 117, err);
    if s != null {
      s.AppendCStr(cstr);
    }
  }
}
