/** Extended string utilities of the modular runtime (runtime/rt_string_ex.c): slicing, searching,
    comparison, case conversion, whitespace handling and string building over `rt_str` values.

    Each operation that builds its result in a loop is a method whose result is tied to a
    specification function on the characters; the properties the runtime promises are lemmas
    about those functions.  A freshly allocated result is `Copy(t)`: the empty string without a
    block when `t` is empty, otherwise a block of `|t| + 1` bytes. */
module RtStringEx {
  import opened Wrappers
  import RtError
  import opened RtString

  /** SIZE_MAX for a 64-bit `size_t`. */
  const SizeMax: int := 0x1_0000_0000_0000_0000 - 1

  /** A fresh result holding `t`. */
  function Copy(t: seq<char>): (r: Str)
    ensures StrValid(r) && Text(r) == t
    ensures t == [] ==> r == Empty
  {
    if t == [] then Empty else Str(|t|, |t| + 1, Some(t))
  }

  // ==================== Characters ====================

  /** is_whitespace: space, \t, \n, \r, \f and \v. */
  predicate IsSpace(c: char) {
    c == ' ' || c == '\t' || c == '\n' || c == '\r' || c == '\U{0C}' || c == '\U{0B}'
  }

  predicate IsLowerAscii(c: char) { 'a' <= c <= 'z' }
  predicate IsUpperAscii(c: char) { 'A' <= c <= 'Z' }

  /** to_upper_char. */
  function UpperChar(c: char): (r: char)
    ensures IsLowerAscii(c) ==> IsUpperAscii(r) && r as int == c as int - 32
    ensures !IsLowerAscii(c) ==> r == c
  {
    if IsLowerAscii(c) then (c as int - 'a' as int + 'A' as int) as char else c
  }

  /** to_lower_char. */
  function LowerChar(c: char): (r: char)
    ensures IsUpperAscii(c) ==> IsLowerAscii(r) && r as int == c as int + 32
    ensures !IsUpperAscii(c) ==> r == c
  {
    if IsUpperAscii(c) then (c as int - 'A' as int + 'a' as int) as char else c
  }

  // ==================== Substring Operations ====================

  /** rt_str_substring on the characters: empty from `start >= len`; a length of 0 or one
      running past the end means the rest of the string. */
  function Substring(t: seq<char>, start: nat, length: nat): (r: seq<char>)
    ensures start >= |t| ==> r == []
    ensures start < |t| && (length == 0 || length > |t| - start) ==> r == t[start..]
    ensures start < |t| && 0 < length <= |t| - start ==> r == t[start..start + length]
  {
    if start >= |t| then []
    else
      var available := |t| - start;
      var actual := if length == 0 || length > available then available else length;
      t[start..start + actual]
  }

  /** rt_str_substring. */
  function SubstringStr(s: Str, start: nat, length: nat): (r: Str)
    requires StrValid(s)
    ensures r == Copy(Substring(Text(s), start, length))
  {
    Copy(Substring(Text(s), start, length))
  }

  /** `substring(s, 0, s.len)`, the runtime's copy, holds `s`'s characters. */
  lemma CopyOfWhole(s: Str)
    requires StrValid(s)
    ensures SubstringStr(s, 0, s.len) == Copy(Text(s))
  {
    assert Text(s)[0..s.len] == Text(s);
  }

  /** rt_str_slice_from. */
  function SliceFrom(t: seq<char>, start: nat): (r: seq<char>)
    ensures r == if start >= |t| then [] else t[start..]
  {
    Substring(t, start, 0)
  }

  /** rt_str_slice_to as written: the end is clamped and passed on as a length, so an end of 0
      is read as "to the end". */
  function SliceToAsWritten(t: seq<char>, end: nat): (r: seq<char>)
  {
    Substring(t, 0, if end > |t| then |t| else end)
  }

  /** The documented exclusive end is not honoured for 0: `slice_to("ab", 0)` is "ab". */
  lemma SliceToZeroKeepsAll(t: seq<char>)
    requires t != []
    ensures SliceToAsWritten(t, 0) == t != []
  {
  }

  /** rt_str_slice_to as documented: the characters before `end`. */
  function SliceTo(t: seq<char>, end: nat): (r: seq<char>)
    ensures |r| == if end > |t| then |t| else end
    ensures r == t[..|r|]
  {
    t[..if end > |t| then |t| else end]
  }

  /** The corrected slice always agrees with the code except for an end of 0 on a non-empty
      string. */
  lemma SliceToAgrees(t: seq<char>, end: nat)
    requires end > 0 || t == []
    ensures SliceToAsWritten(t, end) == SliceTo(t, end)
  {
  }

  // ==================== Searching ====================

  /** `p` occurs in `t` at position `i`. */
  predicate MatchAt(t: seq<char>, p: seq<char>, i: nat) {
    i + |p| <= |t| && t[i..i + |p|] == p
  }

  /** The scan from `i` up to the last position where `p` fits. */
  function SearchFrom(t: seq<char>, p: seq<char>, i: nat): (r: Option<nat>)
    ensures r.Some? ==> i <= r.value && MatchAt(t, p, r.value)
    decreases |t| - i
  {
    if i + |p| > |t| then None
    else if t[i..i + |p|] == p then Some(i)
    else SearchFrom(t, p, i + 1)
  }

  /** The scan finds the first occurrence from `i` on, and fails only when there is none. */
  lemma {:induction false} SearchFromFirst(t: seq<char>, p: seq<char>, i: nat)
    ensures var r := SearchFrom(t, p, i);
            && (r.Some? ==> forall j | i <= j < r.value :: !MatchAt(t, p, j))
            && (r.None? ==> forall j | i <= j :: !MatchAt(t, p, j))
    decreases |t| - i
  {
    if i + |p| <= |t| && t[i..i + |p|] != p {
      SearchFromFirst(t, p, i + 1);
    }
  }

  /** rt_str_find's result: the first occurrence at or after `start`; `None` is `(size_t)-1`,
      always the answer for an empty pattern or `start >= len`. */
  function FindSpec(t: seq<char>, p: seq<char>, start: nat): (r: Option<nat>)
    ensures start >= |t| || p == [] ==> r == None
    ensures r.Some? ==> start <= r.value && MatchAt(t, p, r.value)
  {
    if start >= |t| || |p| == 0 then None
    else if |p| > |t| - start then None
    else SearchFrom(t, p, start)
  }

  /** No occurrence is skipped: before the result there is none, and `None` (for a non-empty
      pattern and a start inside the string) means there is none at all. */
  lemma FindSpecFirst(t: seq<char>, p: seq<char>, start: nat)
    ensures var r := FindSpec(t, p, start);
            && (r.Some? ==> forall j | start <= j < r.value :: !MatchAt(t, p, j))
            && (r.None? && start < |t| && p != [] ==> forall j | start <= j :: !MatchAt(t, p, j))
  {
    SearchFromFirst(t, p, start);
  }

  /** rt_str_find. */
  method Find(s: Str, pattern: Str, start: nat) returns (r: Option<nat>)
    requires StrValid(s) && StrValid(pattern)
    ensures r == FindSpec(Text(s), Text(pattern), start)
  {
    var t, p := Text(s), Text(pattern);
    if start >= |t| || |p| == 0 {
      return None;
    }
    if |p| > |t| - start {
      return None;
    }
    var i := start;
    while i <= |t| - |p|
      invariant start <= i <= |t| - |p| + 1
      invariant SearchFrom(t, p, i) == SearchFrom(t, p, start)
      decreases |t| - i
    {
      if t[i..i + |p|] == p {
        return Some(i);
      }
      i := i + 1;
    }
    return None;
  }

  /** rt_str_find_cstr: a NULL pattern is not found; otherwise the pattern's characters. */
  method FindCStr(s: Str, pattern: Option<seq<char>>, start: nat) returns (r: Option<nat>)
    requires StrValid(s)
    ensures pattern.None? ==> r == None
    ensures pattern.Some? ==> r == FindSpec(Text(s), CChars(pattern), start)
  {
    if pattern.None? {
      return None;
    }
    r := Find(s, FromCStr(pattern), start);
  }

  /** rt_str_rfind's result: the last occurrence; `None` for an empty or too long pattern. */
  function RFindSpec(t: seq<char>, p: seq<char>): (r: Option<nat>)
    ensures p == [] || |p| > |t| ==> r == None
    ensures r.Some? ==> MatchAt(t, p, r.value)
  {
    if |p| == 0 || |p| > |t| then None else SearchDown(t, p, |t| - |p|)
  }

  /** The backward scan from `i` down to 0. */
  function SearchDown(t: seq<char>, p: seq<char>, i: nat): (r: Option<nat>)
    requires i + |p| <= |t|
    ensures r.Some? ==> r.value <= i && MatchAt(t, p, r.value)
  {
    if t[i..i + |p|] == p then Some(i)
    else if i == 0 then None
    else SearchDown(t, p, i - 1)
  }

  lemma {:induction false} SearchDownLast(t: seq<char>, p: seq<char>, i: nat)
    requires i + |p| <= |t|
    ensures var r := SearchDown(t, p, i);
            && (r.Some? ==> forall j: nat | r.value < j <= i :: !MatchAt(t, p, j))
            && (r.None? ==> forall j: nat | j <= i :: !MatchAt(t, p, j))
  {
    if t[i..i + |p|] != p && i > 0 {
      SearchDownLast(t, p, i - 1);
    }
  }

  /** No later occurrence exists, and `None` (for a non-empty pattern) means none at all. */
  lemma RFindSpecLast(t: seq<char>, p: seq<char>)
    ensures var r := RFindSpec(t, p);
            && (r.Some? ==> forall j: nat | r.value < j :: !MatchAt(t, p, j))
            && (r.None? && p != [] ==> forall j: nat :: !MatchAt(t, p, j))
  {
    if p != [] && |p| <= |t| {
      SearchDownLast(t, p, |t| - |p|);
    }
  }

  /** rt_str_rfind. */
  method RFind(s: Str, pattern: Str) returns (r: Option<nat>)
    requires StrValid(s) && StrValid(pattern)
    ensures r == RFindSpec(Text(s), Text(pattern))
  {
    var t, p := Text(s), Text(pattern);
    if |p| == 0 || |p| > |t| {
      return None;
    }
    var i: int := |t| - |p|;
    while i >= 0
      invariant -1 <= i <= |t| - |p|
      invariant i >= 0 ==> SearchDown(t, p, i) == SearchDown(t, p, |t| - |p|)
      invariant i < 0 ==> SearchDown(t, p, |t| - |p|) == None
      decreases i + 1
    {
      if t[i..i + |p|] == p {
        return Some(i);
      }
      i := i - 1;
    }
    return None;
  }

  /** rt_str_contains. */
  function Contains(s: Str, pattern: Str): (r: bool)
    requires StrValid(s) && StrValid(pattern)
    ensures r <==> FindSpec(Text(s), Text(pattern), 0).Some?
  {
    FindSpec(Text(s), Text(pattern), 0) != None
  }

  /** rt_str_starts_with: the prefix fits and matches. */
  function StartsWith(s: Str, prefix: Str): (r: bool)
    requires StrValid(s) && StrValid(prefix)
    ensures r <==> Text(prefix) <= Text(s)
  {
    prefix.len <= s.len && Text(s)[..prefix.len] == Text(prefix)
  }

  /** rt_str_ends_with: the suffix fits and matches. */
  function EndsWith(s: Str, suffix: Str): (r: bool)
    requires StrValid(s) && StrValid(suffix)
    ensures r <==> |Text(suffix)| <= |Text(s)| && Text(s)[|Text(s)| - |Text(suffix)|..] == Text(suffix)
  {
    suffix.len <= s.len && Text(s)[s.len - suffix.len..] == Text(suffix)
  }

  // ==================== Comparison ====================

  /** Byte-lexicographic order, a proper prefix first: the sign memcmp followed by the length
      comparison yields. */
  function LexCompare(a: seq<char>, b: seq<char>): (r: int)
    ensures r in {-1, 0, 1}
    ensures r == 0 <==> a == b
  {
    if a == [] || b == [] then (if |a| < |b| then -1 else if |a| > |b| then 1 else 0)
    else if a[0] < b[0] then -1
    else if a[0] > b[0] then 1
    else
      var r := LexCompare(a[1..], b[1..]);
      assert r == 0 ==> a == [a[0]] + a[1..] == [b[0]] + b[1..] == b;
      r
  }

  /** The order is antisymmetric, and a proper prefix comes first. */
  lemma {:induction false} LexCompareAntisymmetric(a: seq<char>, b: seq<char>)
    ensures LexCompare(a, b) == -LexCompare(b, a)
    ensures a < b ==> LexCompare(a, b) == -1
  {
    if a != [] && b != [] && a[0] == b[0] {
      LexCompareAntisymmetric(a[1..], b[1..]);
      if a < b {
        assert a[1..] < b[1..];
      }
    }
  }

  /** rt_str_compare, reported by its sign. */
  function Compare(a: Str, b: Str): (r: int)
    requires StrValid(a) && StrValid(b)
    ensures r == LexCompare(Text(a), Text(b))
  {
    LexCompare(Text(a), Text(b))
  }

  /** rt_str_equals: the lengths and bytes agree. */
  function Equals(a: Str, b: Str): (r: bool)
    requires StrValid(a) && StrValid(b)
    ensures r <==> Text(a) == Text(b)
    ensures r <==> Compare(a, b) == 0
  {
    a.len == b.len && Text(a) == Text(b)
  }

  /** A `char` read as the signed byte the C code compares. */
  function SignedChar(c: char): (v: int)
  {
    if c as int >= 128 then c as int - 256 else c as int
  }

  /** rt_str_compare_ignore_case: lower-cased signed characters compared pairwise, then the
      lengths. */
  function CompareIgnoreCaseSpec(a: seq<char>, b: seq<char>): (r: int)
    ensures r in {-1, 0, 1}
    ensures r == 0 ==> |a| == |b|
  {
    if a == [] || b == [] then (if |a| < |b| then -1 else if |a| > |b| then 1 else 0)
    else if SignedChar(LowerChar(a[0])) < SignedChar(LowerChar(b[0])) then -1
    else if SignedChar(LowerChar(a[0])) > SignedChar(LowerChar(b[0])) then 1
    else CompareIgnoreCaseSpec(a[1..], b[1..])
  }

  /** rt_str_compare_ignore_case. */
  method CompareIgnoreCase(a: Str, b: Str) returns (r: int)
    requires StrValid(a) && StrValid(b)
    ensures r == CompareIgnoreCaseSpec(Text(a), Text(b))
  {
    var x, y := Text(a), Text(b);
    var minLen := if |x| < |y| then |x| else |y|;
    var i := 0;
    while i < minLen
      invariant 0 <= i <= minLen
      invariant CompareIgnoreCaseSpec(x[i..], y[i..]) == CompareIgnoreCaseSpec(x, y)
    {
      var ca, cb := SignedChar(LowerChar(x[i])), SignedChar(LowerChar(y[i]));
      assert x[i..][1..] == x[i + 1..] && y[i..][1..] == y[i + 1..];
      if ca < cb {
        return -1;
      }
      if ca > cb {
        return 1;
      }
      i := i + 1;
    }
    if |x| < |y| {
      return -1;
    }
    if |x| > |y| {
      return 1;
    }
    return 0;
  }

  /** Case differences do not affect the case-insensitive comparison. */
  lemma {:induction false} IgnoreCaseIsCaseBlind(a: seq<char>)
    ensures CompareIgnoreCaseSpec(a, MapChars(a, UpperChar)) == 0
  {
    if a != [] {
      var u := MapChars(a, UpperChar);
      assert LowerChar(UpperChar(a[0])) == LowerChar(a[0]);
      assert u[1..] == MapChars(a[1..], UpperChar);
      IgnoreCaseIsCaseBlind(a[1..]);
    }
  }

  // ==================== Case Conversion ====================

  /** A character-wise conversion. */
  function MapChars(t: seq<char>, f: char -> char): (r: seq<char>)
    ensures |r| == |t| && forall i | 0 <= i < |t| :: r[i] == f(t[i])
  {
    seq(|t|, i requires 0 <= i < |t| => f(t[i]))
  }

  /** The conversion loop the three case functions share, from position `from` on. */
  method ConvertFrom(t: seq<char>, from: nat, upper: bool, acc: seq<char>) returns (r: seq<char>)
    requires from <= |t| && |acc| == from
    ensures |r| == |t| && r[..from] == acc
    ensures forall i | from <= i < |t| :: r[i] == (if upper then UpperChar(t[i]) else LowerChar(t[i]))
  {
    r := acc;
    var i := from;
    while i < |t|
      invariant from <= i <= |t| && |r| == i && r[..from] == acc
      invariant forall k | from <= k < i :: r[k] == (if upper then UpperChar(t[k]) else LowerChar(t[k]))
    {
      r := r + [if upper then UpperChar(t[i]) else LowerChar(t[i])];
      i := i + 1;
    }
  }

  /** rt_str_to_upper: same length, only ASCII lower-case letters changed. */
  method ToUpper(s: Str) returns (r: Str)
    requires StrValid(s)
    ensures r == Copy(MapChars(Text(s), UpperChar))
  {
    if s.len == 0 {
      return Empty;
    }
    var u := ConvertFrom(Text(s), 0, true, []);
    assert u == MapChars(Text(s), UpperChar);
    return Str(s.len, s.len + 1, Some(u));
  }

  /** rt_str_to_lower: same length, only ASCII upper-case letters changed. */
  method ToLower(s: Str) returns (r: Str)
    requires StrValid(s)
    ensures r == Copy(MapChars(Text(s), LowerChar))
  {
    if s.len == 0 {
      return Empty;
    }
    var u := ConvertFrom(Text(s), 0, false, []);
    assert u == MapChars(Text(s), LowerChar);
    return Str(s.len, s.len + 1, Some(u));
  }

  /** rt_str_capitalize: the first character upper-cased, the rest lower-cased. */
  function CapitalizeSpec(t: seq<char>): (r: seq<char>)
    ensures |r| == |t|
  {
    if t == [] then [] else [UpperChar(t[0])] + MapChars(t[1..], LowerChar)
  }

  /** rt_str_capitalize. */
  method Capitalize(s: Str) returns (r: Str)
    requires StrValid(s)
    ensures r == Copy(CapitalizeSpec(Text(s)))
  {
    if s.len == 0 {
      return Empty;
    }
    var t := Text(s);
    var u := ConvertFrom(t, 1, false, [UpperChar(t[0])]);
    assert u == CapitalizeSpec(t) by {
      assert u[..1] == [UpperChar(t[0])];
      forall i | 1 <= i < |t| ensures u[i] == CapitalizeSpec(t)[i] {
        assert CapitalizeSpec(t)[i] == MapChars(t[1..], LowerChar)[i - 1];
      }
    }
    return Str(s.len, s.len + 1, Some(u));
  }

  /** The case conversions keep the length and touch only ASCII letters; upper-casing is
      idempotent and lower-casing undoes it up to the original's case. */
  lemma CaseConversionProperties(t: seq<char>)
    ensures var u := MapChars(t, UpperChar);
            && |u| == |t|
            && (forall i | 0 <= i < |t| :: u[i] == t[i] || IsLowerAscii(t[i]))
            && MapChars(u, UpperChar) == u
            && MapChars(u, LowerChar) == MapChars(t, LowerChar)
  {
    var u := MapChars(t, UpperChar);
    assert MapChars(u, UpperChar) == u;
    forall i | 0 <= i < |t|
      ensures MapChars(u, LowerChar)[i] == MapChars(t, LowerChar)[i]
    {
      assert LowerChar(UpperChar(t[i])) == LowerChar(t[i]);
    }
  }

  // ==================== Whitespace Handling ====================

  /** Leading whitespace dropped. */
  function TrimLeft(t: seq<char>): (r: seq<char>)
    ensures |r| <= |t| && r == t[|t| - |r|..]
    ensures r == [] || !IsSpace(r[0])
    ensures forall i | 0 <= i < |t| - |r| :: IsSpace(t[i])
  {
    if t != [] && IsSpace(t[0]) then TrimLeft(t[1..]) else t
  }

  /** Trailing whitespace dropped. */
  function TrimRight(t: seq<char>): (r: seq<char>)
    ensures |r| <= |t| && r == t[..|r|]
    ensures r == [] || !IsSpace(r[|r| - 1])
    ensures forall i | |r| <= i < |t| :: IsSpace(t[i])
  {
    if t != [] && IsSpace(t[|t| - 1]) then TrimRight(t[..|t| - 1]) else t
  }

  /** rt_str_ltrim: skip leading whitespace, then slice from there. */
  method LTrim(s: Str) returns (r: Str)
    requires StrValid(s)
    ensures r == Copy(TrimLeft(Text(s)))
  {
    var t := Text(s);
    var start := 0;
    while start < |t| && IsSpace(t[start])
      invariant 0 <= start <= |t| && TrimLeft(t[start..]) == TrimLeft(t)
    {
      assert t[start..][1..] == t[start + 1..];
      start := start + 1;
    }
    r := SubstringStr(s, start, 0);
  }

  /** rt_str_rtrim: the end moved back over trailing whitespace, then `slice_to` up to it, which
      reads an end of 0 as the whole string. */
  method RTrim(s: Str) returns (r: Str)
    requires StrValid(s)
    ensures r == Copy(RTrimAsWritten(Text(s)))
    ensures TrimRight(Text(s)) != [] || s.len == 0 ==> r == Copy(TrimRight(Text(s)))
  {
    var t := Text(s);
    var end := |t|;
    while end > 0 && IsSpace(t[end - 1])
      invariant 0 <= end <= |t| && TrimRight(t[..end]) == TrimRight(t)
    {
      assert t[..end][..end - 1] == t[..end - 1];
      end := end - 1;
    }
    assert !(end > 0 && IsSpace(t[end - 1]));
    assert TrimRight(t[..end]) == t[..end];
    r := Copy(SliceToAsWritten(t, end));
    RTrimAgrees(t);
  }

  /** rt_str_rtrim as written: its `slice_to` turns an end of 0 into the whole string. */
  function RTrimAsWritten(t: seq<char>): (r: seq<char>)
  {
    SliceToAsWritten(t, |TrimRight(t)|)
  }

  /** An all-whitespace string comes back unchanged from the code as written. */
  lemma RTrimAllWhitespaceKept()
    ensures RTrimAsWritten("  ") == "  "
    ensures TrimRight("  ") == []
  {
    assert TrimRight(" ") == [] by { assert " "[..0] == []; }
    assert "  "[..1] == " ";
  }

  /** Away from that case the code agrees with the corrected trim, and trim, which right-trims a
      left-trimmed string, never reaches it. */
  lemma RTrimAgrees(t: seq<char>)
    ensures TrimRight(t) != [] || t == [] ==> RTrimAsWritten(t) == TrimRight(t)
    ensures RTrimAsWritten(TrimLeft(t)) == TrimRight(TrimLeft(t))
  {
    var l := TrimLeft(t);
    if l != [] {
      assert !IsSpace(l[0]);
    }
  }

  /** rt_str_trim: right-trim of the left-trim. */
  method Trim(s: Str) returns (r: Str)
    requires StrValid(s)
    ensures r == Copy(TrimRight(TrimLeft(Text(s))))
  {
    var temp := LTrim(s);
    r := RTrim(temp);
    RTrimAgrees(Text(s));
  }

  /** The characters that are not whitespace, in order. */
  function NonSpace(t: seq<char>): (r: seq<char>)
    ensures |r| <= |t|
    ensures forall c | c in r :: !IsSpace(c) && c in t
  {
    if t == [] then [] else (if IsSpace(t[0]) then [] else [t[0]]) + NonSpace(t[1..])
  }

  /** A string without whitespace is its own NonSpace, so removing whitespace is idempotent. */
  lemma {:induction false} NonSpaceFixed(t: seq<char>)
    requires forall i | 0 <= i < |t| :: !IsSpace(t[i])
    ensures NonSpace(t) == t
  {
    if t != [] {
      NonSpaceFixed(t[1..]);
      assert t == [t[0]] + t[1..];
    }
  }

  lemma {:induction false} NonSpaceSnoc(t: seq<char>, c: char)
    ensures NonSpace(t + [c]) == NonSpace(t) + (if IsSpace(c) then [] else [c])
  {
    var last := if IsSpace(c) then [] else [c];
    if t == [] {
      assert [c][1..] == [];
      assert NonSpace([c]) == last + NonSpace([]);
    } else {
      var head := if IsSpace(t[0]) then [] else [t[0]];
      assert (t + [c])[1..] == t[1..] + [c];
      assert NonSpace(t + [c]) == head + NonSpace(t[1..] + [c]);
      assert NonSpace(t[1..] + [c]) == NonSpace(t[1..]) + last by {
        NonSpaceSnoc(t[1..], c);
      }
      assert NonSpace(t) == head + NonSpace(t[1..]);
    }
  }

  /** rt_str_remove_whitespace: count the other characters, then copy them in order. */
  method RemoveWhitespace(s: Str) returns (r: Str)
    requires StrValid(s)
    ensures r == Copy(NonSpace(Text(s)))
  {
    var t := Text(s);
    if |t| == 0 {
      return Empty;
    }
    var count := CountNonSpace(t);
    if count == 0 {
      return Empty;
    }
    var out := CollectNonSpace(t);
    return Str(count, count + 1, Some(out));
  }

  /** rt_str_remove_whitespace's counting pass: the characters that are not whitespace. */
  method CountNonSpace(t: seq<char>) returns (count: nat)
    ensures count == |NonSpace(t)|
  {
    count := 0;
    var i := 0;
    while i < |t|
      invariant 0 <= i <= |t| && count == |NonSpace(t[..i])|
    {
      assert t[..i + 1] == t[..i] + [t[i]];
      NonSpaceSnoc(t[..i], t[i]);
      if !IsSpace(t[i]) {
        count := count + 1;
      }
      i := i + 1;
    }
    assert t[..|t|] == t;
  }

  /** Its copying pass: those characters, in order. */
  method CollectNonSpace(t: seq<char>) returns (out: seq<char>)
    ensures out == NonSpace(t)
  {
    out := [];
    var i := 0;
    while i < |t|
      invariant 0 <= i <= |t| && out == NonSpace(t[..i])
    {
      assert t[..i + 1] == t[..i] + [t[i]];
      NonSpaceSnoc(t[..i], t[i]);
      if !IsSpace(t[i]) {
        out := out + [t[i]];
      }
      i := i + 1;
    }
    assert t[..|t|] == t;
  }

  // ==================== Integer Syntax ====================

  predicate IsDigit(c: char) { '0' <= c <= '9' }

  /** An optional sign followed by at least one digit and nothing else. */
  predicate IntegerSyntax(t: seq<char>) {
    && t != []
    && var start := if t[0] == '-' || t[0] == '+' then 1 else 0;
       |t| > start && forall i | start <= i < |t| :: IsDigit(t[i])
  }

  /** rt_str_is_integer: the trimmed string has integer syntax. */
  method IsInteger(s: Str) returns (r: bool)
    requires StrValid(s)
    ensures r <==> IntegerSyntax(TrimRight(TrimLeft(Text(s))))
  {
    var trimmed := Trim(s);
    r := ScanInteger(Text(trimmed));
  }

  /** The scan of rt_str_is_integer over the trimmed characters: an optional sign, then a loop
      that stops at the first character that is not a digit. */
  method ScanInteger(t: seq<char>) returns (r: bool)
    ensures r <==> IntegerSyntax(t)
  {
    if |t| == 0 {
      return false;
    }
    var start := 0;
    if t[0] == '-' || t[0] == '+' {
      start := 1;
      if |t| == 1 {
        return false;
      }
    }
    var i := start;
    while i < |t|
      invariant start <= i <= |t| && forall k | start <= k < i :: IsDigit(t[k])
    {
      if t[i] < '0' || t[i] > '9' {
        return false;
      }
      i := i + 1;
    }
    return true;
  }

  // ==================== String Building ====================

  /** `n` back-to-back copies of `t`. */
  function RepeatSpec(t: seq<char>, n: nat): (r: seq<char>)
    ensures |r| == |t| * n
  {
    if n == 0 then [] else RepeatSpec(t, n - 1) + t
  }

  /** Copy `k` of `t` sits at offset `k * |t|`. */
  lemma RepeatSpecAt(t: seq<char>, n: nat, k: nat)
    requires k < n
    ensures (k + 1) * |t| <= |RepeatSpec(t, n)|
    ensures RepeatSpec(t, n)[k * |t|..(k + 1) * |t|] == t
  {
    var m, j := |t|, n - k;
    var before, mid := RepeatSpec(t, k), RepeatSpec(t, j);
    RepeatSpecSplit(t, k, j);
    assert k + j == n;
    RepeatSpecSplit(t, 1, j - 1);
    assert RepeatSpec(t, 1) == [] + t;
    assert mid[..m] == t;
    var lo := k * m;
    assert |before| == lo by { assert |before| == m * k; }
    MulSucc(k, m);
    assert (k + 1) * m == lo + m;
    assert (before + mid)[lo..lo + m] == mid[..m];
  }

  /** Repeating a + b times is repeating a times, then b times. */
  lemma {:induction false} RepeatSpecSplit(t: seq<char>, a: nat, b: nat)
    ensures RepeatSpec(t, a + b) == RepeatSpec(t, a) + RepeatSpec(t, b)
    decreases b
  {
    if b > 0 {
      RepeatSpecSplit(t, a, b - 1);
      assert RepeatSpec(t, a + b) == RepeatSpec(t, a + b - 1) + t;
      assert RepeatSpec(t, b) == RepeatSpec(t, b - 1) + t;
    } else {
      assert RepeatSpec(t, a) + [] == RepeatSpec(t, a);
    }
  }

  /** rt_str_repeat's overflow guard as written: the product is taken in 64-bit unsigned
      arithmetic, which wraps. */
  function RepeatGuardAsWritten(len: nat, count: nat): (overflow: bool)
  {
    (len * count) % (SizeMax + 1) > SizeMax - 1
  }

  /** A wrapped product gets past the guard: three bytes repeated 6148914691236517206 times
      need 2^64 + 2 bytes, the guard sees 2, and the copy loop then writes past the 3-byte
      block. */
  lemma RepeatGuardWraps()
    ensures !RepeatGuardAsWritten(3, 6148914691236517206)
    ensures 3 * 6148914691236517206 > SizeMax
  {
  }

  /** The intended guard: the true product must leave room for the NUL. */
  function RepeatGuard(len: nat, count: nat): (overflow: bool)
    requires len > 0
    ensures overflow <==> len * count > SizeMax - 1
  {
    DivGuard(len, count, SizeMax - 1);
    count > (SizeMax - 1) / len
  }

  /** `count > m / len` is exactly `len * count > m`. */
  lemma DivGuard(len: nat, count: nat, m: nat)
    requires len > 0
    ensures count > m / len <==> len * count > m
  {
    var q, rem := m / len, m % len;
    assert m == len * q + rem && rem < len;
    if count > q {
      MulMono(len, q + 1, count);
      assert len * (q + 1) == len * q + len;
    } else {
      MulMono(len, count, q);
    }
  }

  lemma MulMono(k: nat, a: nat, b: nat)
    requires a <= b
    ensures k * a <= k * b
  {
    assert k * b == k * a + k * (b - a);
  }

  /** The message rt_str_repeat records with RT_ERROR_OVERFLOW. */
  const RepeatTooLarge: string := "Repeat count too large"

  lemma RepeatTooLargeStored()
    ensures RtError.StoredMessage(RepeatTooLarge) == RepeatTooLarge
  {
    RtError.CStringNoNul(RepeatTooLarge);
  }

  /** rt_str_repeat with the intended guard: an empty string or a count of zero or less gives
      the empty string; an oversized result gives the empty string with RT_ERROR_OVERFLOW and
      its message recorded in `err`; otherwise `count` copies, and `err` is untouched. */
  method Repeat(s: Str, count: int, err: RtError.ErrorState) returns (r: Str)
    requires StrValid(s)
    modifies err
    ensures count <= 0 || s.len == 0 ==> r == Empty && unchanged(err)
    ensures count > 0 && s.len > 0 && s.len * count > SizeMax - 1 ==>
              r == Empty && err.code == RtError.Overflow && err.message == RepeatTooLarge
              && err.file == Some("rt_string_ex.c") && err.line == 455
    ensures count > 0 && s.len > 0 && s.len * count <= SizeMax - 1 ==>
              unchanged(err) && r == Copy(RepeatSpec(Text(s), count))
  {
    if count <= 0 || s.len == 0 {
      return Empty;
    }
    if RepeatGuard(s.len, count) {
      err.Set(RtError.Overflow, Some(RepeatTooLarge), Some("rt_string_ex.c"), 455);
      RepeatTooLargeStored();
      return Empty;
    }
    var t := Text(s);
    var out: seq<char> := [];
    var i := 0;
    while i < count
      invariant 0 <= i <= count && out == RepeatSpec(t, i)
    {
      out := out + t;
      i := i + 1;
    }
    return Str(|out|, |out| + 1, Some(out));
  }

  /** The parts with `sep` between consecutive ones. */
  function JoinSpec(parts: seq<seq<char>>, sep: seq<char>): (r: seq<char>)
  {
    if |parts| == 0 then []
    else if |parts| == 1 then parts[0]
    else JoinSpec(parts[..|parts| - 1], sep) + sep + parts[|parts| - 1]
  }

  function TotalLength(parts: seq<seq<char>>): (n: nat)
  {
    if parts == [] then 0 else TotalLength(parts[..|parts| - 1]) + |parts[|parts| - 1]|
  }

  /** The joined length is the parts' total plus one separator per gap. */
  lemma {:induction false} JoinLength(parts: seq<seq<char>>, sep: seq<char>)
    requires |parts| > 0
    ensures |JoinSpec(parts, sep)| == TotalLength(parts) + |sep| * (|parts| - 1)
  {
    if |parts| > 1 {
      JoinLength(parts[..|parts| - 1], sep);
      assert parts[..|parts| - 1][..|parts| - 2] == parts[..|parts| - 2];
    } else {
      assert parts[..0] == [];
    }
  }

  /** The texts of a sequence of strings. */
  function Texts(ss: seq<Str>): (ts: seq<seq<char>>)
    ensures |ts| == |ss| && forall i | 0 <= i < |ss| :: ts[i] == Text(ss[i])
  {
    seq(|ss|, i requires 0 <= i < |ss| => Text(ss[i]))
  }

  /** The length-summing loop of rt_str_join. */
  method SumLengths(strings: seq<Str>) returns (total: nat)
    requires forall i | 0 <= i < |strings| :: StrValid(strings[i])
    ensures total == TotalLength(Texts(strings))
  {
    var ts := Texts(strings);
    total := 0;
    var i := 0;
    while i < |strings|
      invariant 0 <= i <= |strings| && total == TotalLength(ts[..i])
    {
      assert ts[..i + 1][..i] == ts[..i];
      total := total + strings[i].len;
      i := i + 1;
    }
    assert ts[..|ts|] == ts;
  }

  /** The copying loop of rt_str_join: a separator before every part but the first. */
  method JoinParts(ts: seq<seq<char>>, sep: seq<char>) returns (out: seq<char>)
    ensures out == JoinSpec(ts, sep)
  {
    out := [];
    var i := 0;
    while i < |ts|
      invariant 0 <= i <= |ts|
      invariant out == JoinSpec(ts[..i], sep)
    {
      assert ts[..i + 1][..i] == ts[..i];
      if i > 0 && |sep| > 0 {
        out := out + sep;
      }
      if |ts[i]| > 0 {
        out := out + ts[i];
      }
      i := i + 1;
    }
    assert ts[..|ts|] == ts;
  }

  /** rt_str_join: no parts give the empty string, one part a copy of it, more the separated
      concatenation in a block of exactly the computed length. */
  method Join(strings: seq<Str>, separator: Str) returns (r: Str)
    requires forall i | 0 <= i < |strings| :: StrValid(strings[i])
    requires StrValid(separator)
    ensures |strings| == 0 ==> r == Empty
    ensures |strings| == 1 ==> r == Copy(Text(strings[0]))
    ensures |strings| > 1 ==> StrValid(r) && Text(r) == JoinSpec(Texts(strings), Text(separator))
    ensures |strings| > 1 ==> r.cap == r.len + 1
  {
    if |strings| == 0 {
      return Empty;
    }
    if |strings| == 1 {
      CopyOfWhole(strings[0]);
      return SubstringStr(strings[0], 0, strings[0].len);
    }
    var ts := Texts(strings);
    var sep := Text(separator);
    var total := SumLengths(strings);
    total := total + separator.len * (|strings| - 1);
    var out := JoinParts(ts, sep);
    JoinLength(ts, sep);
    return Str(total, total + 1, Some(out));
  }

  /** Every non-overlapping occurrence of `p` from `pos` on, left to right, replaced by `q`. */
  function ReplaceFrom(t: seq<char>, p: seq<char>, q: seq<char>, pos: nat): (r: seq<char>)
    requires pos <= |t| && p != []
    decreases |t| - pos
  {
    match FindSpec(t, p, pos)
    case None => t[pos..]
    case Some(i) => t[pos..i] + q + ReplaceFrom(t, p, q, i + |p|)
  }

  /** The number of those occurrences. */
  function CountFrom(t: seq<char>, p: seq<char>, pos: nat): (n: nat)
    requires pos <= |t| && p != []
    decreases |t| - pos
  {
    match FindSpec(t, p, pos)
    case None => 0
    case Some(i) => 1 + CountFrom(t, p, i + |p|)
  }

  /** Each replacement changes the length by `|q| - |p|`. */
  lemma {:induction false} ReplaceLength(t: seq<char>, p: seq<char>, q: seq<char>, pos: nat)
    requires pos <= |t| && p != []
    ensures |ReplaceFrom(t, p, q, pos)| == |t| - pos + CountFrom(t, p, pos) * (|q| - |p|)
    decreases |t| - pos
  {
    match FindSpec(t, p, pos) {
      case None =>
        assert ReplaceFrom(t, p, q, pos) == t[pos..] && CountFrom(t, p, pos) == 0;
      case Some(i) =>
        var j := i + |p|;
        var c, d := CountFrom(t, p, j), |q| - |p|;
        var rest := ReplaceFrom(t, p, q, j);
        assert |rest| == |t| - j + c * d by {
          ReplaceLength(t, p, q, j);
        }
        assert ReplaceFrom(t, p, q, pos) == t[pos..i] + q + rest;
        assert CountFrom(t, p, pos) == 1 + c;
        MulSucc(c, d);
    }
  }

  lemma MulSucc(c: int, d: int)
    ensures (1 + c) * d == d + c * d
  {
  }

  /** Replacing a pattern by itself gives the string back. */
  lemma {:induction false} ReplaceSelf(t: seq<char>, p: seq<char>, pos: nat)
    requires pos <= |t| && p != []
    ensures ReplaceFrom(t, p, p, pos) == t[pos..]
    decreases |t| - pos
  {
    match FindSpec(t, p, pos) {
      case None =>
      case Some(i) =>
        ReplaceSelf(t, p, i + |p|);
        assert t[pos..i] + p + t[i + |p|..] == t[pos..];
    }
  }

  /** The counting loop of rt_str_replace. */
  method CountOccurrences(s: Str, target: Str) returns (count: nat)
    requires StrValid(s) && StrValid(target) && target.len > 0
    ensures count == CountFrom(Text(s), Text(target), 0)
  {
    var t, p := Text(s), Text(target);
    count := 0;
    var pos := 0;
    var found := Find(s, target, pos);
    while found.Some?
      invariant pos <= |t| && found == FindSpec(t, p, pos)
      invariant count + CountFrom(t, p, pos) == CountFrom(t, p, 0)
      decreases |t| - pos
    {
      count := count + 1;
      pos := found.value + |p|;
      found := Find(s, target, pos);
    }
  }

  /** One round of the building loop: the text before the match and the replacement move from
      the remaining work to the output. */
  lemma ReplaceStep(out: seq<char>, t: seq<char>, p: seq<char>, q: seq<char>, src: nat, i: nat, goal: seq<char>,
                    out': seq<char>, next: nat)
    requires src <= |t| && p != [] && FindSpec(t, p, src) == Some(i)
    requires out + ReplaceFrom(t, p, q, src) == goal
    requires src <= i && i + |p| <= |t| && out' == out + t[src..i] + q && next == i + |p|
    ensures out' + ReplaceFrom(t, p, q, next) == goal
  {
    assert MatchAt(t, p, i);
    var a, rest := t[src..i], ReplaceFrom(t, p, q, next);
    var whole := ReplaceFrom(t, p, q, src);
    assert whole == a + q + rest;
    Regroup(out, a, q, rest);
  }

  lemma Regroup(out: seq<char>, a: seq<char>, q: seq<char>, rest: seq<char>)
    ensures out + (a + q + rest) == (out + a + q) + rest
  {
  }

  /** The building loop of rt_str_replace: text before each match, then the replacement, then
      the rest. */
  method BuildReplacement(s: Str, target: Str, replacement: Str) returns (out: seq<char>)
    requires StrValid(s) && StrValid(target) && StrValid(replacement) && target.len > 0
    ensures out == ReplaceFrom(Text(s), Text(target), Text(replacement), 0)
  {
    var t, p, q := Text(s), Text(target), Text(replacement);
    ghost var goal := ReplaceFrom(t, p, q, 0);
    out := [];
    var src := 0;
    var found := Find(s, target, src);
    assert out + ReplaceFrom(t, p, q, 0) == goal;
    while found.Some?
      invariant src <= |t| && found == FindSpec(t, p, src)
      invariant out + ReplaceFrom(t, p, q, src) == goal
      decreases |t| - src
    {
      out, src, found := ReplaceNext(s, target, replacement, out, src, found.value, goal);
    }
    ReplaceTail(out, t, p, q, src, goal);
    out := out + t[src..];
  }

  /** One round of the building loop: the text up to the match at i and the replacement are
      appended, and the search goes on after the match. */
  method ReplaceNext(s: Str, target: Str, replacement: Str, out: seq<char>, src: nat, i: nat, ghost goal: seq<char>)
    returns (out': seq<char>, src': nat, found: Option<nat>)
    requires StrValid(s) && StrValid(target) && StrValid(replacement) && target.len > 0
    requires src <= |Text(s)| && FindSpec(Text(s), Text(target), src) == Some(i)
    requires out + ReplaceFrom(Text(s), Text(target), Text(replacement), src) == goal
    ensures src < src' <= |Text(s)| && found == FindSpec(Text(s), Text(target), src')
    ensures out' + ReplaceFrom(Text(s), Text(target), Text(replacement), src') == goal
  {
    var t, p, q := Text(s), Text(target), Text(replacement);
    assert MatchAt(t, p, i);
    out', src' := out + t[src..i] + q, i + |p|;
    ReplaceStep(out, t, p, q, src, i, goal, out', src');
    found := Find(s, target, src');
  }

  /** Where no occurrence is left, the rest of the text is copied as it is. */
  lemma ReplaceTail(out: seq<char>, t: seq<char>, p: seq<char>, q: seq<char>, src: nat, goal: seq<char>)
    requires src <= |t| && p != [] && FindSpec(t, p, src).None?
    requires out + ReplaceFrom(t, p, q, src) == goal
    ensures out + t[src..] == goal
  {
  }

  /** rt_str_replace: an empty or absent target gives a copy; otherwise every occurrence is
      replaced, in a block of the precomputed length. */
  method Replace(s: Str, target: Str, replacement: Str) returns (r: Str)
    requires StrValid(s) && StrValid(target) && StrValid(replacement)
    ensures target.len == 0 ==> r == Copy(Text(s))
    ensures target.len > 0 ==> StrValid(r) && Text(r) == ReplaceFrom(Text(s), Text(target), Text(replacement), 0)
  {
    var t, p, q := Text(s), Text(target), Text(replacement);
    if |p| == 0 {
      CopyOfWhole(s);
      return SubstringStr(s, 0, s.len);
    }
    var count := CountOccurrences(s, target);
    if count == 0 {
      assert FindSpec(t, p, 0).None?;
      assert ReplaceFrom(t, p, q, 0) == t;
      CopyOfWhole(s);
      return SubstringStr(s, 0, s.len);
    }
    var total := |t| + count * (|q| - |p|);
    var out := BuildReplacement(s, target, replacement);
    ReplaceLength(t, p, q, 0);
    return Str(total, total + 1, Some(out));
  }

  /** rt_str_replace_first: only the first occurrence replaced. */
  function ReplaceFirstSpec(t: seq<char>, p: seq<char>, q: seq<char>): (r: seq<char>)
  {
    if p == [] then t
    else match FindSpec(t, p, 0)
      case None => t
      case Some(i) => t[..i] + q + t[i + |p|..]
  }

  /** rt_str_replace_first. */
  method ReplaceFirst(s: Str, target: Str, replacement: Str) returns (r: Str)
    requires StrValid(s) && StrValid(target) && StrValid(replacement)
    ensures StrValid(r) && Text(r) == ReplaceFirstSpec(Text(s), Text(target), Text(replacement))
    ensures target.len == 0 || FindSpec(Text(s), Text(target), 0).None? ==> r == Copy(Text(s))
  {
    var t, p, q := Text(s), Text(target), Text(replacement);
    if |p| == 0 {
      CopyOfWhole(s);
      return SubstringStr(s, 0, s.len);
    }
    var pos := Find(s, target, 0);
    if pos.None? {
      CopyOfWhole(s);
      return SubstringStr(s, 0, s.len);
    }
    var i := pos.value;
    var total := |t| - |p| + |q|;
    var out := t[..i] + q + t[i + |p|..];
    return Str(total, total + 1, Some(out));
  }

  /** The first-only replacement agrees with the full one when the pattern occurs once. */
  lemma ReplaceFirstOfSingle(t: seq<char>, p: seq<char>, q: seq<char>)
    requires p != [] && CountFrom(t, p, 0) <= 1
    ensures ReplaceFirstSpec(t, p, q) == ReplaceFrom(t, p, q, 0)
  {
    match FindSpec(t, p, 0) {
      case None =>
        assert ReplaceFrom(t, p, q, 0) == t[0..] == t;
      case Some(i) =>
        var j := i + |p|;
        assert j <= |t|;
        assert CountFrom(t, p, 0) == 1 + CountFrom(t, p, j);
        assert FindSpec(t, p, j).None? by {
          if FindSpec(t, p, j).Some? {
            assert false;
          }
        }
        assert ReplaceFrom(t, p, q, j) == t[j..];
        assert ReplaceFrom(t, p, q, 0) == t[0..i] + q + t[j..];
        assert t[0..i] == t[..i];
    }
  }
}
