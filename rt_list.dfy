/** rt_list_si (runtime/rt_list.c): a growable array of `long long` with Python indexing. */
module RtList {
  import opened Wrappers
  import RtError
  import RtExc
  import Growth

  /** The capacity a list starts growing from. */
  const InitialCapacity: nat := 4

  /** Python's index normalization as rt_list_si_get does it: a negative index counts from the
      end; anything outside the list is an IndexError. */
  function PyIndex(s: seq<int>, idx: int): (r: Result<int, (RtExc.ExcType, string)>)
    ensures r.Ok? <==> -|s| <= idx < |s|
    ensures r.Ok? ==> r.value == if idx >= 0 then s[idx] else s[|s| + idx]
    ensures r.Err? ==> r.error == (RtExc.IndexError, "list index out of range")
  {
    var i := if idx < 0 then |s| + idx else idx;
    if i < 0 || i >= |s| then Err((RtExc.IndexError, "list index out of range")) else Ok(s[i])
  }

  /** A Python-style negative index reaches the same element as its positive counterpart. */
  lemma NegativeIndexMirrors(s: seq<int>, k: nat)
    requires k < |s|
    ensures PyIndex(s, k - |s|) == PyIndex(s, k) == Ok(s[k])
  {
  }

  class IntList {
    var len: nat
    var cap: nat
    /** The heap block; NULL is modelled as an array of length 0. */
    var data: array<int>

    ghost predicate Valid()
      reads this
    {
      data.Length == cap && len <= cap
    }

    /** The list's elements. */
    ghost function Contents(): (s: seq<int>)
      reads this, data
      requires Valid()
      ensures |s| == len
    {
      data[..len]
    }

    /** rt_list_si_init on a non-NULL list: len 0, cap 0, data NULL. */
    constructor()
      ensures Valid() && len == 0 && cap == 0 && Contents() == []
    {
      len := 0;
      cap := 0;
      data := new int[0];
    }

    /** rt_list_si_clear: the storage is released and every field reset. */
    method Clear()
      modifies this
      ensures Valid() && len == 0 && cap == 0 && Contents() == []
    {
      data := new int[0];
      len := 0;
      cap := 0;
    }

    /** rt_list_si_ensure: a no-op when the capacity suffices; otherwise the block is reallocated
        to the doubled capacity, keeping its contents. */
    method Ensure(need: nat)
      requires Valid()
      modifies this
      ensures Valid() && len == old(len)
      ensures cap == Growth.GrownCapacity(old(cap), need, InitialCapacity)
      ensures Contents() == old(Contents())
      ensures old(cap) >= need ==> data == old(data)
      ensures old(cap) < need ==> fresh(data)
    {
      if cap >= need {
        return;
      }
      var newcap := Growth.DoubleUntil(if cap != 0 then cap else InitialCapacity, need);
      var p := new int[newcap];
      var i := 0;
      while i < cap
        invariant 0 <= i <= cap <= newcap && Valid() && data == old(data) && len == old(len)
        invariant forall k | 0 <= k < i :: p[k] == data[k]
      {
        p[i] := data[i];
        i := i + 1;
      }
      assert p[..len] == data[..len];
      data := p;
      cap := newcap;
    }

    /** rt_list_si_append on a non-NULL list: v goes to index old len, earlier elements stay. */
    method Append(v: int)
      requires Valid()
      modifies this, data
      ensures Valid() && len == old(len) + 1
      ensures Contents() == old(Contents()) + [v]
      ensures cap == Growth.GrownCapacity(old(cap), old(len) + 1, InitialCapacity)
    {
      Ensure(len + 1);
      data[len] := v;
      len := len + 1;
    }

    /** rt_list_si_get on a non-NULL list. */
    method Get(idx: int) returns (r: Result<int, (RtExc.ExcType, string)>)
      requires Valid()
      ensures r == PyIndex(Contents(), idx)
    {
      var i := idx;
      if i < 0 {
        i := len + i;
      }
      if i < 0 || i >= len {
        return Err((RtExc.IndexError, "list index out of range"));
      }
      return Ok(data[i]);
    }
  }

  /** rt_list_si_init: NULL is RT_ERROR_INVALID. */
  method Init(l: IntList?) returns (code: int)
    modifies l
    ensures code == (if l == null then RtError.Invalid else RtError.Success)
    ensures l != null ==> l.Valid() && l.len == 0 && l.cap == 0 && l.Contents() == []
  {
    if l == null {
      return RtError.Invalid;
    }
    l.Clear();
    return RtError.Success;
  }

  /** rt_list_si_append: NULL is RT_ERROR_INVALID, otherwise the value is appended. */
  method Append(l: IntList?, v: int) returns (code: int)
    requires l != null ==> l.Valid()
    modifies l, if l != null then {l.data} else {}
    ensures code == (if l == null then RtError.Invalid else RtError.Success)
    ensures l != null ==> l.Valid() && l.Contents() == old(l.Contents()) + [v]
  {
    if l == null {
      return RtError.Invalid;
    }
    l.Append(v);
    return RtError.Success;
  }

  /** rt_list_si_len: the length, 0 for NULL. */
  method Len(l: IntList?) returns (n: nat)
    requires l != null ==> l.Valid()
    ensures n == (if l == null then 0 else |l.Contents()|)
  {
    if l == null {
      return 0;
    }
    return l.len;
  }

  /** rt_list_si_get: a NULL list is a TypeError. */
  method Get(l: IntList?, idx: int) returns (r: Result<int, (RtExc.ExcType, string)>)
    requires l != null ==> l.Valid()
    ensures l == null ==> r == Err((RtExc.TypeError, "list is NULL"))
    ensures l != null ==> r == PyIndex(l.Contents(), idx)
  {
    if l == null {
      return Err((RtExc.TypeError, "list is NULL"));
    }
    r := l.Get(idx);
  }
}
