/** rt_dict_ssi (runtime/rt_dict.c): a string-to-`long long` map kept as parallel `keys` and
    `vals` arrays searched linearly; new keys are deep-copied and appended.

    The abstract value is the sequence of (key characters, value) pairs in insertion order. */
module RtDict {
  import opened Wrappers
  import RtError
  import RtExc
  import RtString
  import Growth

  /** The capacity a dict starts growing from. */
  const InitialCapacity: nat := 4

  type Entry = (seq<char>, int)

  /** rt__str_eq: lengths first, then two empty strings are equal, then a NULL block is unequal,
      then the bytes are compared. */
  function StrEq(a: RtString.Str, b: RtString.Str): (r: bool)
    requires RtString.StrValid(a) && RtString.StrValid(b)
    ensures r <==> RtString.Text(a) == RtString.Text(b)
  {
    if a.len != b.len then false
    else if a.len == 0 then true
    else if a.data.None? || b.data.None? then false
    else a.data.value[..a.len] == b.data.value[..b.len]
  }

  /** The first position holding key `k`. */
  function Find(es: seq<Entry>, k: seq<char>): (r: Option<nat>)
    ensures r.Some? ==> r.value < |es| && es[r.value].0 == k
    ensures r.Some? ==> forall j | 0 <= j < r.value :: es[j].0 != k
    ensures r.None? ==> forall j | 0 <= j < |es| :: es[j].0 != k
  {
    if es == [] then None
    else if es[0].0 == k then Some(0)
    else match Find(es[1..], k)
      case None => None
      case Some(i) => Some(i + 1)
  }

  /** The value a lookup of `k` returns. */
  function Lookup(es: seq<Entry>, k: seq<char>): (r: Option<int>)
  {
    match Find(es, k)
    case None => None
    case Some(i) => Some(es[i].1)
  }

  /** No key occurs twice. */
  ghost predicate DistinctKeys(es: seq<Entry>) {
    forall i, j | 0 <= i < j < |es| :: es[i].0 != es[j].0
  }

  /** The key rt_dict_ssi_set stores for a new entry: `rt_str_from_cstr(key.data)`, which reads
      the key only up to its first NUL. */
  function StoredKey(k: seq<char>): (s: seq<char>)
    ensures '\0' !in k ==> s == k
  {
    RtString.Text(RtString.FromCStr(Some(k)))
  }

  /** rt_dict_ssi_set as written: overwrite the value of the first byte-equal key, else append
      the stored copy of the key. */
  function SetAsWritten(es: seq<Entry>, k: seq<char>, v: int): (r: seq<Entry>)
  {
    match Find(es, k)
    case Some(i) => es[i := (es[i].0, v)]
    case None => es + [(StoredKey(k), v)]
  }

  /** Map update as the dict intends it: the key copied whole. */
  function SetExact(es: seq<Entry>, k: seq<char>, v: int): (r: seq<Entry>)
  {
    match Find(es, k)
    case Some(i) => es[i := (es[i].0, v)]
    case None => es + [(k, v)]
  }

  /** For keys without an embedded NUL the code does what is intended. */
  lemma SetAsWrittenNulFree(es: seq<Entry>, k: seq<char>, v: int)
    requires '\0' !in k
    ensures SetAsWritten(es, k, v) == SetExact(es, k, v)
  {
  }

  /** The corrected update is a map update: `k` now gives `v`, every other key its old value,
      the length grows exactly for a new key, and keys stay distinct. */
  lemma {:induction false} SetExactIsUpdate(es: seq<Entry>, k: seq<char>, v: int, other: seq<char>)
    requires DistinctKeys(es) && other != k
    ensures Lookup(SetExact(es, k, v), k) == Some(v)
    ensures Lookup(SetExact(es, k, v), other) == Lookup(es, other)
    ensures |SetExact(es, k, v)| == if Find(es, k).Some? then |es| else |es| + 1
    ensures DistinctKeys(SetExact(es, k, v))
  {
    var r := SetExact(es, k, v);
    match Find(es, k)
    case Some(i) =>
      FindUnique(r, i, k);
      match Find(es, other) {
        case None =>
          assert forall j | 0 <= j < |r| :: r[j].0 == es[j].0;
        case Some(o) =>
          FindUnique(r, o, other);
      }
    case None =>
      FindUnique(r, |es|, k);
      match Find(es, other) {
        case None =>
          assert forall j | 0 <= j < |r| :: r[j].0 != other;
        case Some(o) =>
          FindUnique(r, o, other);
      }
  }

  /** In a sequence whose only occurrence of key `k` before `i` is none, `i` is where `k` is
      found. */
  lemma FindUnique(es: seq<Entry>, i: nat, k: seq<char>)
    requires i < |es| && es[i].0 == k && forall j | 0 <= j < i :: es[j].0 != k
    ensures Find(es, k) == Some(i)
  {
  }

  /** The code as written loses a key that holds a NUL: after setting "a\0b" the same key is not
      found, because the stored copy is "a". */
  lemma NulKeyLost()
    ensures SetAsWritten([], "a\0b", 1) == [("a", 1)]
    ensures Lookup(SetAsWritten([], "a\0b", 1), "a\0b") == None
  {
    assert RtError.CString("a\0b") == "a" by {
      assert RtError.CString("\0b") == [];
      assert "a\0b"[1..] == "\0b";
    }
    var r := SetAsWritten([], "a\0b", 1);
    assert r[0].0 != "a\0b";
  }

  /** ... and it stores two entries under one key when two keys differ only after a NUL. */
  lemma NulKeysCollide()
    ensures !DistinctKeys(SetAsWritten(SetAsWritten([], "a\0b", 1), "a\0c", 2))
  {
    NulKeyLost();
    var es := SetAsWritten([], "a\0b", 1);
    assert RtError.CString("a\0c") == "a" by {
      assert RtError.CString("\0c") == [];
      assert "a\0c"[1..] == "\0c";
    }
    assert es[0].0 != "a\0c";
    assert Find(es, "a\0c") == None;
    assert StoredKey("a\0c") == "a";
    var r := SetAsWritten(es, "a\0c", 2);
    assert r == [("a", 1), ("a", 2)];
    assert r[0].0 == r[1].0;
  }

  class Dict {
    var len: nat
    var cap: nat
    var keys: array<RtString.Str>
    var vals: array<int>

    ghost predicate Valid()
      reads this, keys
    {
      && keys.Length == cap && vals.Length == cap && len <= cap
      && forall i | 0 <= i < len :: RtString.StrValid(keys[i])
    }

    /** The (key, value) pairs in insertion order. */
    ghost function Entries(): (es: seq<Entry>)
      reads this, keys, vals
      requires Valid()
      ensures |es| == len
    {
      seq(len, i requires 0 <= i < len <= keys.Length && len <= vals.Length reads this, keys, vals =>
        (RtString.Text(keys[i]), vals[i]))
    }

    /** rt_dict_ssi_init on a non-NULL dict. */
    constructor()
      ensures Valid() && len == 0 && cap == 0 && Entries() == []
    {
      len, cap := 0, 0;
      keys := new RtString.Str[0];
      vals := new int[0];
    }

    /** rt_dict_ssi_clear on a non-NULL dict: every stored key cleared, both blocks released. */
    method Clear()
      requires Valid()
      modifies this, keys
      ensures Valid() && len == 0 && cap == 0 && Entries() == []
    {
      var i := 0;
      while i < len
        invariant 0 <= i <= len <= cap == keys.Length
        invariant forall j | 0 <= j < i :: keys[j] == RtString.Empty
        modifies keys
      {
        keys[i] := RtString.Empty;
        i := i + 1;
      }
      keys := new RtString.Str[0];
      vals := new int[0];
      len, cap := 0, 0;
    }

    /** rt_dict_ssi_ensure: a no-op when the capacity suffices, otherwise both blocks are
        reallocated to the doubled capacity with their contents kept. */
    method Ensure(need: nat)
      requires Valid()
      modifies this
      ensures Valid() && len == old(len) && Entries() == old(Entries())
      ensures cap == Growth.GrownCapacity(old(cap), need, InitialCapacity)
      ensures old(cap) >= need ==> keys == old(keys) && vals == old(vals)
      ensures old(cap) < need ==> fresh(keys) && fresh(vals)
    {
      if cap >= need {
        return;
      }
      var newcap := Growth.DoubleUntil(if cap != 0 then cap else InitialCapacity, need);
      var nk := new RtString.Str[newcap](_ => RtString.Empty);
      var nv := new int[newcap];
      var i := 0;
      while i < cap
        invariant 0 <= i <= cap <= newcap && Valid()
        invariant keys == old(keys) && vals == old(vals) && len == old(len)
        invariant forall j | 0 <= j < i :: nk[j] == keys[j] && nv[j] == vals[j]
        modifies nk, nv
      {
        nk[i] := keys[i];
        nv[i] := vals[i];
        i := i + 1;
      }
      keys, vals, cap := nk, nv, newcap;
    }

    /** The linear scan shared by set and get: the first position whose key is byte-equal. */
    method Scan(key: RtString.Str) returns (found: Option<nat>)
      requires Valid() && RtString.StrValid(key)
      ensures found == Find(Entries(), RtString.Text(key))
    {
      var i := 0;
      while i < len
        invariant 0 <= i <= len
        invariant forall j | 0 <= j < i :: Entries()[j].0 != RtString.Text(key)
      {
        if StrEq(keys[i], key) {
          FindUnique(Entries(), i, RtString.Text(key));
          return Some(i);
        }
        i := i + 1;
      }
      return None;
    }

    /** rt_dict_ssi_set on a non-NULL dict. */
    method Set(key: RtString.Str, val: int)
      requires Valid() && RtString.StrValid(key)
      modifies this, keys, vals
      ensures Valid()
      ensures Entries() == SetAsWritten(old(Entries()), RtString.Text(key), val)
    {
      var found := Scan(key);
      if found.Some? {
        Overwrite(found.value, val);
        return;
      }
      Ensure(len + 1);
      Push(RtString.FromCStr(Some(RtString.Text(key))), val);
    }

    /** The found branch of rt_dict_ssi_set: the value at position i replaced. */
    method Overwrite(i: nat, val: int)
      requires Valid() && i < len
      modifies vals
      ensures Valid() && Entries() == old(Entries())[i := (old(Entries())[i].0, val)]
    {
      vals[i] := val;
    }

    /** The append branch of rt_dict_ssi_set, after the ensure: the key's copy and the value
        stored at position len, which is one past the last entry. */
    method Push(k: RtString.Str, val: int)
      requires Valid() && len < cap && RtString.StrValid(k)
      modifies this, keys, vals
      ensures Valid() && Entries() == old(Entries()) + [(RtString.Text(k), val)]
      ensures keys == old(keys) && vals == old(vals) && cap == old(cap)
    {
      keys[len] := k;
      vals[len] := val;
      len := len + 1;
      assert Entries() == old(Entries()) + [(RtString.Text(k), val)] by {
        forall j | 0 <= j < len - 1 ensures Entries()[j] == old(Entries())[j] { }
      }
    }

    /** rt_dict_ssi_get on a non-NULL dict: an absent key is a KeyError. */
    method Get(key: RtString.Str) returns (r: Result<int, (RtExc.ExcType, string)>)
      requires Valid() && RtString.StrValid(key)
      ensures r == match Lookup(Entries(), RtString.Text(key))
                   case Some(v) => Ok(v)
                   case None => Err((RtExc.KeyError, "key not found"))
    {
      var found := Scan(key);
      if found.None? {
        return Err((RtExc.KeyError, "key not found"));
      }
      return Ok(vals[found.value]);
    }
  }

  /** rt_dict_ssi_set: NULL is RT_ERROR_INVALID. */
  method Set(d: Dict?, key: RtString.Str, val: int) returns (code: int)
    requires d != null ==> d.Valid()
    requires RtString.StrValid(key)
    modifies d, if d != null then {d.keys, d.vals} else {}
    ensures code == (if d == null then RtError.Invalid else RtError.Success)
    ensures d != null ==> d.Valid() && d.Entries() == SetAsWritten(old(d.Entries()), RtString.Text(key), val)
  {
    if d == null {
      return RtError.Invalid;
    }
    d.Set(key, val);
    return RtError.Success;
  }

  /** rt_dict_ssi_get: a NULL dict is a TypeError. */
  method Get(d: Dict?, key: RtString.Str) returns (r: Result<int, (RtExc.ExcType, string)>)
    requires d != null ==> d.Valid()
    requires RtString.StrValid(key)
    ensures d == null ==> r == Err((RtExc.TypeError, "dict is NULL"))
    ensures d != null ==> r == match Lookup(d.Entries(), RtString.Text(key))
                              case Some(v) => Ok(v)
                              case None => Err((RtExc.KeyError, "key not found"))
  {
    if d == null {
      return Err((RtExc.TypeError, "dict is NULL"));
    }
    r := d.Get(key);
  }

  /** rt_dict_ssi_len: the number of entries, 0 for NULL. */
  method Len(d: Dict?) returns (n: nat)
    requires d != null ==> d.Valid()
    ensures n == if d == null then 0 else |d.Entries()|
  {
    if d == null {
      return 0;
    }
    return d.len;
  }

  /** rt_dict_ssi_init: NULL is RT_ERROR_INVALID. */
  method Init(d: Dict?) returns (code: int)
    modifies d
    ensures code == (if d == null then RtError.Invalid else RtError.Success)
    ensures d != null ==> d.Valid() && d.Entries() == []
  {
    if d == null {
      return RtError.Invalid;
    }
    d.len, d.cap := 0, 0;
    d.keys := new RtString.Str[0];
    d.vals := new int[0];
    return RtError.Success;
  }
}
