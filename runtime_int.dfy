/** The single-file runtime's big integers (runtime/runtime.c, runtime/runtime.h:36-92).

    An `rt_int` is a class: a sign, a used length and a limb block whose length is the capacity
    (NULL is the empty block).  The `const rt_int*` operands are passed as `Num` values, their
    sign and used limbs.  The one call whose output is also an operand, `rt_int_mod(&result,
    &result, mod)` in rt_int_powmod (runtime.c:480), passes its own snapshot; that is sound
    because rt_int_mod divides into scratch numbers and only then copies into its output.
    `rt_raise`, which prints and exits, becomes a `Raised` value returned to the caller, and an
    allocation always succeeds. */
module RuntimeInt {
  import opened Wrappers
  import opened Limbs
  import CInt
  import Growth
  import opened Decimal
  import RtError

  /** What rt_raise is called with before the process exits: the exception's name and message. */
  datatype Raised = Raised(name: string, message: string)

  /** rt_int_is_zero: no sign or no limbs. */
  function IsZero(a: Num): (r: bool)
    ensures NumValid(a) ==> (r <==> NumValue(a) == 0)
  {
    if NumValid(a) then
      ValueSign(a);
      a.sign == 0 || |a.limbs| == 0
    else
      a.sign == 0 || |a.limbs| == 0
  }

  /** rt_int_truthy: 1 for a nonzero number, 0 for zero. */
  function Truthy(a: Num): (r: int)
    ensures NumValid(a) ==> (r == 1 <==> NumValue(a) != 0) && (r == 0 <==> NumValue(a) == 0)
  {
    if IsZero(a) then 0 else 1
  }

  /** A positive remainder below Base^3 leaves room for one more of at most three limbs. */
  lemma LimbRoom(v: int, n: nat, rest: int, uv: int)
    requires 0 <= v && rest > 0 && n <= 3 && v + Pow(n) * rest == uv && uv < Pow(3)
    ensures n < 3
  {
    MulGeSelf(rest, Pow(n));
    assert rest * Pow(n) == Pow(n) * rest;
    PowLess(n, 3);
  }

  /** The last limb written is the whole remainder, so it is not 0. */
  lemma LastLimb(rest: int)
    requires rest > 0
    ensures rest / Base == 0 ==> rest % Base != 0
  {
  }

  class RtInt {
    var sign: int
    var len: nat
    /** The limb block; its length is the capacity. */
    var digits: array<int>

    ghost predicate Valid()
      reads this, digits
    {
      len <= digits.Length && NumValid(Num(sign, digits[..len]))
    }

    /** The sign and the used limbs. */
    function Snap(): Num
      reads this, digits
      requires len <= digits.Length
    {
      Num(sign, digits[..len])
    }

    ghost function Value(): int
      reads this, digits
      requires len <= digits.Length
    {
      NumValue(Snap())
    }

    /** rt_int_init: zero, with no block. */
    constructor()
      ensures Valid() && sign == 0 && len == 0 && digits.Length == 0 && Value() == 0
      ensures fresh(digits)
    {
      sign := 0;
      len := 0;
      digits := new int[0];
    }

    /** rt_int_clear on a non-NULL number: the block freed and every field zero. */
    method Clear()
      modifies this
      ensures Valid() && sign == 0 && len == 0 && digits.Length == 0 && Value() == 0
    {
      digits := new int[0];
      sign := 0;
      len := 0;
    }

    /** rt_int_reserve: a no-op when the capacity suffices; otherwise the capacity (or 1 when it
        is 0) doubles until it covers the request, and the block is reallocated with its old
        limbs.  The new part of the block is not initialized. */
    method Reserve(need: nat)
      modifies this
      ensures sign == old(sign) && len == old(len)
      ensures digits.Length == Growth.GrownCapacity(old(digits.Length), need, 1)
      ensures digits.Length >= need
      ensures need <= old(digits.Length) ==> digits == old(digits)
      ensures old(digits.Length) < need ==> fresh(digits)
      ensures digits[..old(digits.Length)] == old(digits[..])
    {
      Growth.GrownCapacityBounds(digits.Length, need, 1);
      if need <= digits.Length {
        return;
      }
      var start := if digits.Length > 0 then digits.Length else 1;
      var newcap := Growth.DoubleUntil(start, need);
      var block := new int[newcap];
      forall k | 0 <= k < digits.Length {
        block[k] := digits[k];
      }
      digits := block;
    }

    /** rt_int_normalize: zero top limbs dropped, and sign 0 once no limb is left.  The limbs
        that remain spell the same number. */
    method Normalize()
      requires len <= digits.Length
      modifies this
      ensures digits == old(digits) && len <= old(len)
      ensures digits[..len] == old(digits[..len])[..len]
      ensures len > 0 ==> digits[len - 1] != 0
      ensures forall k | len <= k < old(len) :: digits[k] == 0
      ensures sign == if len == 0 then 0 else old(sign)
      ensures IsLimbs(old(digits[..len])) ==> Normalized(digits[..len]) && Val(digits[..len]) == old(Val(digits[..len]))
    {
      ghost var v0 := digits[..len];
      while len > 0 && digits[len - 1] == 0
        invariant digits == old(digits) && len <= old(len) <= digits.Length && sign == old(sign)
        invariant digits[..len] == v0[..len]
        invariant forall k | len <= k < old(len) :: digits[k] == 0
        invariant IsLimbs(v0) ==> Val(digits[..len]) == Val(v0)
      {
        ValDropZero(digits[..len]);
        assert digits[..len][..len - 1] == digits[..len - 1];
        len := len - 1;
      }
      if len == 0 {
        sign := 0;
      }
      if IsLimbs(v0) {
        PrefixLimbs(v0, len);
      }
    }

    /** rt_int_set_zero: sign and length 0, the block kept. */
    method SetZero()
      modifies this
      ensures sign == 0 && len == 0 && digits == old(digits)
      ensures Valid() && Value() == 0
    {
      sign := 0;
      len := 0;
    }

    /** rt_int_copy from a number other than this one: zero for a source without limbs,
        otherwise the source's limbs in a block reserved to their count, and its sign. */
    method CopyFrom(src: Num)
      requires len <= digits.Length
      modifies this, digits
      ensures digits == old(digits) || fresh(digits)
      ensures len <= digits.Length
      ensures Snap() == if |src.limbs| == 0 then Num(0, []) else src
      ensures |src.limbs| == 0 ==> digits == old(digits)
      ensures |src.limbs| > 0 ==> digits.Length == Growth.GrownCapacity(old(digits.Length), |src.limbs|, 1)
      ensures NumValid(src) ==> Valid() && Snap() == src && Value() == NumValue(src)
    {
      if |src.limbs| == 0 {
        SetZero();
        return;
      }
      Reserve(|src.limbs|);
      forall k | 0 <= k < |src.limbs| {
        digits[k] := src.limbs[k];
      }
      len := |src.limbs|;
      sign := src.sign;
      assert digits[..len] == src.limbs;
    }

    /** rt_int_copy: nothing at all when the source is this number, otherwise CopyFrom of the
        source's sign and limbs. */
    method Copy(src: RtInt)
      requires src.len <= src.digits.Length && len <= digits.Length
      requires src != this ==> src.digits != digits
      modifies this, digits
      ensures src == this ==> sign == old(sign) && len == old(len) && digits == old(digits)
      ensures src == this ==> digits[..] == old(digits[..])
      ensures digits == old(digits) || fresh(digits)
      ensures len <= digits.Length
      ensures src != this ==> Snap() == if old(src.len) == 0 then Num(0, []) else old(src.Snap())
    {
      if src == this {
        return;
      }
      CopyFrom(src.Snap());
    }

    /** rt_int_set_si: the canonical representation of a 64-bit value.  The magnitude of a
        negative value is computed as -(v + 1) + 1, which is exact for INT64_MIN, and three limbs
        are reserved, more than 2^63 needs. */
    method SetSi(v: int)
      requires CInt.InInt64(v) && len <= digits.Length
      modifies this, digits
      ensures digits == old(digits) || fresh(digits)
      ensures Valid() && Value() == v
      ensures Snap() == FromInt(v)
    {
      if v == 0 {
        SetZero();
        FromIntOfValue(Snap());
        return;
      }
      var uv: int;
      if v < 0 {
        sign := -1;
        uv := -(v + 1) + 1;
      } else {
        sign := 1;
        uv := v;
      }
      Reserve(3);
      ThreeLimbs();
      StoreMagnitude(uv);
      assert Value() == v;
      FromIntOfValue(Snap());
    }

    /** The digit loop of rt_int_set_si: from length 0, the limbs of a positive magnitude below
        Base^3, least significant first, each appended while something is left. */
    method StoreMagnitude(uv: int)
      requires 0 < uv < Pow(3) && 3 <= digits.Length
      modifies this, digits
      ensures digits == old(digits) && sign == old(sign)
      ensures len <= digits.Length && Normalized(digits[..len]) && Val(digits[..len]) == uv
    {
      len := WriteLimbs(uv);
    }

    /** The loop itself, counting the limbs it appends. */
    method WriteLimbs(uv: int) returns (n: nat)
      requires 0 < uv < Pow(3) && 3 <= digits.Length
      modifies digits
      ensures n <= digits.Length && Normalized(digits[..n]) && Val(digits[..n]) == uv
    {
      n := 0;
      var rest := uv;
      while rest > 0
        invariant n <= 3 && rest >= 0
        invariant IsLimbs(digits[..n]) && Val(digits[..n]) + Pow(n) * rest == uv
        invariant rest == 0 ==> n > 0 && digits[n - 1] != 0
        decreases rest
      {
        ghost var before := digits[..n];
        ValBounds(before);
        LimbRoom(Val(before), n, rest, uv);
        digits[n] := rest % Base;
        assert digits[..n + 1] == before + [rest % Base];
        EmitLimb(before, rest);
        LastLimb(rest);
        n := n + 1;
        rest := rest / Base;
      }
    }

    // ---------------------------------------------------------------------------------------------
    // The digit loops of rt_int_from_dec

    /** rt_int_mul_small: nothing for a number with no sign or no limbs; otherwise every limb
        times m with the carry running up, and one more limb, in a block reserved for it, when
        a carry is left over.  The sign is not touched. */
    method MulSmall(m: int)
      requires 0 <= m < Base && len <= digits.Length && IsLimbs(digits[..len])
      modifies this, digits
      ensures sign == old(sign) && (digits == old(digits) || fresh(digits))
      ensures len <= digits.Length && IsLimbs(digits[..len])
      ensures len == old(len) || len == old(len) + 1
      ensures old(sign) == 0 ==> len == old(len) && digits == old(digits) && digits[..] == old(digits[..])
      ensures old(sign) != 0 ==> Val(digits[..len]) == m * old(Val(digits[..len]))
    {
      if sign == 0 || len == 0 {
        return;
      }
      ghost var low := digits[..len];
      var carry := ScaleLimbs(m);
      assert digits[..len][..len] == digits[..len] && low[..len] == low;
      if carry > 0 {
        ghost var pre := digits[..len];
        AppendLimb(carry);
        ValSnoc(pre, carry);
      }
    }

    /** MulSmall's loop: every used limb times m with the carry running up; the carry left over
        is returned. */
    method ScaleLimbs(m: int) returns (carry: int)
      requires 0 <= m < Base && len <= digits.Length && IsLimbs(digits[..len])
      modifies digits
      ensures 0 <= carry < Base && ScaleState(digits[..len], old(digits[..len]), len, carry, m)
    {
      ghost var low := digits[..len];
      carry := 0;
      for i := 0 to len
        invariant 0 <= carry < Base && |low| == len
        invariant ScaleState(digits[..len], low, i, carry, m)
      {
        ghost var img := digits[..len];
        var cur := digits[i] * m + carry;
        ScaleNext(img, low, i, carry, m);
        digits[i] := cur % Base;
        assert digits[..len] == img[i := cur % Base];
        carry := cur / Base;
      }
    }

    /** The tail rt_int_mul_small and rt_int_add_small share: the block reserved for one more
        limb, and the carry stored as that limb. */
    method AppendLimb(c: int)
      requires 0 <= c < Base && len <= digits.Length && IsLimbs(digits[..len])
      modifies this, digits
      ensures sign == old(sign) && len == old(len) + 1 && len <= digits.Length
      ensures digits == old(digits) || fresh(digits)
      ensures digits[..len] == old(digits[..len]) + [c] && IsLimbs(digits[..len])
    {
      ghost var pre := digits[..len];
      Reserve(len + 1);
      assert digits[..len] == pre;
      digits[len] := c;
      len := len + 1;
      assert digits[..len] == pre + [c];
    }

    /** rt_int_add_small: a number with no sign becomes a with sign +1 in a one-limb block, or
        zero when a is 0; otherwise a is added to the magnitude from the bottom limb while a
        carry is left, and a leftover carry becomes one more limb.  The sign is not touched, so
        a negative number's magnitude grows. */
    method AddSmall(a: int)
      requires 0 <= a < Base && len <= digits.Length && IsLimbs(digits[..len])
      modifies this, digits
      ensures digits == old(digits) || fresh(digits)
      ensures len <= digits.Length && IsLimbs(digits[..len])
      ensures old(sign) == 0 ==> Snap() == if a == 0 then Num(0, []) else Num(1, [a])
      ensures old(sign) != 0 ==> sign == old(sign) && Val(digits[..len]) == old(Val(digits[..len])) + a
      ensures old(sign) != 0 ==> len == old(len) || len == old(len) + 1
    {
      if sign == 0 {
        sign := 1;
        Reserve(1);
        digits[0] := a;
        len := if a == 0 then 0 else 1;
        if len == 0 {
          sign := 0;
        }
        assert len == 1 ==> digits[..len] == [a];
        return;
      }
      AddCarry(a);
    }

    /** The carry loop of rt_int_add_small on a number with a sign: a added at the bottom limb
        while a carry is left, and a leftover carry appended as a new limb. */
    method AddCarry(a: int)
      requires 0 <= a < Base && len <= digits.Length && IsLimbs(digits[..len])
      modifies this, digits
      ensures digits == old(digits) || fresh(digits)
      ensures len <= digits.Length && IsLimbs(digits[..len]) && sign == old(sign)
      ensures Val(digits[..len]) == old(Val(digits[..len])) + a
      ensures len == old(len) || len == old(len) + 1
    {
      ghost var v0 := Val(digits[..len]);
      var carry := a;
      var i := 0;
      while carry != 0 && i < len
        invariant 0 <= i <= len <= digits.Length && digits == old(digits) && len == old(len) && sign == old(sign)
        invariant 0 <= carry < Base && IsLimbs(digits[..len])
        invariant Val(digits[..len]) + Pow(i) * carry == v0 + a
      {
        ghost var img := digits[..len];
        var cur := digits[i] + carry;
        ValUpdate(img, i, cur % Base);
        CarryUp(Val(img), Pow(i), img[i], carry, cur);
        assert Pow(i + 1) == Base * Pow(i);
        digits[i] := cur % Base;
        assert digits[..len] == img[i := cur % Base];
        carry := cur / Base;
        i := i + 1;
      }
      if carry != 0 {
        ghost var pre := digits[..len];
        AppendLimb(carry);
        ValSnoc(pre, carry);
      }
    }

    // ---------------------------------------------------------------------------------------------
    // Decimal text

    /** rt_int_from_dec: 1 for a NULL text; otherwise, past whitespace, one sign and whitespace
        again, 1 when nothing is left; otherwise the digits up to the first whitespace or the
        end are read into the magnitude, with 1 as soon as anything else turns up, and 0 with
        the signed value once they are all read.  An early 1 leaves this number untouched; a 1
        on a bad character leaves the magnitude read so far with sign +1. */
    method FromDec(dec: Option<string>) returns (code: int)
      requires len <= digits.Length
      modifies this, digits
      ensures code == 0 || code == 1
      ensures code == 0 <==> DecText(dec).Some?
      ensures code == 0 ==> Valid() && Value() == DecText(dec).value
      ensures digits == old(digits) || fresh(digits)
      ensures len <= digits.Length
      ensures dec.None? || DecStart(RtError.CString(dec.value)) == |RtError.CString(dec.value)| ==>
                sign == old(sign) && len == old(len) && digits == old(digits)
      ensures code == 1 && dec.Some? && DecStart(RtError.CString(dec.value)) < |RtError.CString(dec.value)| ==>
                var t := RtError.CString(dec.value);
                var z := DecStart(t);
                sign == 1 && IsLimbs(digits[..len]) && Val(digits[..len]) == DigitRunValue(t, z)
    {
      if dec.None? {
        return 1;
      }
      var t := RtError.CString(dec.value);
      var negative, z := ScanDec(t);
      if z == |t| {
        return 1;
      }
      SetZero();
      sign := 1;
      var ok := ReadDigits(t, z);
      if !ok {
        return 1;
      }
      Normalize();
      if sign != 0 {
        sign := if negative then -1 else 1;
      }
      return 0;
    }

    /** The conversion loop of rt_int_from_dec, from z on a number that is zero with sign +1:
        every digit multiplies the magnitude by ten and adds itself, until whitespace or the
        end (true) or any other character (false).  Either way the magnitude is the value of the
        run of digits from z. */
    method ReadDigits(t: string, z: nat) returns (ok: bool)
      requires z < |t| && len <= digits.Length && sign == 1 && len == 0
      modifies this, digits
      ensures digits == old(digits) || fresh(digits)
      ensures sign == 1 && len <= digits.Length && IsLimbs(digits[..len])
      ensures Val(digits[..len]) == DigitRunValue(t, z)
      ensures ok <==> DigitsEnd(t, z) == |t| || IsSpace(t[DigitsEnd(t, z)])
    {
      var p := z;
      assert t[z..p] == [];
      while p < |t|
        invariant z <= p <= |t| && DigitsEnd(t, p) == DigitsEnd(t, z) && AllDigits(t[z..p])
        invariant sign == 1 && len <= digits.Length && IsLimbs(digits[..len])
        invariant Val(digits[..len]) == ParseDigits(t[z..p])
        invariant digits == old(digits) || fresh(digits)
      {
        if IsSpace(t[p]) || !IsDigit(t[p]) {
          break;
        }
        DigitsNext(t, z, p);
        MulSmall(10);
        AddSmall(DigitValue(t[p]));
        p := p + 1;
      }
      assert DigitsEnd(t, z) == p;
      ok := p == |t| || IsSpace(t[p]);
    }
    /** rt_int_from_dec_or_raise on a non-NULL output: ValueError, with the empty text quoted in
        the message, for a NULL text, and ValueError whenever rt_int_from_dec refuses the text. */
    method FromDecOrRaise(dec: Option<string>) returns (raised: Option<Raised>)
      requires len <= digits.Length
      modifies this, digits
      ensures raised.None? <==> DecText(dec).Some?
      ensures raised.None? ==> Valid() && Value() == DecText(dec).value
      ensures dec.None? ==> raised == Some(Raised("ValueError", "invalid literal for int() with base 10: ''"))
      ensures dec.Some? && raised.Some? ==> raised == Some(Raised("ValueError", "invalid literal for int() with base 10"))
      ensures digits == old(digits) || fresh(digits)
    {
      if dec.None? {
        return Some(Raised("ValueError", "invalid literal for int() with base 10: ''"));
      }
      var code := FromDec(dec);
      if code != 0 {
        return Some(Raised("ValueError", "invalid literal for int() with base 10"));
      }
      return None;
    }

    /** The three skipping loops at the head of rt_int_from_dec: whitespace, one sign,
        whitespace; whether the sign was '-', and where the digits start. */
    static method ScanDec(t: string) returns (negative: bool, z: nat)
      ensures z == DecStart(t) && (negative <==> DecSign(t) == -1)
    {
      var i := 0;
      while i < |t| && IsSpace(t[i])
        invariant i <= |t| && SkipSpaces(t, i) == SkipSpaces(t, 0)
      {
        i := i + 1;
      }
      negative := false;
      if i < |t| && t[i] == '+' {
        i := i + 1;
      } else if i < |t| && t[i] == '-' {
        negative := true;
        i := i + 1;
      }
      ghost var j := i;
      while i < |t| && IsSpace(t[i])
        invariant j <= i <= |t| && SkipSpaces(t, i) == SkipSpaces(t, j)
      {
        i := i + 1;
      }
      z := i;
    }

    // ---------------------------------------------------------------------------------------------
    // Magnitude loops

    /** rt_int_add_abs: the limbs of |a| + |b| over the longer length, the carry out of the top
        stored as one more limb, in a block reserved for it; then normalized.  The sign is left
        for the caller. */
    method AddAbs(a: Num, b: Num)
      requires IsLimbs(a.limbs) && IsLimbs(b.limbs) && len <= digits.Length
      modifies this, digits
      ensures digits == old(digits) || fresh(digits)
      ensures len <= digits.Length && Normalized(digits[..len])
      ensures Val(digits[..len]) == Val(a.limbs) + Val(b.limbs)
      ensures sign == if len == 0 then 0 else old(sign)
    {
      var x, y := a.limbs, b.limbs;
      var n := if |x| > |y| then |x| else |y|;
      Reserve(n + 1);
      var carry := SumInto(x, y, n);
      CarryBound(x, y, n);
      CarryBound(x, y, n + 1);
      len := n;
      if carry != 0 {
        digits[len] := carry;
        len := len + 1;
      }
      SumLimbsSpell(x, y, digits[..len]);
      Normalize();
    }

    /** The loop of rt_int_add_abs: limb i of the block is the limb of the sum at i, with the
        carry passed on; what comes out is the carry out of the top. */
    method SumInto(x: seq<int>, y: seq<int>, n: nat) returns (carry: int)
      requires IsLimbs(x) && IsLimbs(y) && |x| <= n && |y| <= n < digits.Length
      modifies digits
      ensures carry == CarryIn(x, y, n)
      ensures forall k | 0 <= k < n :: digits[k] == SumLimb(x, y, k)
    {
      carry := 0;
      for i := 0 to n
        invariant carry == CarryIn(x, y, i)
        invariant forall k | 0 <= k < i :: digits[k] == SumLimb(x, y, k)
      {
        CarryBound(x, y, i);
        var av := if i < |x| then x[i] else 0;
        var bv := if i < |y| then y[i] else 0;
        var cur := av + bv + carry;
        digits[i] := cur % Base;
        carry := cur / Base;
      }
    }

    /** rt_int_sub_abs for |a| >= |b|: the limbs of |a| - |b| over a's length, with the borrow
        running up, in a block reserved to that length; then normalized.  The sign is left for
        the caller. */
    method SubAbs(a: Num, b: Num)
      requires Normalized(a.limbs) && Normalized(b.limbs) && Val(b.limbs) <= Val(a.limbs)
      requires len <= digits.Length
      modifies this, digits
      ensures digits == old(digits) || fresh(digits)
      ensures len <= digits.Length && Normalized(digits[..len])
      ensures Val(digits[..len]) == Val(a.limbs) - Val(b.limbs)
      ensures sign == if len == 0 then 0 else old(sign)
    {
      var x, y := a.limbs, b.limbs;
      assert |y| <= |x| by {
        if |x| < |y| {
          ShorterIsSmaller(x, y);
        }
      }
      Reserve(|x|);
      ghost var block := digits;
      var borrow := 0;
      for i := 0 to |x|
        invariant digits == block && len == old(len) && sign == old(sign)
        invariant borrow == BorrowIn(x, y, i)
        invariant forall k | 0 <= k < i :: digits[k] == DiffLimb(x, y, k)
      {
        var bv := if i < |y| then y[i] else 0;
        var cur := x[i] - bv - borrow;
        if cur < 0 {
          cur := cur + Base;
          borrow := 1;
        } else {
          borrow := 0;
        }
        digits[i] := cur;
      }
      len := |x|;
      DiffLimbsSpell(x, y, digits[..len]);
      Normalize();
    }

    // ---------------------------------------------------------------------------------------------
    // Arithmetic

    /** rt_int_add: a copy of the other operand when one has no sign; the sum of the magnitudes
        with the common sign; otherwise the smaller magnitude taken from the larger with the
        larger's sign, or zero when they are equal. */
    method Add(a: Num, b: Num)
      requires NumValid(a) && NumValid(b) && len <= digits.Length
      modifies this, digits
      ensures digits == old(digits) || fresh(digits)
      ensures Valid() && Value() == NumValue(a) + NumValue(b)
    {
      ValueSign(a);
      ValueSign(b);
      if a.sign == 0 {
        CopyFrom(b);
        return;
      }
      if b.sign == 0 {
        CopyFrom(a);
        return;
      }
      if a.sign == b.sign {
        AddAbs(a, b);
        sign := a.sign;
        return;
      }
      var c := CmpAbs(a, b);
      if c == 0 {
        SetZero();
        return;
      }
      if c > 0 {
        SubAbs(a, b);
        sign := a.sign;
      } else {
        SubAbs(b, a);
        sign := b.sign;
      }
    }

    /** rt_int_sub: a copy of a when b has no sign, otherwise a plus b with its sign flipped. */
    method Sub(a: Num, b: Num)
      requires NumValid(a) && NumValid(b) && len <= digits.Length
      modifies this, digits
      ensures digits == old(digits) || fresh(digits)
      ensures Valid() && Value() == NumValue(a) - NumValue(b)
    {
      if b.sign == 0 {
        CopyFrom(a);
        return;
      }
      Add(a, Num(-b.sign, b.limbs));
    }

    /** rt_int_mul with an output distinct from both operands: zero when either has no sign or
        no limbs; otherwise |a| + |b| limbs reserved and zeroed, each limb of a's row added in
        by MulRow, then normalized, and the product of the signs. */
    method Mul(a: Num, b: Num)
      requires NumValid(a) && NumValid(b) && len <= digits.Length
      modifies this, digits
      ensures digits == old(digits) || fresh(digits)
      ensures Valid() && Value() == NumValue(a) * NumValue(b)
    {
      if a.sign == 0 || b.sign == 0 || |a.limbs| == 0 || |b.limbs| == 0 {
        SetZero();
        return;
      }
      var x, y := a.limbs, b.limbs;
      Schoolbook(x, y);
      Normalize();
      sign := a.sign * b.sign;
      SignedProductValid(a, b, digits[..len]);
    }

    /** The body of rt_int_mul for nonzero operands: |x| + |y| limbs reserved and zeroed, then
        for each limb of x its row added in; the block then spells the product of the
        magnitudes, not yet normalized. */
    method Schoolbook(x: seq<int>, y: seq<int>)
      requires IsLimbs(x) && IsLimbs(y) && len <= digits.Length
      modifies this, digits
      ensures digits == old(digits) || fresh(digits)
      ensures sign == old(sign) && len == |x| + |y| <= digits.Length
      ensures IsLimbs(digits[..len]) && Val(digits[..len]) == Val(x) * Val(y)
    {
      var n := |x| + |y|;
      Reserve(n);
      ghost var block := digits;
      forall k | 0 <= k < n {
        digits[k] := 0;
      }
      len := n;
      ValZeros(digits[..n]);
      for i := 0 to |x|
        invariant digits == block && len == n && n <= digits.Length && sign == old(sign)
        invariant IsLimbs(digits[..n]) && Val(digits[..n]) == Val(x[..i]) * Val(y)
      {
        MulRowBound(x, y, i);
        PowMono(i + 1 + |y|, n);
        MulRow(x[i], y, i, n);
      }
      assert x[..|x|] == x;
    }

    /** rt_int_mul into this scratch number followed by rt_int_copy of it into dst, as
        rt_int_pow does each round. */
    method MulInto(dst: RtInt, x: Num, y: Num)
      requires NumValid(x) && NumValid(y) && len <= digits.Length && dst.len <= dst.digits.Length
      requires dst != this && dst.digits != digits
      modifies this, digits, dst, dst.digits
      ensures digits == old(digits) || fresh(digits)
      ensures dst.digits == old(dst.digits) || fresh(dst.digits)
      ensures dst.digits != digits && len <= digits.Length
      ensures dst.Valid() && dst.Value() == NumValue(x) * NumValue(y)
    {
      Mul(x, y);
      dst.CopyFrom(Snap());
    }

    /** One pass of rt_int_mul's outer loop: ai times the limbs of y added into the block from
        position i with the carry running along, then the carry left over carried on up until it
        is used up. */
    method MulRow(ai: int, y: seq<int>, i: nat, n: nat)
      requires 0 <= ai < Base && IsLimbs(y) && i + |y| <= n <= digits.Length
      requires IsLimbs(digits[..n]) && Val(digits[..n]) + ai * (Pow(i) * Val(y)) < Pow(n)
      modifies digits
      ensures IsLimbs(digits[..n])
      ensures Val(digits[..n]) == old(Val(digits[..n])) + ai * (Pow(i) * Val(y))
    {
      var carry := RowProducts(ai, y, i, n);
      RowCarry(i + |y|, carry, n);
    }

    /** The inner loop of rt_int_mul: limb i + j takes ai * y[j] and the carry, keeps the
        remainder by Base and passes the quotient on.  What comes out is the carry at i + |y|. */
    method RowProducts(ai: int, y: seq<int>, i: nat, n: nat) returns (carry: int)
      requires 0 <= ai < Base && IsLimbs(y) && i + |y| <= n <= digits.Length
      requires IsLimbs(digits[..n])
      modifies digits
      ensures 0 <= carry < Base && IsLimbs(digits[..n])
      ensures Val(digits[..n]) + carry * Pow(i + |y|) == old(Val(digits[..n])) + ai * (Pow(i) * Val(y))
    {
      ghost var acc := Val(digits[..n]);
      carry := 0;
      for j := 0 to |y|
        invariant 0 <= carry < Base && IsLimbs(digits[..n])
        invariant Val(digits[..n]) + carry * Pow(i + j) == acc + ai * (Pow(i) * Val(Take(y, j)))
      {
        LimbProduct(ai, y[j]);
        var cur := digits[i + j] + ai * y[j] + carry;
        ghost var before := digits[..n];
        PowAdd(i, j);
        MulLimbStep(before, i + j, y, j, ai, Pow(i), acc, carry, cur % Base, cur / Base);
        digits[i + j] := cur % Base;
        assert digits[..n] == before[i + j := cur % Base];
        carry := cur / Base;
      }
      assert Take(y, |y|) == y;
    }

    /** The carry loop after rt_int_mul's inner loop: limb k takes the carry, keeps the
        remainder by Base and passes the quotient on to k + 1, until no carry is left.  The
        number the block spells grows by the carry at position k. */
    method RowCarry(k: nat, carry: int, n: nat)
      requires k <= n <= digits.Length && 0 <= carry < Base && IsLimbs(digits[..n])
      requires Val(digits[..n]) + carry * Pow(k) < Pow(n)
      modifies digits
      ensures IsLimbs(digits[..n]) && Val(digits[..n]) == old(Val(digits[..n])) + carry * Pow(k)
    {
      ghost var total := Val(digits[..n]) + carry * Pow(k);
      var c, p := carry, k;
      while c != 0
        invariant k <= p <= n && 0 <= c < Base && IsLimbs(digits[..n])
        invariant Val(digits[..n]) + c * Pow(p) == total
        decreases n - p
      {
        ValBounds(digits[..n]);
        CarryRoom(Val(digits[..n]), c, p, n, total);
        var cur := digits[p] + c;
        ghost var before := digits[..n];
        CarryLimb(before, p, c, cur);
        digits[p] := cur % Base;
        assert digits[..n] == before[p := cur % Base];
        c := cur / Base;
        p := p + 1;
      }
    }

    /** rt_int_pow: OverflowError for an exponent outside the 64-bit range, NotImplementedError
        for a negative one, 1 for 0 (so 0 ** 0 == 1), and otherwise square-and-multiply over the
        exponent's bits with three scratch numbers: the result takes a factor of the base for
        every set bit, and the base is squared while bits are left. */
    method Power(a: Num, b: Num) returns (raised: Option<Raised>)
      requires NumValid(a) && NumValid(b) && len <= digits.Length
      modifies this, digits
      ensures digits == old(digits) || fresh(digits)
      ensures raised == Some(Raised("OverflowError", "exponent too large")) <==> !CInt.InInt64(NumValue(b))
      ensures raised == Some(Raised("NotImplementedError", "negative exponent produces float (not supported yet)")) <==>
                CInt.InInt64(NumValue(b)) && NumValue(b) < 0
      ensures raised.None? <==> CInt.InInt64(NumValue(b)) && NumValue(b) >= 0
      ensures raised.None? ==> Valid() && Value() == CInt.Power(NumValue(a), NumValue(b))
    {
      var fits, e := CheckedInt64(b);
      if !fits {
        return Some(Raised("OverflowError", "exponent too large"));
      }
      if e < 0 {
        return Some(Raised("NotImplementedError", "negative exponent produces float (not supported yet)"));
      }
      if e == 0 {
        SetSi(1);
        return None;
      }
      var p := SquareAndMultiply(a, e);
      CopyFrom(p);
      raised := None;
    }

    /** rt_int_powmod: ValueError for a zero modulus, then OverflowError for an exponent outside
        the 64-bit range and ValueError for a negative one; otherwise the base and 1 reduced by
        rt_int_mod and square-and-multiply over the exponent's bits, each product reduced again,
        so the result is Python's `pow(a, b, mod)`: a ** b % mod. */
    method PowMod(a: Num, b: Num, m: Num) returns (raised: Option<Raised>)
      requires NumValid(a) && NumValid(b) && NumValid(m) && len <= digits.Length
      modifies this, digits
      ensures digits == old(digits) || fresh(digits)
      ensures raised == Some(Raised("ValueError", "pow() 3rd argument cannot be 0")) <==> NumValue(m) == 0
      ensures raised == Some(Raised("OverflowError", "exponent too large")) <==>
                NumValue(m) != 0 && !CInt.InInt64(NumValue(b))
      ensures raised == Some(Raised("ValueError", "pow() 2nd argument cannot be negative when 3rd argument specified")) <==>
                NumValue(m) != 0 && CInt.InInt64(NumValue(b)) && NumValue(b) < 0
      ensures raised.None? <==> NumValue(m) != 0 && CInt.InInt64(NumValue(b)) && NumValue(b) >= 0
      ensures raised.None? ==> Valid() && Value() == CInt.PyMod(CInt.Power(NumValue(a), NumValue(b)), NumValue(m))
    {
      ValueSign(m);
      if m.sign == 0 || |m.limbs| == 0 {
        return Some(Raised("ValueError", "pow() 3rd argument cannot be 0"));
      }
      var fits, e := CheckedInt64(b);
      if !fits {
        return Some(Raised("OverflowError", "exponent too large"));
      }
      if e < 0 {
        return Some(Raised("ValueError", "pow() 2nd argument cannot be negative when 3rd argument specified"));
      }
      var p := ModSquareAndMultiply(a, e, m);
      CopyFrom(p);
      raised := None;
    }

    // ---------------------------------------------------------------------------------------------
    // The helpers of rt_int_divmod

    /** rt_int_abs_copy: a copy with sign +1 unless it is zero. */
    method AbsCopy(src: Num)
      requires NumValid(src) && len <= digits.Length
      modifies this, digits
      ensures digits == old(digits) || fresh(digits)
      ensures Valid() && Value() == CInt.Abs(NumValue(src)) && sign >= 0
      ensures Snap() == Num(if src.sign == 0 then 0 else 1, src.limbs)
    {
      ValueSign(src);
      CopyFrom(src);
      if !IsZero(Snap()) {
        sign := 1;
      }
    }

    /** rt_int_neg_inplace: the sign flipped unless the number is zero. */
    method NegInPlace()
      requires Valid()
      modifies this
      ensures digits == old(digits) && len == old(len)
      ensures Valid() && Value() == -old(Value())
    {
      if !IsZero(Snap()) {
        sign := -sign;
      }
    }

    /** rt_int_shift_add_limb on a non-negative number: times Base plus the limb.  Zero stays
        zero for a zero limb and becomes the one-limb number otherwise; any other number has
        its limbs moved up one place in a block reserved for it, the limb put in at the bottom,
        sign +1, and is normalized. */
    method ShiftAddLimb(limb: int)
      requires 0 <= limb < Base && Valid()
      modifies this, digits
      ensures digits == old(digits) || fresh(digits)
      ensures Valid() && Value() == Base * CInt.Abs(old(Value())) + limb && sign >= 0
    {
      ValueSign(Snap());
      ghost var mag := CInt.Abs(Value());
      if IsZero(Snap()) {
        if limb == 0 {
          return;
        }
        Reserve(1);
        digits[0] := limb;
        len := 1;
        sign := 1;
        assert digits[..1] == [limb] && [limb][..0] == [];
        return;
      }
      ghost var low := digits[..len];
      assert mag == Val(low) > 0;
      ShiftUp(limb);
      ShiftedLimbs(limb, low);
      Normalize();
      PositiveValid(digits[..len]);
    }

    /** The memmove of rt_int_shift_add_limb: the used limbs moved up one place in a block
        reserved for one more, the limb put in at the bottom, and sign +1. */
    method ShiftUp(limb: int)
      requires len <= digits.Length
      modifies this, digits
      ensures digits == old(digits) || fresh(digits)
      ensures sign == 1 && len == old(len) + 1 <= digits.Length
      ensures digits[..len] == [limb] + old(digits[..len])
    {
      ghost var low := digits[..len];
      Reserve(len + 1);
      assert digits[..len] == low;
      PlaceBelow(limb, len);
      len := len + 1;
      sign := 1;
    }

    /** The memmove of the first n limbs one place up, and the new limb in place 0. */
    method PlaceBelow(limb: int, n: nat)
      requires n < digits.Length
      modifies digits
      ensures digits[..n + 1] == [limb] + old(digits[..n])
    {
      forall k | 0 <= k < n {
        digits[k + 1] := digits[k];
      }
      digits[0] := limb;
      forall k | 0 <= k < n + 1
        ensures digits[..n + 1][k] == ([limb] + old(digits[..n]))[k]
      {
        if k > 0 {
          assert digits[k] == old(digits[k - 1]);
        }
      }
    }

    /** rt_int_mul_small_copy: b's magnitude times a digit below Base, with sign +1, or zero. */
    method MulSmallCopy(b: Num, q: int)
      requires NumValid(b) && 0 <= q < Base && len <= digits.Length
      modifies this, digits
      ensures digits == old(digits) || fresh(digits)
      ensures Valid() && Value() == Val(b.limbs) * q
    {
      CopyFrom(b);
      if q == 0 || IsZero(Snap()) {
        SetZero();
        return;
      }
      ghost var vb := Val(b.limbs);
      assert vb > 0 by {
        ValueSign(b);
      }
      MulSmall(q);
      ghost var v := Val(digits[..len]);
      assert v == vb * q && v > 0 by {
        MulGeSelf(q, vb);
      }
      sign := 1;
      Normalize();
      PositiveValid(digits[..len]);
    }

    /** The binary search of rt_int_divmod_abs, in this scratch number: the largest digit below
        Base whose multiple of b is at most r.  Since r < Base * b, that is r's quotient by b.
        The search's exit for a zero midpoint is never taken, as 0 * b <= r. */
    method BestDigit(b: Num, r: Num) returns (best: int)
      requires NumValid(b) && b.sign == 1 && Val(b.limbs) > 0 && Normalized(r.limbs)
      requires Val(r.limbs) < Base * Val(b.limbs) && len <= digits.Length
      modifies this, digits
      ensures digits == old(digits) || fresh(digits)
      ensures len <= digits.Length
      ensures 0 <= best < Base && best == Val(r.limbs) / Val(b.limbs)
    {
      ValueSign(b);
      ValBounds(r.limbs);
      ghost var vb, vr := Val(b.limbs), Val(r.limbs);
      var lo, hi := 0, Base - 1;
      best := 0;
      while lo <= hi
        invariant digits == old(digits) || fresh(digits)
        invariant len <= digits.Length
        invariant 0 <= lo <= hi + 1 <= Base && 0 <= best < Base
        invariant best * vb <= vr < (hi + 1) * vb
        invariant (lo == 0 && best == 0) || lo == best + 1
        decreases hi - lo
      {
        var mid := lo + (hi - lo) / 2;
        MulSmallCopy(b, mid);
        ValueSign(Snap());
        assert Val(digits[..len]) == mid * vb;
        var cmp := CmpAbs(Snap(), r);
        if cmp <= 0 {
          best := mid;
          lo := mid + 1;
        } else {
          assert mid > 0;
          hi := mid - 1;
        }
      }
      SearchExit(lo, hi, best, vb, vr);
    }

    /** The quotient half of rt_int_divmod's sign fix-up: the truncated quotient q0 is copied;
        for operands of opposite signs it is negated when the division was exact and becomes
        -(q0 + 1) otherwise. */
    method FloorQuotient(q0: Num, exact: bool, opposite: bool)
      requires NumValid(q0) && len <= digits.Length
      modifies this, digits
      ensures digits == old(digits) || fresh(digits)
      ensures Valid()
      ensures Value() == if !opposite then NumValue(q0) else if exact then -NumValue(q0) else -(NumValue(q0) + 1)
    {
      CopyFrom(q0);
      if exact {
        if opposite {
          NegInPlace();
        }
      } else if opposite {
        var one := new RtInt();
        one.SetSi(1);
        Add(q0, one.Snap());
        NegInPlace();
        one.Clear();
      }
    }

    /** The remainder half of rt_int_divmod's sign fix-up: the truncated remainder r0 is copied;
        a nonzero one becomes |b| - r0 for operands of opposite signs, and a nonzero result takes
        the sign of a negative divisor. */
    method FloorRemainder(r0: Num, bb: Num, opposite: bool, negDivisor: bool)
      requires NumValid(r0) && r0.sign >= 0 && NumValid(bb) && bb.sign == 1
      requires Val(r0.limbs) < Val(bb.limbs) && len <= digits.Length
      modifies this, digits
      ensures digits == old(digits) || fresh(digits)
      ensures Valid()
      ensures var r1 := if NumValue(r0) == 0 || !opposite then NumValue(r0) else Val(bb.limbs) - NumValue(r0);
              Value() == if r1 != 0 && negDivisor then -r1 else r1
    {
      ValueSign(r0);
      CopyFrom(r0);
      if !IsZero(r0) && opposite {
        SubAbs(bb, r0);
        Normalize();
        if len > 0 {
          PositiveValid(digits[..len]);
        }
      }
      if !IsZero(Snap()) && negDivisor {
        NegInPlace();
      }
    }

    /** rt_int_divmod_abs, with this number the quotient and r the remainder, for a >= 0 and
        b > 0: zero and a when a is the smaller; otherwise a's limbs from the top shifted into
        r, each quotient digit found by BestDigit and its multiple of b taken off r, the digits
        stored over a block of a's length, and both normalized. */
    method DivModAbs(r: RtInt, a: Num, b: Num)
      requires NumValid(a) && a.sign >= 0 && NumValid(b) && b.sign == 1 && Val(b.limbs) > 0
      requires len <= digits.Length && r.len <= r.digits.Length && r != this && r.digits != digits
      modifies this, digits, r, r.digits
      ensures digits == old(digits) || fresh(digits)
      ensures r.digits == old(r.digits) || fresh(r.digits)
      ensures Valid() && r.Valid() && sign >= 0 && r.sign >= 0
      ensures Value() == Val(a.limbs) / Val(b.limbs) && r.Value() == Val(a.limbs) % Val(b.limbs)
    {
      ValueSign(a);
      ValueSign(b);
      var c := CmpAbs(a, b);
      if c < 0 {
        SetZero();
        r.CopyFrom(a);
        if !IsZero(r.Snap()) {
          r.sign := 1;
        }
        CInt.DivOf(Val(a.limbs), Val(b.limbs), 0, Val(a.limbs));
        return;
      }
      assert Val(a.limbs) >= Val(b.limbs);
      DivideBlock(r, a.limbs, b);
    }

    /** rt_int_divmod_abs past its early exit, for a dividend of at least the divisor: a
        quotient block as long as the dividend, the long division into it, then both results
        normalized. */
    method DivideBlock(r: RtInt, x: seq<int>, b: Num)
      requires IsLimbs(x) && NumValid(b) && b.sign == 1 && Val(b.limbs) > 0 && Val(x) >= Val(b.limbs)
      requires len <= digits.Length && r.len <= r.digits.Length && r != this && r.digits != digits
      modifies this, digits, r, r.digits
      ensures digits == old(digits) || fresh(digits)
      ensures r.digits == old(r.digits) || fresh(r.digits)
      ensures Valid() && r.Valid() && sign == 1 && r.sign >= 0
      ensures Value() == Val(x) / Val(b.limbs) && r.Value() == Val(x) % Val(b.limbs)
    {
      QuotientBlock(|x|);
      r.SetZero();
      LongDivision(r, x, b);
      ghost var q, m := Val(digits[..len]), r.Value();
      assert 0 <= m by {
        ValueSign(r.Snap());
      }
      CInt.DivOf(Val(x), Val(b.limbs), q, m);
      assert q > 0;
      Normalize();
      PositiveValid(digits[..len]);
      r.Normalize();
    }

    /** The loop of rt_int_divmod_abs over a block of |x| limbs with r zero: from the top limb
        of x down, DivRound shifts the limb into r and stores the quotient digit it finds.  The
        block then holds the quotient's digits and r what is left, below b. */
    method LongDivision(r: RtInt, x: seq<int>, b: Num)
      requires IsLimbs(x) && NumValid(b) && b.sign == 1 && Val(b.limbs) > 0
      requires len == |x| <= digits.Length && r.Valid() && r.sign == 0
      requires r.len <= r.digits.Length && r != this && r.digits != digits
      modifies digits, r, r.digits
      ensures r.digits == old(r.digits) || fresh(r.digits)
      ensures IsLimbs(digits[..len]) && r.Valid() && r.sign >= 0 && r.Value() < Val(b.limbs)
      ensures Val(x) == Val(b.limbs) * Val(digits[..len]) + r.Value()
    {
      var n := |x|;
      var tmp := new RtInt();
      ghost var quot: seq<int> := [];
      ghost var vb := Val(b.limbs);
      for i := n downto 0
        invariant fresh(tmp.digits) && (r.digits == old(r.digits) || fresh(r.digits))
        invariant r != tmp && r.digits != tmp.digits && r.digits != digits && tmp.digits != digits
        invariant r.Valid() && r.sign >= 0 && r.Value() < vb && tmp.len <= tmp.digits.Length
        invariant digits[i..n] == quot && IsLimbs(quot)
        invariant Val(x[i..]) == Val(quot) * vb + r.Value()
      {
        ghost var rv := r.Value();
        var best := DivRound(r, tmp, b, x[i]);
        ghost var d0 := digits[..];
        digits[i] := best;
        QuotientDigit(x, i, quot, vb, rv, best, r.Value());
        SpliceDigit(d0, i, n, quot, best);
        quot := [best] + quot;
        assert digits[i..n] == digits[..][i..n];
      }
      assert x[0..] == x && digits[0..n] == digits[..n];
      assert Val(quot) * Val(b.limbs) == Val(b.limbs) * Val(quot);
      tmp.Clear();
    }

    /** The start of rt_int_divmod_abs's long division: a block of n limbs reserved and zeroed,
        length n and sign +1. */
    method QuotientBlock(n: nat)
      requires len <= digits.Length
      modifies this, digits
      ensures digits == old(digits) || fresh(digits)
      ensures len == n <= digits.Length && sign == 1
      ensures forall k | 0 <= k < n :: digits[k] == 0
    {
      Reserve(n);
      forall k | 0 <= k < n {
        digits[k] := 0;
      }
      len := n;
      sign := 1;
    }

    /** rt_int_floordiv: the quotient of rt_int_divmod, with its error. */
    method FloorDiv(a: Num, b: Num) returns (raised: Option<Raised>)
      requires NumValid(a) && NumValid(b) && len <= digits.Length
      modifies this, digits
      ensures digits == old(digits) || fresh(digits)
      ensures raised == Some(DivByZero) <==> NumValue(b) == 0
      ensures raised.None? <==> NumValue(b) != 0
      ensures NumValue(b) != 0 ==> Valid() && Value() == CInt.PyFloorDiv(NumValue(a), NumValue(b))
    {
      var q := new RtInt();
      var r := new RtInt();
      raised := DivMod(q, r, a, b);
      if raised.Some? {
        return;
      }
      CopyFrom(q.Snap());
      q.Clear();
      r.Clear();
    }

    /** rt_int_mod: the remainder of rt_int_divmod, with its error. */
    method Mod(a: Num, b: Num) returns (raised: Option<Raised>)
      requires NumValid(a) && NumValid(b) && len <= digits.Length
      modifies this, digits
      ensures digits == old(digits) || fresh(digits)
      ensures raised == Some(DivByZero) <==> NumValue(b) == 0
      ensures raised.None? <==> NumValue(b) != 0
      ensures NumValue(b) != 0 ==> Valid() && Value() == CInt.PyMod(NumValue(a), NumValue(b))
    {
      var q := new RtInt();
      var r := new RtInt();
      raised := DivMod(q, r, a, b);
      if raised.Some? {
        return;
      }
      CopyFrom(r.Snap());
      q.Clear();
      r.Clear();
    }

    /** The subtraction in rt_int_divmod_abs's round: best times b formed in the scratch number
        tmp and taken off this positive remainder in place, which keeps sign +1 unless it
        becomes zero. */
    method SubMultiple(tmp: RtInt, b: Num, best: int)
      requires NumValid(b) && 0 < best < Base && Valid() && sign == 1
      requires Val(b.limbs) * best <= Val(digits[..len])
      requires tmp.len <= tmp.digits.Length && tmp != this && tmp.digits != digits
      modifies this, digits, tmp, tmp.digits
      ensures digits == old(digits) || fresh(digits)
      ensures tmp.digits == old(tmp.digits) || fresh(tmp.digits)
      ensures digits != tmp.digits && tmp.len <= tmp.digits.Length
      ensures Valid() && sign >= 0 && Value() == old(Val(digits[..len])) - Val(b.limbs) * best
    {
      tmp.MulSmallCopy(b, best);
      assert Val(tmp.digits[..tmp.len]) == Val(b.limbs) * best by {
        ValueSign(tmp.Snap());
        ValBounds(b.limbs);
      }
      SubAbs(Snap(), tmp.Snap());
      if !IsZero(Snap()) {
        sign := 1;
      }
    }
  }

  // -----------------------------------------------------------------------------------------------
  // What rt_int_from_dec accepts

  /** rt_is_space. */
  predicate IsSpace(c: char) { c == ' ' || c == '\t' || c == '\n' || c == '\r' }

  /** The first position from i on that is not whitespace. */
  function SkipSpaces(t: string, i: nat): (j: nat)
    requires i <= |t|
    ensures i <= j <= |t| && (j < |t| ==> !IsSpace(t[j]))
    decreases |t| - i
  {
    if i < |t| && IsSpace(t[i]) then SkipSpaces(t, i + 1) else i
  }

  lemma {:induction false} SkipSpacesTo(t: string, i: nat, j: nat)
    requires i <= j <= |t| && (forall k | i <= k < j :: IsSpace(t[k])) && (j < |t| ==> !IsSpace(t[j]))
    ensures SkipSpaces(t, i) == j
    decreases j - i
  {
    if i < j {
      SkipSpacesTo(t, i + 1, j);
    }
  }

  /** Where the leading whitespace, the optional sign and the whitespace after it end. */
  function DecStart(t: string): (z: nat)
    ensures z <= |t|
  {
    var i := SkipSpaces(t, 0);
    SkipSpaces(t, if i < |t| && (t[i] == '+' || t[i] == '-') then i + 1 else i)
  }

  /** The sign rt_int_from_dec reads: -1 after a '-', otherwise +1. */
  function DecSign(t: string): (sg: int)
    ensures sg == 1 || sg == -1
  {
    var i := SkipSpaces(t, 0);
    if i < |t| && t[i] == '-' then -1 else 1
  }

  /** What rt_int_from_dec makes of a C string's characters: nothing when only whitespace and a
      sign are there, or when the first character after the run of digits is neither whitespace
      nor the end; otherwise the run of digits under the sign.  Nothing after the first
      whitespace past the digits is read. */
  function DecValue(t: string): Option<int>
  {
    var z := DecStart(t);
    if z == |t| then None
    else
      var e := DigitsEnd(t, z);
      if e < |t| && !IsSpace(t[e]) then None
      else
        var v: int := DigitRunValue(t, z);
        Some(if DecSign(t) == -1 then -v else v)
  }

  /** The value of the run of digits that starts at z. */
  function DigitRunValue(t: string, z: nat): nat
    requires z <= |t|
  {
    DigitsEndOver(t, z);
    DigitRun(t, z, DigitsEnd(t, z));
    ParseDigits(t[z..DigitsEnd(t, z)])
  }

  /** The same for a possibly NULL text: nothing for NULL. */
  function DecText(dec: Option<string>): Option<int>
  {
    if dec.None? then None else DecValue(RtError.CString(dec.value))
  }

  /** The decimal text of a number of any sign reads back as that number. */
  lemma DecValueRoundTrip(n: int)
    ensures DecValue(Decimal.IntToString(n)) == Some(n)
  {
    if n < 0 {
      NatToStringShape(-n);
      NatToStringRoundTrip(-n);
      var s := Decimal.NatToString(-n);
      assert Decimal.IntToString(n) == "-" + s;
      DecValueMinusDigits(s);
      assert ParseDigits(s) as int == -n;
    } else {
      NatToStringShape(n);
      NatToStringRoundTrip(n);
      var s := Decimal.NatToString(n);
      assert Decimal.IntToString(n) == s;
      DecValueDigits(s);
      assert ParseDigits(s) as int == n;
    }
  }

  /** A minus sign and a run of digits, or the run alone, with nothing after them. */
  lemma DecValueMinusDigits(s: string)
    requires |s| >= 1 && AllDigits(s)
    ensures DecValue("-" + s) == Some(-(ParseDigits(s) as int))
  {
    var t := "-" + s;
    assert t[1..1 + |s|] == s;
    DecValueDigitText(t, 1, s);
  }

  lemma DecValueDigits(s: string)
    requires |s| >= 1 && AllDigits(s)
    ensures DecValue(s) == Some(ParseDigits(s) as int)
  {
    assert s[0..|s|] == s;
    DecValueDigitText(s, 0, s);
  }

  /** A text that is an optional minus sign, then digits, then nothing or whitespace and
      anything after it, reads as those digits under that sign. */
  lemma DecValueDigitText(t: string, off: nat, s: string)
    requires off <= 1 && off + |s| <= |t| && t[off..off + |s|] == s && (off == 1 ==> t[0] == '-')
    requires |s| >= 1 && AllDigits(s)
    requires off + |s| < |t| ==> IsSpace(t[off + |s|])
    ensures DecValue(t) == Some(if off == 1 then -(ParseDigits(s) as int) else ParseDigits(s))
  {
    assert t[off] == s[0] && IsDigit(s[0]);
    SkipSpacesTo(t, 0, 0);
    SkipSpacesTo(t, off, off);
    assert DecStart(t) == off;
    assert DecSign(t) == (if off == 1 then -1 else 1);
    DigitsRange(t, off, off + |s|);
    DigitsEndTo(t, off, off + |s|);
    var v: int := DigitRunValue(t, off);
    assert v == ParseDigits(s);
  }

  /** Whitespace after a number ends it: whatever follows is not read. */
  lemma DecValueStopsAtSpace(n: int, c: char, rest: string)
    requires IsSpace(c)
    ensures DecValue(Decimal.IntToString(n) + [c] + rest) == Some(n)
  {
    if n < 0 {
      NatToStringShape(-n);
      NatToStringRoundTrip(-n);
      var s := Decimal.NatToString(-n);
      assert Decimal.IntToString(n) == "-" + s;
      DecValueMinusDigitsSpace(s, c, rest);
      assert ParseDigits(s) as int == -n;
    } else {
      NatToStringShape(n);
      NatToStringRoundTrip(n);
      var s := Decimal.NatToString(n);
      assert Decimal.IntToString(n) == s;
      DecValueDigitsSpace(s, c, rest);
      assert ParseDigits(s) as int == n;
    }
  }

  /** The same two shapes followed by whitespace and anything after it. */
  lemma DecValueMinusDigitsSpace(s: string, c: char, rest: string)
    requires |s| >= 1 && AllDigits(s) && IsSpace(c)
    ensures DecValue("-" + s + [c] + rest) == Some(-(ParseDigits(s) as int))
  {
    var t := "-" + s + [c] + rest;
    SignedTextShape("-", s, [c] + rest);
    assert t == "-" + s + ([c] + rest);
    DecValueDigitText(t, 1, s);
  }

  lemma DecValueDigitsSpace(s: string, c: char, rest: string)
    requires |s| >= 1 && AllDigits(s) && IsSpace(c)
    ensures DecValue(s + [c] + rest) == Some(ParseDigits(s) as int)
  {
    var t := s + [c] + rest;
    SignedTextShape("", s, [c] + rest);
    assert t == "" + s + ([c] + rest);
    DecValueDigitText(t, 0, s);
  }

  /** Where the pieces of a sign, digits and a tail sit in their concatenation. */
  lemma SignedTextShape(p: string, s: string, tail: string)
    ensures var t := p + s + tail;
            |t| == |p| + |s| + |tail| && t[..|p|] == p && t[|p|..|p| + |s|] == s && t[|p| + |s|..] == tail
  {
    var t := p + s + tail;
    assert t[..|p|] == p;
    assert t[|p|..|p| + |s|] == s;
    assert t[|p| + |s|..] == tail;
  }

  /** Any other character right after the digits makes the whole text invalid. */
  lemma DecValueRejectsJunk(n: nat, c: char, rest: string)
    requires !IsDigit(c) && !IsSpace(c)
    ensures DecValue(Decimal.NatToString(n) + [c] + rest) == None
  {
    var s := Decimal.NatToString(n);
    var t := s + [c] + rest;
    NatToStringShape(n);
    assert t[..|s|] == s && t[|s|] == c;
    assert IsDigit(t[0]) by {
      assert t[0] == s[0];
    }
    SkipSpacesTo(t, 0, 0);
    assert DecStart(t) == 0;
    forall k | 0 <= k < |s| ensures IsDigit(t[k]) {
      assert t[k] == s[k];
    }
    DigitsEndTo(t, 0, |s|);
  }

  /** Whitespace and at most one sign, and nothing else, are refused, the empty text included. */
  lemma DecValueRejectsBlank(pre: string, sgn: string, post: string)
    requires forall k | 0 <= k < |pre| :: IsSpace(pre[k])
    requires sgn == "" || sgn == "-" || sgn == "+"
    requires forall k | 0 <= k < |post| :: IsSpace(post[k])
    ensures DecValue(pre + sgn + post) == None
  {
    var t := pre + sgn + post;
    var a := |pre|;
    var b := |pre| + |sgn|;
    forall k | 0 <= k < a ensures IsSpace(t[k]) {
      assert t[k] == pre[k];
    }
    forall k | b <= k < |t| ensures IsSpace(t[k]) {
      assert t[k] == post[k - b];
    }
    if sgn == "" {
      SkipSpacesTo(t, 0, |t|);
    } else {
      assert t[a] == sgn[0];
      SkipSpacesTo(t, 0, a);
      SkipSpacesTo(t, b, |t|);
    }
  }

  // -----------------------------------------------------------------------------------------------
  // Helpers of the limb loops

  /** Base^3 is more than any 64-bit magnitude. */
  lemma ThreeLimbs()
    ensures Pow(3) == Base * Base * Base && Pow(3) > CInt.Int64Max + 1
  {
    assert Pow(1) == Base;
    assert Pow(2) == Base * Base;
  }

  /** One step of AddCarry's loop, on integers: limb x at weight p becomes (x + carry) % Base,
      and the carry out at weight Base * p makes up the rest. */
  lemma CarryUp(v: int, p: int, x: int, carry: int, cur: int)
    requires cur == x + carry
    ensures v + p * (cur % Base - x) + (Base * p) * (cur / Base) == v + p * carry
  {
    CarryStep(p, cur);
    assert p * (cur % Base - x) == p * (cur % Base) - p * x;
    assert p * cur == p * x + p * carry;
  }

  /** What the carry loop of MulSmall keeps over the limbs `img`: below i, the limbs of m times
      the old limbs `low` below i, less the pending carry; from i on, the old limbs. */
  ghost predicate ScaleState(img: seq<int>, low: seq<int>, i: nat, carry: int, m: int)
  {
    && |img| == |low| && i <= |img| && IsLimbs(low)
    && IsLimbs(img[..i]) && img[i..] == low[i..]
    && Val(img[..i]) + Pow(i) * carry == m * Val(low[..i])
  }

  /** One step of MulSmall's loop: limb i becomes (low[i] * m + carry) % Base and the carry
      the quotient, which stays below Base. */
  lemma ScaleNext(img: seq<int>, low: seq<int>, i: nat, carry: int, m: int)
    requires ScaleState(img, low, i, carry, m) && i < |img| && 0 <= carry < Base && 0 <= m < Base
    ensures img[i] == low[i]
    ensures var cur := img[i] * m + carry;
            0 <= cur / Base < Base && ScaleState(img[i := cur % Base], low, i + 1, cur / Base, m)
  {
    assert img[i] == img[i..][0] == low[i..][0] == low[i];
    var li := low[i];
    var cur := li * m + carry;
    LimbProduct(li, m);
    assert 0 <= cur < Base * Base;
    var img' := img[i := cur % Base];
    assert img'[..i + 1] == img[..i] + [cur % Base];
    assert img'[i + 1..] == low[i + 1..];
    EmitLimb(img[..i], cur);
    ValPrefix(low, i);
    ScaleArith(Val(img[..i]), Pow(i), carry, m, Val(low[..i]), li);
  }

  /** The arithmetic of ScaleNext: with v + p * carry == m * w, adding p * (l * m + carry) and
      taking back p * carry gives m * (w + p * l). */
  lemma ScaleArith(v: int, p: int, carry: int, m: int, w: int, l: int)
    requires v + p * carry == m * w
    ensures v + p * (l * m + carry) == m * (w + p * l)
  {
    assert p * (l * m + carry) == p * (l * m) + p * carry;
    assert m * (w + p * l) == m * w + m * (p * l);
    assert p * (l * m) == m * (p * l);
  }

  /** Three numbers with blocks of their own. */
  ghost predicate Apart(r: RtInt, b: RtInt, t: RtInt)
    reads r, b, t
  {
    r != b && r != t && b != t && r.digits != b.digits && r.digits != t.digits && b.digits != t.digits
  }

  /** The loop of rt_int_pow over three scratch numbers: while bits of the exponent are left, the
      result takes a factor of the base for a set bit, and the base is squared when more bits
      follow.  The scratch numbers are cleared and the result's value is returned. */
  method SquareAndMultiply(a: Num, e: nat) returns (p: Num)
    requires NumValid(a)
    ensures NumValid(p) && NumValue(p) == CInt.Power(NumValue(a), e)
  {
    var result := new RtInt();
    var base := new RtInt();
    var tmp := new RtInt();
    result.SetSi(1);
    base.CopyFrom(a);
    var k: nat := e;
    while k > 0
      invariant fresh(result.digits) && fresh(base.digits) && fresh(tmp.digits)
      invariant Apart(result, base, tmp)
      invariant result.Valid() && base.Valid() && tmp.len <= tmp.digits.Length
      invariant result.Value() * CInt.Power(base.Value(), k) == CInt.Power(NumValue(a), e)
    {
      k := PowRound(result, base, tmp, k);
    }
    p := result.Snap();
    tmp.Clear();
    base.Clear();
    result.Clear();
  }

  /** One round of rt_int_pow's loop: for a set low bit the result is multiplied by the base,
      the exponent is shifted right, and while bits are left the base is squared. */
  method PowRound(result: RtInt, base: RtInt, tmp: RtInt, k: nat) returns (k': nat)
    requires k > 0 && Apart(result, base, tmp)
    requires result.Valid() && base.Valid() && tmp.len <= tmp.digits.Length
    modifies result, result.digits, base, base.digits, tmp, tmp.digits
    ensures k' == k / 2
    ensures result.digits == old(result.digits) || fresh(result.digits)
    ensures base.digits == old(base.digits) || fresh(base.digits)
    ensures tmp.digits == old(tmp.digits) || fresh(tmp.digits)
    ensures Apart(result, base, tmp)
    ensures result.Valid() && base.Valid() && tmp.len <= tmp.digits.Length
    ensures result.Value() * CInt.Power(base.Value(), k') == old(result.Value() * CInt.Power(base.Value(), k))
  {
    ghost var rv, bv := result.Value(), base.Value();
    if k % 2 == 1 {
      tmp.MulInto(result, result.Snap(), base.Snap());
    }
    k' := k / 2;
    if k' > 0 {
      tmp.MulInto(base, base.Snap(), base.Snap());
    }
    PowStep(rv, bv, k, base.Value(), result.Value(), rv * CInt.Power(bv, k));
  }

  /** The loop of rt_int_powmod over three scratch numbers: the base and 1 reduced first, then
      while bits of the exponent are left the result takes a factor of the base for a set bit
      and the base is squared when more bits follow, each product reduced by the modulus.  The
      scratch numbers are cleared and the result's value is returned. */
  method ModSquareAndMultiply(a: Num, e: nat, m: Num) returns (p: Num)
    requires NumValid(a) && NumValid(m) && NumValue(m) != 0
    ensures NumValid(p) && NumValue(p) == CInt.PyMod(CInt.Power(NumValue(a), e), NumValue(m))
  {
    ghost var mv := NumValue(m);
    var result := new RtInt();
    var base := new RtInt();
    var tmp := new RtInt();
    var failed := base.Mod(a, m);
    result.SetSi(1);
    failed := result.Mod(result.Snap(), m);
    CInt.PyModIdem(NumValue(a), mv);
    CInt.PyModIdem(1, mv);
    CInt.PyModPower(base.Value(), NumValue(a), e, mv);
    CInt.PyModMul(result.Value(), 1, CInt.Power(base.Value(), e), CInt.Power(NumValue(a), e), mv);
    var k: nat := e;
    while k > 0
      invariant fresh(result.digits) && fresh(base.digits) && fresh(tmp.digits)
      invariant Apart(result, base, tmp)
      invariant result.Valid() && base.Valid() && tmp.len <= tmp.digits.Length
      invariant CInt.PyMod(result.Value(), mv) == result.Value()
      invariant CInt.PyMod(result.Value() * CInt.Power(base.Value(), k), mv) == CInt.PyMod(CInt.Power(NumValue(a), e), mv)
    {
      k := PowModRound(result, base, tmp, k, m);
    }
    p := result.Snap();
    tmp.Clear();
    base.Clear();
    result.Clear();
  }

  /** One round of rt_int_powmod's loop: for a set low bit the result is multiplied by the base
      and reduced, the exponent is shifted right, and while bits are left the base is squared
      and reduced. */
  method PowModRound(result: RtInt, base: RtInt, tmp: RtInt, k: nat, m: Num) returns (k': nat)
    requires k > 0 && Apart(result, base, tmp) && NumValid(m) && NumValue(m) != 0
    requires result.Valid() && base.Valid() && tmp.len <= tmp.digits.Length
    requires CInt.PyMod(result.Value(), NumValue(m)) == result.Value()
    modifies result, result.digits, base, base.digits, tmp, tmp.digits
    ensures k' == k / 2
    ensures result.digits == old(result.digits) || fresh(result.digits)
    ensures base.digits == old(base.digits) || fresh(base.digits)
    ensures tmp.digits == old(tmp.digits) || fresh(tmp.digits)
    ensures Apart(result, base, tmp)
    ensures result.Valid() && base.Valid() && tmp.len <= tmp.digits.Length
    ensures CInt.PyMod(result.Value(), NumValue(m)) == result.Value()
    ensures CInt.PyMod(result.Value() * CInt.Power(base.Value(), k'), NumValue(m)) ==
            old(CInt.PyMod(result.Value() * CInt.Power(base.Value(), k), NumValue(m)))
  {
    ghost var rv, bv := result.Value(), base.Value();
    if k % 2 == 1 {
      var x, y := result.Snap(), base.Snap();
      MulModInto(result, x, y, tmp, m);
      assert result.Value() == CInt.PyMod(rv * bv, NumValue(m));
      assert base.Valid() && base.Value() == bv;
      CInt.PyModIdem(rv * bv, NumValue(m));
    }
    k' := k / 2;
    ghost var rv' := result.Value();
    if k' > 0 {
      var y := base.Snap();
      MulModInto(base, y, y, tmp, m);
      assert base.Value() == CInt.PyMod(bv * bv, NumValue(m));
      assert result.Valid() && result.Value() == rv';
      CInt.PyModIdem(bv * bv, NumValue(m));
    }
    PowModStep(rv, bv, k, base.Value(), result.Value(), NumValue(m));
  }

  /** The product of two numbers reduced modulo m, through a scratch number, as each step of
      rt_int_powmod's loop does it. */
  method MulModInto(dst: RtInt, a: Num, b: Num, tmp: RtInt, m: Num)
    requires dst != tmp && dst.digits != tmp.digits
    requires NumValid(a) && NumValid(b) && NumValid(m) && NumValue(m) != 0
    requires dst.len <= dst.digits.Length && tmp.len <= tmp.digits.Length
    modifies dst, dst.digits, tmp, tmp.digits
    ensures dst.digits == old(dst.digits) || fresh(dst.digits)
    ensures tmp.digits == old(tmp.digits) || fresh(tmp.digits)
    ensures dst.digits != tmp.digits
    ensures dst.Valid() && tmp.len <= tmp.digits.Length
    ensures dst.Value() == CInt.PyMod(NumValue(a) * NumValue(b), NumValue(m))
  {
    tmp.Mul(a, b);
    var failed := dst.Mod(tmp.Snap(), m);
  }

  /** One round of rt_int_powmod's loop on integers: a result and base with the remainders of
      the round's products keep the remainder of result * base^k when k is halved. */
  lemma PowModStep(rv: int, bv: int, k: nat, bv': int, rv': int, mv: int)
    requires k > 0 && mv != 0
    requires CInt.PyMod(rv', mv) == CInt.PyMod(if k % 2 == 1 then rv * bv else rv, mv)
    requires k / 2 > 0 ==> CInt.PyMod(bv', mv) == CInt.PyMod(bv * bv, mv)
    requires k / 2 == 0 ==> bv' == bv
    ensures CInt.PyMod(rv' * CInt.Power(bv', k / 2), mv) == CInt.PyMod(rv * CInt.Power(bv, k), mv)
  {
    var f := if k % 2 == 1 then rv * bv else rv;
    HalvedProduct(rv, bv, k);
    if k / 2 > 0 {
      CInt.PyModPower(bv', bv * bv, k / 2, mv);
    }
    CInt.PyModMul(rv', f, CInt.Power(bv', k / 2), CInt.Power(bv * bv, k / 2), mv);
  }

  /** The square-and-multiply step on integers: result * base^k is the result with the odd
      bit's factor times the squared base to half of k. */
  lemma HalvedProduct(rv: int, bv: int, k: nat)
    ensures rv * CInt.Power(bv, k) == (if k % 2 == 1 then rv * bv else rv) * CInt.Power(bv * bv, k / 2)
  {
    CInt.PowerHalve(bv, k);
    var h := CInt.Power(bv * bv, k / 2);
    if k % 2 == 1 {
      assert rv * (bv * h) == (rv * bv) * h;
    }
  }

  // -----------------------------------------------------------------------------------------------
  // Division

  /** What rt_int_divmod raises for a zero divisor. */
  const DivByZero := Raised("ZeroDivisionError", "integer division or modulo by zero")

  /** One step of rt_int_divmod_abs's long division, with r below b: the limb shifted into r,
      the quotient digit of the result by b found, and its multiple of b taken off r when the
      digit is not zero. */
  method DivRound(r: RtInt, tmp: RtInt, b: Num, limb: int) returns (best: int)
    requires NumValid(b) && b.sign == 1 && 0 <= limb < Base
    requires r.Valid() && r.sign >= 0 && r.Value() < Val(b.limbs)
    requires tmp.len <= tmp.digits.Length && r != tmp && r.digits != tmp.digits
    modifies r, r.digits, tmp, tmp.digits
    ensures r.digits == old(r.digits) || fresh(r.digits)
    ensures tmp.digits == old(tmp.digits) || fresh(tmp.digits)
    ensures r.digits != tmp.digits && tmp.len <= tmp.digits.Length
    ensures r.Valid() && r.sign >= 0 && 0 <= best < Base
    ensures Base * old(r.Value()) + limb == best * Val(b.limbs) + r.Value() && r.Value() < Val(b.limbs)
  {
    ghost var rv, vb := r.Value(), Val(b.limbs);
    ValueSign(r.Snap());
    ValueSign(b);
    r.ShiftAddLimb(limb);
    RemainderRoom(rv, limb, vb);
    ghost var shifted := r.Value();
    assert Val(r.digits[..r.len]) == shifted by {
      ValueSign(r.Snap());
    }
    best := tmp.BestDigit(b, r.Snap());
    if best != 0 {
      MultipleFits(shifted, vb, best);
      assert r.sign == 1 by {
        ValueSign(r.Snap());
      }
      r.SubMultiple(tmp, b, best);
    }
    RoundArith(rv, limb, vb, best, shifted, r.Value());
  }

  /** rt_int_divmod with distinct outputs: ZeroDivisionError for a zero divisor; otherwise the
      magnitudes' quotient and remainder, moved to Python's floor pair (section 6.7 of the Python
      Language Reference): when the signs differ the quotient is negated, and when something is
      left over as well it is one more before negation and the remainder is |b| less it; the
      remainder then takes b's sign. */
  method DivMod(q: RtInt, r: RtInt, a: Num, b: Num) returns (raised: Option<Raised>)
    requires NumValid(a) && NumValid(b)
    requires q != r && q.digits != r.digits && q.len <= q.digits.Length && r.len <= r.digits.Length
    modifies q, q.digits, r, r.digits
    ensures q.digits == old(q.digits) || fresh(q.digits)
    ensures r.digits == old(r.digits) || fresh(r.digits)
    ensures raised == Some(DivByZero) <==> NumValue(b) == 0
    ensures raised.None? <==> NumValue(b) != 0
    ensures NumValue(b) != 0 ==> q.Valid() && r.Valid()
    ensures NumValue(b) != 0 ==> q.Value() == CInt.PyFloorDiv(NumValue(a), NumValue(b))
    ensures NumValue(b) != 0 ==> r.Value() == CInt.PyMod(NumValue(a), NumValue(b))
  {
    ValueSign(a);
    ValueSign(b);
    if IsZero(b) {
      return Some(DivByZero);
    }
    var q0, r0, bb := TruncatedDivMod(a, b);
    var sa, sb := a.sign, b.sign;
    q.FloorQuotient(q0, IsZero(r0), sa * sb < 0);
    r.FloorRemainder(r0, bb, sa * sb < 0, sb < 0);
    DivModSigns(a, b, NumValue(q0), NumValue(r0));
    raised := None;
  }

  /** The unsigned half of rt_int_divmod: |a| and |b| copied into scratch numbers, divided by
      rt_int_divmod_abs, and the quotient, the remainder and |b| returned as values; the scratch
      numbers are cleared. */
  method TruncatedDivMod(a: Num, b: Num) returns (q0: Num, r0: Num, bb: Num)
    requires NumValid(a) && NumValid(b) && NumValue(b) != 0
    ensures Val(b.limbs) > 0
    ensures NumValid(q0) && NumValid(r0) && NumValid(bb)
    ensures bb == Num(1, b.limbs)
    ensures Val(a.limbs) == Val(b.limbs) * NumValue(q0) + NumValue(r0)
    ensures q0.sign >= 0 && r0.sign >= 0
    ensures NumValue(q0) >= 0 && 0 <= NumValue(r0) < Val(b.limbs)
  {
    ValueSign(a);
    ValueSign(b);
    var aa := new RtInt();
    var bn := new RtInt();
    aa.AbsCopy(a);
    bn.AbsCopy(b);
    var ma := aa.Snap();
    bb := bn.Snap();
    var qn := new RtInt();
    var rn := new RtInt();
    qn.DivModAbs(rn, ma, bb);
    q0, r0 := qn.Snap(), rn.Snap();
    assert NumValid(q0) && NumValid(r0);
    assert NumValue(q0) == Val(a.limbs) / Val(b.limbs) && NumValue(r0) == Val(a.limbs) % Val(b.limbs);
    ValBounds(a.limbs);
    DivIdentity(Val(a.limbs), Val(b.limbs));
    aa.Clear();
    bn.Clear();
    qn.Clear();
    rn.Clear();
  }

  /** rt_int_divmod's sign fix-ups give Python's floor pair: with |a| == |b| * t + rem from the
      division of the magnitudes, the cases of DivMod are those of CInt.FloorFromTruncated, and
      a zero dividend gives zero and zero. */
  lemma DivModSigns(a: Num, b: Num, t: int, rem: int)
    requires NumValid(a) && NumValid(b) && b.sign != 0 && t >= 0
    requires Val(a.limbs) == Val(b.limbs) * t + rem && 0 <= rem < Val(b.limbs)
    ensures var A, B := NumValue(a), NumValue(b);
            var q := if a.sign * b.sign < 0 then (if rem == 0 then -t else -(t + 1)) else t;
            var r0 := if rem == 0 || a.sign * b.sign >= 0 then rem else Val(b.limbs) - rem;
            var r := if r0 != 0 && b.sign < 0 then -r0 else r0;
            q == CInt.PyFloorDiv(A, B) && r == CInt.PyMod(A, B)
  {
    var va, d := Val(a.limbs), Val(b.limbs);
    assert (a.sign == 0 <==> va == 0) && (b.sign == 1 || b.sign == -1) by {
      ValueSign(a);
      ValueSign(b);
    }
    SignsInt(a.sign, b.sign, va, d, t, rem);
  }

  /** DivModSigns on integers: a == sa * va and b == sb * d with va == d * t + rem. */
  lemma SignsInt(sa: int, sb: int, va: int, d: int, t: int, rem: int)
    requires -1 <= sa <= 1 && (sb == 1 || sb == -1) && (sa == 0 <==> va == 0)
    requires d > 0 && t >= 0 && 0 <= rem < d && va == d * t + rem
    ensures var A := if sa == 0 then 0 else if sa > 0 then va else -va;
            var B := if sb > 0 then d else -d;
            var q := if sa * sb < 0 then (if rem == 0 then -t else -(t + 1)) else t;
            var r0 := if rem == 0 || sa * sb >= 0 then rem else d - rem;
            var r := if r0 != 0 && sb < 0 then -r0 else r0;
            q == CInt.PyFloorDiv(A, B) && r == CInt.PyMod(A, B)
  {
    var B := if sb > 0 then d else -d;
    assert B == sb * d;
    if sa == 0 {
      CInt.DivOf(0, d, t, rem);
      assert t == 0 && rem == 0;
      CInt.FloorOf(0, B, 0, 0);
    } else {
      assert sa * sb < 0 <==> sa != sb;
      assert (if sa > 0 then va else -va) == sa * (d * t + rem);
      CInt.FloorFromTruncated(sa, sb, d, t, rem);
    }
  }

  /** Division of a natural number by a positive one. */
  lemma DivIdentity(n: int, d: int)
    requires n >= 0 && d > 0
    ensures n == d * (n / d) + n % d && n / d >= 0 && 0 <= n % d < d
  {
  }

  /** One round of long division on integers: the shifted remainder less best times b, for
      best its quotient by b, is what is left below b. */
  lemma RoundArith(rv: int, limb: int, vb: int, best: int, shifted: int, after: int)
    requires vb > 0 && shifted == Base * rv + limb >= 0 && best == shifted / vb
    requires after == shifted - vb * best
    ensures Base * rv + limb == best * vb + after && 0 <= after < vb
  {
    DivIdentity(shifted, vb);
  }

  /** A nonzero quotient digit's multiple fits in the dividend, which is then positive. */
  lemma MultipleFits(shifted: int, vb: int, best: int)
    requires vb > 0 && shifted >= 0 && best == shifted / vb && best > 0
    ensures vb * best <= shifted && shifted > 0
  {
    DivIdentity(shifted, vb);
    assert vb * best >= vb;
  }

  /** The binary search ends on the quotient: the last digit whose multiple fits, one below the
      first that does not. */
  lemma SearchExit(lo: int, hi: int, best: int, vb: int, vr: int)
    requires vb > 0 && vr >= 0 && lo == hi + 1
    requires best * vb <= vr < (hi + 1) * vb
    requires (lo == 0 && best == 0) || lo == best + 1
    ensures best == vr / vb
  {
    assert lo != 0;
    assert (best + 1) * vb == vb * best + vb;
    CInt.DivOf(vr, vb, best, vr - vb * best);
  }

  /** A remainder below b shifted up a limb with a limb put in stays below Base * b. */
  lemma RemainderRoom(rv: int, limb: int, vb: int)
    requires 0 <= rv < vb && 0 <= limb < Base
    ensures Base * rv + limb < Base * vb
  {
    assert Base * rv <= Base * (vb - 1);
  }

  /** The dividend's suffix from limb i on, in terms of the quotient digit found for that limb
      and the digits and remainder of the suffix after it. */
  lemma QuotientDigit(x: seq<int>, i: nat, quot: seq<int>, vb: int, rv: int, best: int, rv': int)
    requires i < |x| && Val(x[i + 1..]) == Val(quot) * vb + rv && Base * rv + x[i] == best * vb + rv'
    ensures Val(x[i..]) == Val([best] + quot) * vb + rv'
  {
    ValSuffix(x, i + 1);
    ValCons(best, quot);
    DivDigitStep(x[i], Val(x[i + 1..]), Val(quot), rv, vb, best, rv');
  }

  /** A digit stored at place i in front of the digits already stored above it. */
  lemma SpliceDigit(d: seq<int>, i: nat, n: nat, quot: seq<int>, best: int)
    requires i < n <= |d| && d[i + 1..n] == quot
    ensures d[i := best][i..n] == [best] + quot
  {
    assert d[i := best][i..n] == [best] + d[i + 1..n];
  }

  /** One digit of long division: a prefix with quotient digits quot and remainder rv, extended
      by one limb below, has quotient digits best before quot and remainder rv'. */
  lemma DivDigitStep(limb: int, upper: int, quot: int, rv: int, vb: int, best: int, rv': int)
    requires upper == quot * vb + rv && Base * rv + limb == best * vb + rv'
    ensures limb + Base * upper == (best + Base * quot) * vb + rv'
  {
    assert Base * upper == Base * (quot * vb) + Base * rv;
    assert Base * (quot * vb) == (Base * quot) * vb;
    assert (best + Base * quot) * vb == best * vb + (Base * quot) * vb;
  }

  // -----------------------------------------------------------------------------------------------
  // Comparison

  /** rt_int_cmp_abs: -1 for the shorter operand and +1 for the longer; for equal lengths the
      limbs from the top down, the first that differs deciding; 0 when none does. */
  method CmpAbs(a: Num, b: Num) returns (c: int)
    requires Normalized(a.limbs) && Normalized(b.limbs)
    ensures c == Sign(Val(a.limbs) - Val(b.limbs))
  {
    var x, y := a.limbs, b.limbs;
    if |x| < |y| {
      ShorterIsSmaller(x, y);
      return -1;
    }
    if |x| > |y| {
      ShorterIsSmaller(y, x);
      return 1;
    }
    for i := |x| downto 0
      invariant x[i..] == y[i..]
    {
      var da, db := x[i], y[i];
      if da < db {
        HighestLimbDecides(x, y, i);
        return -1;
      }
      if da > db {
        HighestLimbDecides(y, x, i);
        return 1;
      }
      assert x[i..] == [x[i]] + x[i + 1..] && y[i..] == [y[i]] + y[i + 1..];
    }
    assert x == x[0..] && y == y[0..];
    return 0;
  }

  /** rt_int_cmp: the lower sign is the lower number; two zeros are equal; otherwise the
      magnitudes decide, reversed for negative numbers.  The result is -1, 0 or 1 as a is below,
      equal to or above b. */
  method Cmp(a: Num, b: Num) returns (c: int)
    requires NumValid(a) && NumValid(b)
    ensures c == Sign(NumValue(a) - NumValue(b))
  {
    ValueSign(a);
    ValueSign(b);
    if a.sign < b.sign {
      return -1;
    }
    if a.sign > b.sign {
      return 1;
    }
    if a.sign == 0 {
      return 0;
    }
    var m := CmpAbs(a, b);
    return if a.sign > 0 then m else -m;
  }

  /** A carry still pending at position k while the block's total stays below Base^n has a limb
      to go into. */
  lemma CarryRoom(v: int, c: int, k: nat, n: nat, total: int)
    requires 0 <= v && 0 <= c && v + c * Pow(k) <= total < Pow(n)
    ensures c > 0 ==> k < n
  {
    if c > 0 {
      MulCarryRoom(v, c, k, n, v + c * Pow(k), total);
    }
  }

  /** Limb k taking a carry c below Base: the new limb is the remainder, the carry out of it is
      the quotient, and the block with the carry out one place up spells what it spelled with c
      at k. */
  lemma CarryLimb(s: seq<int>, k: nat, c: int, cur: int)
    requires IsLimbs(s) && k < |s| && 0 <= c < Base && cur == s[k] + c
    ensures IsLimbs(s[k := cur % Base]) && 0 <= cur / Base < Base
    ensures Val(s[k := cur % Base]) + (cur / Base) * Pow(k + 1) == Val(s) + c * Pow(k)
  {
    ValUpdate(s, k, cur % Base);
    assert Pow(k + 1) == Base * Pow(k);
    CarryUp(Val(s), Pow(k), s[k], c, cur);
    assert (cur / Base) * (Base * Pow(k)) == (Base * Pow(k)) * (cur / Base);
    var t := s[k := cur % Base];
    assert IsLimbs(t) by {
      forall m | 0 <= m < |t| ensures 0 <= t[m] < Base {
        if m != k {
          assert t[m] == s[m];
        }
      }
    }
  }

  /** Normalized limbs spelling the product of two nonzero numbers' magnitudes, under the
      product of their signs, are a valid number whose value is the product. */
  lemma SignedProductValid(a: Num, b: Num, p: seq<int>)
    requires NumValid(a) && NumValid(b) && a.sign != 0 && b.sign != 0
    requires Normalized(p) && Val(p) == Val(a.limbs) * Val(b.limbs)
    ensures NumValid(Num(a.sign * b.sign, p))
    ensures NumValue(Num(a.sign * b.sign, p)) == NumValue(a) * NumValue(b)
  {
    SignedProduct(a, b, p);
    ValTop(a.limbs);
    ValTop(b.limbs);
    assert Val(a.limbs) * Val(b.limbs) > 0;
    ValBounds(p);
  }

  /** Normalized limbs spelling a positive magnitude, under sign +1, are a valid number with
      that value. */
  lemma PositiveValid(s: seq<int>)
    requires Normalized(s) && Val(s) > 0
    ensures NumValid(Num(1, s)) && NumValue(Num(1, s)) == Val(s)
  {
    ValBounds(s);
  }

  /** A limb put below the limbs of a positive magnitude: limbs again, spelling Base times the
      magnitude plus the limb, which is positive. */
  lemma ShiftedLimbs(limb: int, low: seq<int>)
    requires 0 <= limb < Base && IsLimbs(low) && Val(low) > 0
    ensures IsLimbs([limb] + low) && Val([limb] + low) == Base * Val(low) + limb > 0
  {
    ValCons(limb, low);
    var t := [limb] + low;
    forall k | 0 <= k < |t| ensures 0 <= t[k] < Base {
      if k > 0 {
        assert t[k] == low[k - 1];
      }
    }
  }

  /** One round of rt_int_pow's loop: with the odd bit's factor taken into the result and the
      base squared while bits are left, result * base^k keeps its value when k is halved. */
  lemma PowStep(rv: int, bv: int, k: nat, bv': int, rv': int, target: int)
    requires k > 0 && rv * CInt.Power(bv, k) == target
    requires rv' == if k % 2 == 1 then rv * bv else rv
    requires k / 2 > 0 ==> bv' == bv * bv
    ensures rv' * CInt.Power(bv', k / 2) == target
  {
    CInt.PowerHalve(bv, k);
    if k / 2 == 0 {
      assert k == 1;
      assert CInt.Power(bv, 1) == bv * CInt.Power(bv, 0);
    } else {
      var h := CInt.Power(bv * bv, k / 2);
      if k % 2 == 1 {
        assert rv * (bv * h) == (rv * bv) * h;
      }
    }
  }
}
