/** The modular runtime's big integers (runtime/rt_bigint.c, runtime/rt_bigint.h).

    An `rt_int` is a class: a sign, a used length and a limb block whose length is the
    capacity (NULL is the empty block).  The operations that only read an `rt_int` (the
    `const rt_int*` arguments) take its sign and used limbs as a `Num` value.  The two calls whose
    output is also an input, `rt_int_sub(q, q, &one)` and `rt_int_add(r, r, b)` inside
    `rt_int_divmod` (rt_bigint.c:467, 472), pass the output's snapshot; that is sound for them
    because the add and subtract loops read limb i of an input before they write limb i of the
    output.  The multiply loop does not, and it is never called with its output as an input.
    Allocation always succeeds in this model. */
module RtBigint {
  import opened Wrappers
  import opened Limbs
  import CInt
  import RtError
  import opened Decimal

  /** The smallest block rt_int_ensure_cap allocates. */
  const MinBlock: nat := 4

  /** The capacity rt_int_ensure_cap leaves: unchanged when it suffices, otherwise the largest of
      twice the old capacity, the request and 4. */
  function GrownCap(cap: nat, need: nat): (r: nat)
    ensures need <= cap ==> r == cap
    ensures cap < need ==> r >= need && r >= 2 * cap && r >= MinBlock
    ensures cap < need ==> r == need || r == 2 * cap || r == MinBlock
  {
    if need <= cap then cap
    else if 2 * cap >= need && 2 * cap >= MinBlock then 2 * cap
    else if need >= MinBlock then need
    else MinBlock
  }

  /** rt_int_is_zero on a non-NULL number: no sign or no limbs. */
  function IsZero(a: Num): (r: bool)
    ensures NumValid(a) ==> (r <==> NumValue(a) == 0)
  {
    if NumValid(a) then
      ValueSign(a);
      a.sign == 0 || |a.limbs| == 0
    else
      a.sign == 0 || |a.limbs| == 0
  }

  class BigInt {
    var sign: int
    var len: nat
    /** The limb block; its length is the capacity. */
    var digits: array<int>

    ghost predicate Valid()
      reads this, digits
    {
      len <= digits.Length && NumValid(Num(sign, digits[..len]))
    }

    /** The sign and the used limbs. */
    function Snap(): Num
      reads this, digits
      requires len <= digits.Length
    {
      Num(sign, digits[..len])
    }

    ghost function Value(): int
      reads this, digits
      requires len <= digits.Length
    {
      NumValue(Snap())
    }

    /** rt_int_init: zero, without a block. */
    constructor()
      ensures Valid() && sign == 0 && len == 0 && digits.Length == 0 && Value() == 0
      ensures fresh(digits)
    {
      sign := 0;
      len := 0;
      digits := new int[0];
    }

    /** rt_int_clear on a non-NULL number: the block freed and every field zero. */
    method Clear()
      modifies this
      ensures Valid() && sign == 0 && len == 0 && digits.Length == 0 && Value() == 0
    {
      digits := new int[0];
      sign := 0;
      len := 0;
    }

    /** rt_int_ensure_cap: a no-op when the capacity suffices; otherwise the block grows to
        `GrownCap`, keeping its limbs, and the new part is zero-filled. */
    method EnsureCap(need: nat)
      modifies this
      ensures sign == old(sign) && len == old(len)
      ensures digits.Length == GrownCap(old(digits.Length), need)
      ensures need <= old(digits.Length) ==> digits == old(digits)
      ensures old(digits.Length) < need ==> fresh(digits)
      ensures digits[..old(digits.Length)] == old(digits[..])
      ensures forall k | old(digits.Length) <= k < digits.Length :: digits[k] == 0
    {
      if need <= digits.Length {
        return;
      }
      var allocCap := digits.Length * 2;
      if allocCap < need {
        allocCap := need;
      }
      if allocCap < MinBlock {
        allocCap := MinBlock;
      }
      var block := new int[allocCap];
      forall k | 0 <= k < digits.Length {
        block[k] := digits[k];
      }
      forall k | digits.Length <= k < allocCap {
        block[k] := 0;
      }
      digits := block;
    }

    /** rt_int_normalize: zero top limbs dropped, and sign 0 once no limb is left; the value
        is unchanged. */
    method Normalize()
      requires len <= digits.Length && IsLimbs(digits[..len]) && -1 <= sign <= 1
      requires sign == 0 ==> len == 0
      modifies this
      ensures Valid() && digits == old(digits) && len <= old(len)
      ensures Value() == old(Value())
    {
      ghost var v0 := Val(digits[..len]);
      while len > 0 && digits[len - 1] == 0
        invariant len <= old(len) <= digits.Length && IsLimbs(digits[..len]) && Val(digits[..len]) == v0
        invariant sign == old(sign) && digits == old(digits)
      {
        ValDropZero(digits[..len]);
        assert digits[..len][..len - 1] == digits[..len - 1];
        len := len - 1;
      }
      if len == 0 {
        sign := 0;
      }
    }

    /** rt_int_copy with a source that is another number or this one: the source's sign and
        limbs, in a block grown as rt_int_ensure_cap grows it. */
    method Copy(src: Num)
      requires len <= digits.Length
      modifies this, digits
      ensures len <= digits.Length && Snap() == src
      ensures digits == old(digits) || fresh(digits)
      ensures digits.Length == GrownCap(old(digits.Length), |src.limbs|)
      ensures NumValid(src) ==> Valid() && Value() == NumValue(src)
    {
      EnsureCap(|src.limbs|);
      forall k | 0 <= k < |src.limbs| {
        digits[k] := src.limbs[k];
      }
      len := |src.limbs|;
      sign := src.sign;
      assert digits[..len] == src.limbs;
    }

    /** The do-while loop of rt_int_set_si: the number of limbs a positive magnitude needs. */
    static method CountLimbs(uv: int) returns (needed: nat)
      requires uv > 0
      ensures needed >= 1 && Pow(needed - 1) <= uv < Pow(needed)
    {
      needed := 0;
      var tmp := uv;
      needed := needed + 1;
      tmp := tmp / Base;
      while tmp > 0
        invariant needed >= 1 && tmp == uv / Pow(needed) && uv >= Pow(needed - 1)
      {
        QuotientStep(uv, Pow(needed), tmp);
        assert Pow(needed) * Base == Pow(needed + 1);
        needed := needed + 1;
        tmp := tmp / Base;
      }
      QuotientStep(uv, Pow(needed), tmp);
    }

    /** The digit loop of rt_int_set_si: the magnitude's limbs, least significant first, in the
        first `len` entries of the block. */
    method StoreMagnitude(uv: int)
      requires 0 <= uv < Pow(len) && len <= digits.Length
      modifies digits
      ensures IsLimbs(digits[..len]) && Val(digits[..len]) == uv
    {
      var rest := uv;
      for i := 0 to len
        invariant rest == uv / Pow(i) && rest >= 0
        invariant IsLimbs(digits[..i]) && Val(digits[..i]) + Pow(i) * rest == uv
      {
        ghost var before := digits[..i];
        digits[i] := rest % Base;
        assert digits[..i + 1] == before + [rest % Base];
        EmitLimb(before, rest);
        assert rest / Base == uv / Pow(i + 1) by {
          QuotientStep(uv, Pow(i), rest);
          assert Pow(i) * Base == Pow(i + 1);
        }
        rest := rest / Base;
      }
      QuotientStep(uv, Pow(len), rest);
    }

    // ---------------------------------------------------------------------------------------------
    // The digit loops of rt_int_add and rt_int_mul

    /** The carry loop of rt_int_add's same-sign path: the limbs of |x| + |y|, least significant
        first, in the first `written` entries of the block; the entries above are untouched. */
    method AddMagnitudes(x: seq<int>, y: seq<int>) returns (written: nat)
      requires IsLimbs(x) && IsLimbs(y)
      requires (if |x| > |y| then |x| else |y|) + 1 <= digits.Length
      modifies digits
      ensures |x| <= written && |y| <= written && written <= digits.Length
      ensures written <= (if |x| > |y| then |x| else |y|) + 1
      ensures IsLimbs(digits[..written]) && Val(digits[..written]) == Val(x) + Val(y)
      ensures digits[written..] == old(digits[written..])
    {
      ghost var before := digits[..];
      var maxLen := if |x| > |y| then |x| else |y|;
      var carry := 0;
      var i := 0;
      while i < maxLen || carry > 0
        invariant 0 <= i <= maxLen + 1 && carry == CarryIn(x, y, i)
        invariant forall k | 0 <= k < i :: digits[k] == SumLimb(x, y, k)
        invariant forall k | i <= k < digits.Length :: digits[k] == before[k]
        decreases maxLen + 1 - i
      {
        CarryBound(x, y, i);
        var sum := carry + Limb(x, i) + Limb(y, i);
        digits[i] := sum % Base;
        carry := sum / Base;
        i := i + 1;
      }
      written := i;
      CarryBound(x, y, written);
      SumLimbsSpell(x, y, digits[..written]);
      SuffixAgrees(digits[..], before, written);
    }

    /** The borrow loop of rt_int_add's different-sign path: the limbs of |x| - |y| for
        |x| >= |y|, in the first |x| entries of the block. */
    method SubMagnitudes(x: seq<int>, y: seq<int>)
      requires IsLimbs(x) && IsLimbs(y) && |y| <= |x| <= digits.Length && Val(y) <= Val(x)
      modifies digits
      ensures IsLimbs(digits[..|x|]) && Val(digits[..|x|]) == Val(x) - Val(y)
    {
      var borrow := 0;
      for i := 0 to |x|
        invariant borrow == BorrowIn(x, y, i)
        invariant forall k | 0 <= k < i :: digits[k] == DiffLimb(x, y, k)
      {
        var diff := x[i] - borrow;
        if i < |y| {
          diff := diff - y[i];
        }
        if diff < 0 {
          diff := diff + Base;
          borrow := 1;
        } else {
          borrow := 0;
        }
        digits[i] := diff;
      }
      DiffLimbsSpell(x, y, digits[..|x|]);
    }

    /** One pass of rt_int_mul's outer loop: limb `ai` times the limbs of y added into the
        first n entries from position i, the carry running on until it is zero. */
    method MulRow(ai: int, y: seq<int>, i: nat, n: nat)
      requires 0 <= ai < Base && IsLimbs(y) && i + |y| <= n <= digits.Length
      requires IsLimbs(digits[..n]) && Val(digits[..n]) + ai * (Pow(i) * Val(y)) < Pow(n)
      modifies digits
      ensures IsLimbs(digits[..n])
      ensures Val(digits[..n]) == old(Val(digits[..n])) + ai * (Pow(i) * Val(y))
    {
      ghost var acc := Val(digits[..n]);
      var carry := 0;
      var j := 0;
      while j < |y| || carry > 0
        invariant i + j <= n && 0 <= carry < Base
        invariant carry > 0 ==> i + j < n
        invariant IsLimbs(digits[..n])
        invariant Val(digits[..n]) + carry * Pow(i + j) == acc + ai * (Pow(i) * Val(Take(y, j)))
        decreases n - (i + j)
      {
        var prod := digits[i + j] + carry;
        if j < |y| {
          prod := prod + ai * y[j];
        }
        assert 0 <= ai * Limb(y, j) <= (Base - 1) * (Base - 1) by {
          LimbProduct(ai, Limb(y, j));
        }
        ghost var before := digits[..n];
        var d, c' := prod % Base, prod / Base;
        PowAdd(i, j);
        MulLimbStep(before, i + j, y, j, ai, Pow(i), acc, carry, d, c');
        digits[i + j] := d;
        assert digits[..n] == before[i + j := d];
        ghost var k, ty := i + j + 1, Take(y, j + 1);
        carry := c';
        j := j + 1;
        assert i + j == k && Take(y, j) == ty;
        if carry > 0 {
          MulRowRoom(digits[..n], y, ai, i, j, acc, carry);
        }
      }
      TakeLe(y, j);
      assert Take(y, j) == y;
    }

    /** The nested loops of rt_int_mul: the schoolbook product of x and y in the first
        |x| + |y| entries, which start out zero. */
    method MulLimbs(x: seq<int>, y: seq<int>)
      requires IsLimbs(x) && IsLimbs(y) && |x| + |y| <= digits.Length
      requires forall k | 0 <= k < |x| + |y| :: digits[k] == 0
      modifies digits
      ensures IsLimbs(digits[..|x| + |y|]) && Val(digits[..|x| + |y|]) == Val(x) * Val(y)
    {
      var n := |x| + |y|;
      ValZeros(digits[..n]);
      for i := 0 to |x|
        invariant IsLimbs(digits[..n]) && Val(digits[..n]) == Val(x[..i]) * Val(y)
      {
        MulRowBound(x, y, i);
        PowMono(i + 1 + |y|, n);
        MulRow(x[i], y, i, n);
      }
      assert x[..|x|] == x;
    }

    /** rt_int_set_si: the canonical representation of a 64-bit value.  Negating INT64_MIN
        wraps to itself, whose conversion to uint64_t is 2^63, so every value's magnitude is
        stored exactly. */
    method SetSi(v: int)
      requires CInt.InInt64(v) && len <= digits.Length
      modifies this, digits
      ensures digits == old(digits) || fresh(digits)
      ensures Valid() && Value() == v
      ensures Snap() == FromInt(v)
    {
      if v == 0 {
        sign := 0;
        len := 0;
        FromIntOfValue(Snap());
        return;
      }
      var uv: int;
      if v < 0 {
        sign := -1;
        uv := -v;
      } else {
        sign := 1;
        uv := v;
      }
      var needed := CountLimbs(uv);
      EnsureCap(needed);
      len := needed;
      StoreMagnitude(uv);
      TopNonzero(digits[..len]);
      assert Value() == v;
      FromIntOfValue(Snap());
    }

    // ---------------------------------------------------------------------------------------------
    // Arithmetic.  Each takes its operands as values; the output may be one of them.

    /** rt_int_add with the output's length set to the number of limbs the carry loop writes, the
        evidently intended reading of the loop's length update; every other step as written.
        The result is the sum on every path. */
    method Add(a: Num, b: Num)
      requires NumValid(a) && NumValid(b) && len <= digits.Length
      modifies this, digits
      ensures digits == old(digits) || fresh(digits)
      ensures Valid() && Value() == NumValue(a) + NumValue(b)
    {
      if IsZero(a) {
        Copy(b);
        return;
      }
      if IsZero(b) {
        Copy(a);
        return;
      }
      if a.sign == b.sign {
        var maxLen := if |a.limbs| > |b.limbs| then |a.limbs| else |b.limbs|;
        EnsureCap(maxLen + 1);
        var written := AddMagnitudes(a.limbs, b.limbs);
        len := written;
        sign := a.sign;
        Normalize();
        return;
      }
      AddOppositeSigns(a, b);
    }

    /** The different-sign path of rt_int_add: the smaller magnitude taken from the larger, with
        the larger's sign; zero, without a block change, when the magnitudes are equal. */
    method AddOppositeSigns(a: Num, b: Num)
      requires NumValid(a) && NumValid(b) && len <= digits.Length
      requires a.sign != 0 && b.sign != 0 && a.sign != b.sign
      modifies this, digits
      ensures digits == old(digits) || fresh(digits)
      ensures Valid() && Value() == NumValue(a) + NumValue(b)
    {
      var larger, smaller := a, b;
      var cmp := CmpAbs(a, b);
      if cmp < 0 {
        larger, smaller := b, a;
      } else if cmp == 0 {
        sign := 0;
        len := 0;
        return;
      }
      if |smaller.limbs| > |larger.limbs| {
        ShorterIsSmaller(larger.limbs, smaller.limbs);
      }
      EnsureCap(|larger.limbs|);
      SubMagnitudes(larger.limbs, smaller.limbs);
      len := |larger.limbs|;
      sign := larger.sign;
      Normalize();
    }

    /** rt_int_add as written.  On the same-sign path the loop raises the output's length only
        when it writes past it, so an output that held more limbs than the sum needs keeps its
        old top limbs `stale` above the `written` limbs of the sum.  Every other path gives the
        sum. */
    method AddAsWritten(a: Num, b: Num) returns (ghost written: nat, ghost stale: seq<int>)
      requires NumValid(a) && NumValid(b) && Valid()
      modifies this, digits
      ensures digits == old(digits) || fresh(digits)
      ensures Valid()
      ensures IsZero(a) || IsZero(b) || a.sign != b.sign ==> Value() == NumValue(a) + NumValue(b)
      ensures old(len) <= |a.limbs| || old(len) <= |b.limbs| ==> Value() == NumValue(a) + NumValue(b)
      ensures !IsZero(a) && !IsZero(b) && a.sign == b.sign ==>
                && |a.limbs| <= written && |b.limbs| <= written
                && written <= (if |a.limbs| > |b.limbs| then |a.limbs| else |b.limbs|) + 1
                && stale == (if written < old(len) then old(digits[written..len]) else [])
                && Value() == NumValue(a) + NumValue(b) + a.sign * (Pow(written) * Val(stale))
    {
      written, stale := 0, [];
      if IsZero(a) {
        Copy(b);
        return;
      }
      if IsZero(b) {
        Copy(a);
        return;
      }
      if a.sign == b.sign {
        ValueSign(a);
        written, stale := AddSameSignAsWritten(a, b);
        return;
      }
      AddOppositeSigns(a, b);
    }

    /** The same-sign path of rt_int_add as written: the carry loop over limbs and the length
        update it makes, which keeps any old limbs above those it writes. */
    method AddSameSignAsWritten(a: Num, b: Num) returns (ghost written: nat, ghost stale: seq<int>)
      requires NumValid(a) && NumValid(b) && Valid() && a.sign != 0 && a.sign == b.sign
      modifies this, digits
      ensures digits == old(digits) || fresh(digits)
      ensures Valid()
      ensures |a.limbs| <= written && |b.limbs| <= written
      ensures written <= (if |a.limbs| > |b.limbs| then |a.limbs| else |b.limbs|) + 1
      ensures stale == (if written < old(len) then old(digits[written..len]) else [])
      ensures Value() == NumValue(a) + NumValue(b) + a.sign * (Pow(written) * Val(stale))
    {
      var count;
      count, stale := AddLoopAsWritten(a.limbs, b.limbs);
      written := count;
      sign := a.sign;
      SignedStale(a, b, digits[..len], Pow(written) * Val(stale));
      Normalize();
    }

    /** The carry loop of rt_int_add as written, with its length update: `len` becomes the
        larger of the old length and the number of limbs written. */
    method AddLoopAsWritten(x: seq<int>, y: seq<int>) returns (written: nat, ghost stale: seq<int>)
      requires IsLimbs(x) && IsLimbs(y) && len <= digits.Length && IsLimbs(digits[..len])
      modifies this, digits
      ensures digits == old(digits) || fresh(digits)
      ensures sign == old(sign) && len <= digits.Length
      ensures |x| <= written && |y| <= written
      ensures written <= (if |x| > |y| then |x| else |y|) + 1
      ensures stale == (if written < old(len) then old(digits[written..len]) else [])
      ensures IsLimbs(digits[..len])
      ensures Val(digits[..len]) == Val(x) + Val(y) + Pow(written) * Val(stale)
    {
      ghost var oldLimbs := digits[..len];
      var maxLen := if |x| > |y| then |x| else |y|;
      EnsureCap(maxLen + 1);
      assert digits[..len] == oldLimbs;
      written, stale := AddOver(x, y, oldLimbs);
      assert written < |oldLimbs| ==> stale == old(digits[written..len]) by {
        if written < |oldLimbs| {
          assert oldLimbs[written..] == old(digits[..len])[written..];
        }
      }
    }

    /** The same loop once the block has room for the longer operand and a carry: the limbs
        written, then `len` raised to their count when it was below it. */
    method AddOver(x: seq<int>, y: seq<int>, ghost oldLimbs: seq<int>) returns (written: nat, ghost stale: seq<int>)
      requires IsLimbs(x) && IsLimbs(y) && IsLimbs(oldLimbs)
      requires len == |oldLimbs| && len <= digits.Length && digits[..len] == oldLimbs
      requires (if |x| > |y| then |x| else |y|) + 1 <= digits.Length
      modifies this, digits
      ensures digits == old(digits) && sign == old(sign) && len <= digits.Length
      ensures |x| <= written && |y| <= written
      ensures written <= (if |x| > |y| then |x| else |y|) + 1
      ensures stale == (if written < |oldLimbs| then oldLimbs[written..] else [])
      ensures IsLimbs(digits[..len])
      ensures Val(digits[..len]) == Val(x) + Val(y) + Pow(written) * Val(stale)
    {
      ghost var before := digits[..];
      assert before[..len] == oldLimbs;
      written := AddMagnitudes(x, y);
      // `if (i >= out->len) out->len = i + 1;` over the whole loop
      if written > len {
        len := written;
      }
      stale := if written < |oldLimbs| then oldLimbs[written..] else [];
      ghost var after := digits[..];
      assert after[..written] == digits[..written] && after[written..] == before[written..];
      StaleLayout(before, after, oldLimbs, written, len);
      assert after[..len] == digits[..len];
    }

    /** rt_int_sub: rt_int_add of a and b with its sign flipped, so it keeps the same stale
        limbs when a and -b have the same sign. */
    method Sub(a: Num, b: Num) returns (ghost written: nat, ghost stale: seq<int>)
      requires NumValid(a) && NumValid(b) && Valid()
      modifies this, digits
      ensures digits == old(digits) || fresh(digits)
      ensures Valid()
      ensures IsZero(a) || IsZero(b) || a.sign == b.sign ==> Value() == NumValue(a) - NumValue(b)
      ensures old(len) <= |a.limbs| || old(len) <= |b.limbs| ==> Value() == NumValue(a) - NumValue(b)
      ensures !IsZero(a) && !IsZero(b) && a.sign != b.sign ==>
                && |a.limbs| <= written && |b.limbs| <= written
                && written <= (if |a.limbs| > |b.limbs| then |a.limbs| else |b.limbs|) + 1
                && stale == (if written < old(len) then old(digits[written..len]) else [])
                && Value() == NumValue(a) - NumValue(b) + a.sign * (Pow(written) * Val(stale))
    {
      var bNeg := Num(-b.sign, b.limbs);
      written, stale := AddAsWritten(a, bNeg);
    }

    /** rt_int_mul: zero when either operand is zero, otherwise the schoolbook product over
        |a| + |b| zeroed limbs with the product of the signs. */
    method Mul(a: Num, b: Num)
      requires NumValid(a) && NumValid(b) && len <= digits.Length
      modifies this, digits
      ensures digits == old(digits) || fresh(digits)
      ensures Valid() && Value() == NumValue(a) * NumValue(b)
    {
      if IsZero(a) || IsZero(b) {
        sign := 0;
        len := 0;
        return;
      }
      var resultLen := |a.limbs| + |b.limbs|;
      EnsureCap(resultLen);
      forall k | 0 <= k < resultLen {
        digits[k] := 0;
      }
      MulLimbs(a.limbs, b.limbs);
      len := resultLen;
      sign := a.sign * b.sign;
      SignedProduct(a, b, digits[..len]);
      Normalize();
    }

    /** The quotient side of rt_int_divmod's one-limb path: the block grown to |x|'s length,
        the truncated quotient of |x| by d written there with the product of the signs, and the
        remainder returned. */
    method DivSmall(x: Num, d: int, sb: int) returns (rem: int, ghost t: int)
      requires NumValid(x) && x.sign != 0 && 0 < d < Base && (sb == 1 || sb == -1) && len <= digits.Length
      modifies this, digits
      ensures Valid() && (digits == old(digits) || fresh(digits))
      ensures 0 <= rem < d && t >= 0 && Val(x.limbs) == d * t + rem
      ensures Value() == if x.sign == sb then t else -t
    {
      EnsureCap(|x.limbs|);
      rem := DivLimbs(x.limbs, d);
      t := Val(digits[..|x.limbs|]);
      ValBounds(digits[..|x.limbs|]);
      len := |x.limbs|;
      sign := x.sign * sb;
      assert sign == if x.sign == sb then 1 else -1;
      assert Value() == if x.sign == sb then t else -t;
      Normalize();
    }

    /** The remainder side of rt_int_divmod's one-limb path: rt_int_set_si of the remainder,
        then the dividend's sign, or 0 when nothing is left over. */
    method SetRemainder(rem: int, sa: int)
      requires 0 <= rem < Base && (sa == 1 || sa == -1) && len <= digits.Length
      modifies this, digits
      ensures Valid() && (digits == old(digits) || fresh(digits))
      ensures Value() == sa * rem
    {
      SetSi(rem);
      ValueOfFromInt(rem);
      sign := sa;
      if rem == 0 {
        sign := 0;
      }
    }

    /** The top-down loop of rt_int_divmod's one-limb path: the limbs of |x| / d in the first |x|
        entries of the block, and what is left over. */
    method DivLimbs(x: seq<int>, d: int) returns (rem: int)
      requires IsLimbs(x) && 0 < d < Base && |x| <= digits.Length
      modifies digits
      ensures 0 <= rem < d
      ensures IsLimbs(digits[..|x|]) && Val(x) == d * Val(digits[..|x|]) + rem
    {
      rem := 0;
      var i := |x|;
      ghost var quot: seq<int> := [];
      while i > 0
        invariant 0 <= i <= |x| && 0 <= rem < d
        invariant |quot| == |x| - i && IsLimbs(quot) && Val(x[i..]) == d * Val(quot) + rem
        invariant forall k | i <= k < |x| :: digits[k] == quot[k - i]
      {
        var dividend := rem * Base + x[i - 1];
        DivLimbStep(x, i, quot, rem, d);
        digits[i - 1] := dividend / d;
        quot := [dividend / d] + quot;
        rem := dividend % d;
        i := i - 1;
      }
      assert x[0..] == x;
      assert digits[..|x|] == quot;
    }

    /** One digit of rt_int_from_dec's conversion loop: the limbs times ten plus the digit.  The
        carry runs up the limbs and, when it leaves the top one, the block grows by
        rt_int_ensure_cap and the length by one; limbs past the length stay zero. */
    method TimesTenPlus(digit: int)
      requires 0 <= digit < 10 && len <= digits.Length && IsLimbs(digits[..len])
      requires forall k | len <= k < digits.Length :: digits[k] == 0
      modifies this, digits
      ensures sign == old(sign) && len <= digits.Length && IsLimbs(digits[..len])
      ensures forall k | len <= k < digits.Length :: digits[k] == 0
      ensures Val(digits[..len]) == 10 * old(Val(digits[..len])) + digit
      ensures digits == old(digits) || fresh(digits)
    {
      ghost var low := digits[..len];
      ghost var len0 := len;
      var carry := digit;
      var i := 0;
      while i < len || carry > 0
        invariant digits == old(digits) || fresh(digits)
        invariant 0 <= i <= len <= digits.Length && i <= len0 + 1 && 0 <= carry < 10 && sign == old(sign)
        invariant len == (if i <= len0 then len0 else i) && (i > len0 ==> carry == 0)
        invariant CarryState(digits[..], low, i, len, carry, digit)
        decreases len0 + 1 - i
      {
        carry := CarryLimb(i, carry, low, digit);
        i := i + 1;
      }
      CarryDone(digits[..], low, i, len, digit);
      assert digits[..][..len] == digits[..len];
    }

    /** One round of the carry loop of rt_int_from_dec: at the length the block first grows by a
        zero limb; then limb i becomes (limb * 10 + carry) mod Base and the rest is carried. */
    method CarryLimb(i: nat, carry: int, ghost low: seq<int>, ghost digit: int) returns (carry': int)
      requires i <= len <= digits.Length && (i == len ==> |low| <= i) && 0 <= carry < 10 && IsLimbs(low)
      requires CarryState(digits[..], low, i, len, carry, digit)
      modifies this, digits
      ensures len == (if i < old(len) then old(len) else i + 1) && sign == old(sign)
      ensures i < len <= digits.Length && 0 <= carry' < 10 && CarryState(digits[..], low, i + 1, len, carry', digit)
      ensures i == old(len) ==> carry' == 0
      ensures digits == old(digits) || fresh(digits)
    {
      if i >= len {
        ghost var before := digits[..];
        ExtendTo(i);
        CarryExtend(before, digits[..], low, i, carry, digit);
      }
      ghost var img := digits[..];
      var prod := digits[i] * 10 + carry;
      CarryNext(img, low, i, len, carry, digit);
      digits[i] := prod % Base;
      assert digits[..] == img[i := prod % Base];
      carry' := prod / Base;
    }

    /** The carry leaving the top limb in rt_int_from_dec: the block grown by rt_int_ensure_cap
        to hold one more limb, which is zero, and the length raised to it. */
    method ExtendTo(i: nat)
      requires i == len <= digits.Length && forall k | len <= k < digits.Length :: digits[k] == 0
      modifies this
      ensures len == i + 1 <= digits.Length && sign == old(sign) && digits[i] == 0
      ensures digits[..i] == old(digits[..i]) && forall k | len <= k < digits.Length :: digits[k] == 0
      ensures digits == old(digits) || fresh(digits)
    {
      ghost var before := digits[..];
      EnsureCap(i + 1);
      assert digits[..i] == before[..i];
      len := i + 1;
    }

    /** rt_int_from_dec: RT_ERROR_INVALID, recorded in `err` and with the number untouched, when
        the text has no digit where one is due; zero, keeping the block, when nothing but blanks,
        a sign and zeros is there; otherwise a fresh number (rt_int_init) built digit by digit
        and normalized, whose value is DecParse of the text up to its NUL. */
    method FromDec(dec: seq<char>, err: RtError.ErrorState) returns (code: int)
      requires len <= digits.Length
      modifies this, digits, err
      ensures code == RtError.Success || code == RtError.Invalid
      ensures code == RtError.Invalid <==> DecParse(RtError.CString(dec)).None?
      ensures code == RtError.Invalid ==>
        sign == old(sign) && len == old(len) && digits == old(digits) && digits[..] == old(digits[..])
        && err.code == RtError.Invalid && err.message == InvalidDecimal
      ensures code == RtError.Success ==>
        Valid() && Value() == DecParse(RtError.CString(dec)).value && unchanged(err)
      ensures DigitsStart(RtError.CString(dec)) == |RtError.CString(dec)| ==> digits == old(digits)
    {
      var t := RtError.CString(dec);
      var sg, z, count := ScanDec(t);
      if z == |t| {
        sign := 0;
        len := 0;
        return RtError.Success;
      }
      if count == 0 {
        err.Set(RtError.Invalid, Some(InvalidDecimal), Some("rt_bigint.c"), 174);
        InvalidDecimalStored();
        return RtError.Invalid;
      }
      ConvertDigits(t, z, z + count, sg);
      return RtError.Success;
    }

    /** The conversion half of rt_int_from_dec: rt_int_init, the sign, then each digit of the
        run t[z..e] multiplied in, and the result normalized. */
    method ConvertDigits(t: string, z: nat, e: nat, sg: int)
      requires z < e <= |t| && e == DigitsEnd(t, z) && (sg == 1 || sg == -1)
      modifies this
      ensures fresh(digits) && Valid() && AllDigits(t[z..e]) && Value() == sg * ParseDigits(t[z..e])
    {
      digits := new int[0];
      len := 0;
      sign := sg;
      var p := z;
      while p < |t| && Decimal.IsDigit(t[p])
        invariant z <= p <= e == DigitsEnd(t, p) <= |t| && AllDigits(t[z..p])
        invariant len <= digits.Length && IsLimbs(digits[..len]) && sign == sg && fresh(digits)
        invariant forall k | len <= k < digits.Length :: digits[k] == 0
        invariant Val(digits[..len]) == ParseDigits(t[z..p])
      {
        DigitsNext(t, z, p);
        TimesTenPlus(DigitValue(t[p]));
        p := p + 1;
      }
      Normalize();
    }

    /** The scanning loops of rt_int_from_dec: past the blanks, one sign and the zeros, then the
        number of digits that follow. */
    static method ScanDec(t: string) returns (sg: int, z: nat, count: nat)
      ensures sg == DecSign(t) && z == DigitsStart(t) && z + count == DigitsEnd(t, z)
    {
      var i := 0;
      while i < |t| && (t[i] == ' ' || t[i] == '\t')
        invariant i <= |t| && SkipBlanks(t, i) == SkipBlanks(t, 0)
      {
        i := i + 1;
      }
      sg := 1;
      if i < |t| && t[i] == '-' {
        sg := -1;
        i := i + 1;
      } else if i < |t| && t[i] == '+' {
        i := i + 1;
      }
      ghost var j := i;
      while i < |t| && t[i] == '0'
        invariant j <= i <= |t| && SkipZeros(t, i) == SkipZeros(t, j)
      {
        i := i + 1;
      }
      z := i;
      count := 0;
      while z + count < |t| && Decimal.IsDigit(t[z + count])
        invariant z + count <= |t| && DigitsEnd(t, z + count) == DigitsEnd(t, z)
      {
        count := count + 1;
      }
    }
  }

  /** One step of rt_int_divmod's top-down loop over the limbs of x: bringing limb i - 1 down
      onto the remainder adds one quotient limb below those already written. */
  lemma DivLimbStep(x: seq<int>, i: nat, top: seq<int>, rem: int, d: int)
    requires IsLimbs(x) && 0 < i <= |x| && 0 <= rem < d && Val(x[i..]) == d * Val(top) + rem
    ensures var dv := rem * Base + x[i - 1];
            0 <= dv / d < Base && 0 <= dv % d < d && Val(x[i - 1..]) == d * Val([dv / d] + top) + dv % d
  {
    DivStep(Val(top), rem, d, x[i - 1]);
    ValCons((rem * Base + x[i - 1]) / d, top);
    ValSuffix(x, i);
  }

  /** One step of a loop dividing by Base: the quotient by p then Base is the quotient by
      p * Base, and it is zero exactly when the dividend is below p. */
  lemma QuotientStep(uv: int, p: int, tmp: int)
    requires uv >= 0 && p >= 1 && tmp == uv / p
    ensures tmp / Base == uv / (p * Base)
    ensures tmp > 0 ==> uv >= p
    ensures tmp == 0 ==> uv < p
  {
    DivDiv(uv, p, Base);
    CInt.NatDivMod(uv, p);
    if tmp > 0 {
      MulNonneg(p, tmp - 1);
    }
  }

  /** Two equally long sequences that agree from n on have the same suffix from n. */
  lemma SuffixAgrees(a: seq<int>, b: seq<int>, n: nat)
    requires |a| == |b| && n <= |a| && forall k | n <= k < |a| :: a[k] == b[k]
    ensures a[n..] == b[n..]
  {
    assert forall j | 0 <= j < |a| - n :: a[n..][j] == a[n + j] && b[n..][j] == b[n + j];
  }

  /** The limbs the same-sign path of rt_int_add leaves: the `written` limbs of the sum over a
      block that held `oldLimbs`, up to the larger of the two lengths. */
  lemma StaleLayout(before: seq<int>, after: seq<int>, oldLimbs: seq<int>, written: nat, newLen: nat)
    requires |before| == |after| && |oldLimbs| <= |before| && written <= |after|
    requires before[..|oldLimbs|] == oldLimbs && after[written..] == before[written..]
    requires newLen == if written > |oldLimbs| then written else |oldLimbs|
    requires IsLimbs(oldLimbs) && IsLimbs(after[..written])
    ensures var stale := if written < |oldLimbs| then oldLimbs[written..] else [];
      && after[..newLen] == after[..written] + stale
      && IsLimbs(after[..newLen])
      && Val(after[..newLen]) == Val(after[..written]) + Pow(written) * Val(stale)
  {
    var stale := if written < |oldLimbs| then oldLimbs[written..] else [];
    assert after[..newLen] == after[..written] + stale by {
      if written < |oldLimbs| {
        assert after[written..newLen] == before[written..|oldLimbs|];
        assert after[..newLen] == after[..written] + after[written..newLen];
      }
    }
    SuffixLimbs(oldLimbs, if written < |oldLimbs| then written else |oldLimbs|);
    StaleSum(after[..written], stale);
  }

  /** Limbs of a sum followed by stale limbs spell the sum plus the stale part shifted up. */
  lemma StaleSum(sum: seq<int>, stale: seq<int>)
    requires IsLimbs(sum) && IsLimbs(stale)
    ensures IsLimbs(sum + stale)
    ensures Val(sum + stale) == Val(sum) + Pow(|sum|) * Val(stale)
  {
    var t := sum + stale;
    assert IsLimbs(t) by {
      forall k | 0 <= k < |t| ensures 0 <= t[k] < Base {
        if k < |sum| {
          assert t[k] == sum[k];
        } else {
          assert t[k] == stale[k - |sum|];
        }
      }
    }
    ValSplit(t, |sum|);
    assert t[..|sum|] == sum && t[|sum|..] == stale;
  }

  /** Same-sign operands: limbs spelling the magnitude sum plus an extra part, under their
      sign, are the sum of the values plus the sign times that part. */
  lemma SignedStale(a: Num, b: Num, t: seq<int>, extra: int)
    requires NumValid(a) && NumValid(b) && a.sign != 0 && a.sign == b.sign
    requires Val(t) == Val(a.limbs) + Val(b.limbs) + extra
    ensures SignedVal(a.sign, t) == NumValue(a) + NumValue(b) + a.sign * extra
  {
  }

  // -----------------------------------------------------------------------------------------------
  // Conversion back to 64 bits

  /** rt_int_to_si_checked as written: any number with more than two limbs is refused as
      RT_ERROR_OVERFLOW, so the accepted range is |value| < 10^18 rather than the int64_t range.
      On success the value is exact. */
  method ToSiCheckedAsWritten(a: Num) returns (code: int, out: int)
    requires NumValid(a)
    ensures code == RtError.Success || code == RtError.Overflow
    ensures code == RtError.Success <==> CInt.Abs(NumValue(a)) < Pow(2)
    ensures code == RtError.Success ==> out == NumValue(a)
  {
    ValueSign(a);
    if a.sign == 0 {
      return RtError.Success, 0;
    }
    if |a.limbs| > 2 {
      ValTop(a.limbs);
      PowMono(2, |a.limbs| - 1);
      return RtError.Overflow, 0;
    }
    ValBounds(a.limbs);
    PowMono(|a.limbs|, 2);
    var val := 0;
    var i := |a.limbs|;
    while i > 0
      invariant 0 <= i <= |a.limbs| && val == Val(a.limbs[i..])
    {
      ValSuffix(a.limbs, i);
      val := val * Base + a.limbs[i - 1];
      i := i - 1;
    }
    assert a.limbs[0..] == a.limbs;
    if a.sign > 0 && val > CInt.Int64Max {
      return RtError.Overflow, 0;
    }
    if a.sign < 0 && val > CInt.Int64Max + 1 {
      return RtError.Overflow, 0;
    }
    out := if a.sign > 0 then val else -val;
    return RtError.Success, out;
  }

  /** The smallest number rt_int_to_si_checked refuses although it fits in int64_t: 10^18,
      three limbs. */
  lemma ToSiRefusesInRange()
    ensures NumValid(Num(1, [0, 0, 1])) && NumValue(Num(1, [0, 0, 1])) == Pow(2)
    ensures CInt.InInt64(NumValue(Num(1, [0, 0, 1])))
  {
    var s := [0, 0, 1];
    assert s[..2] == [0, 0] && [0, 0][..1] == [0] && [0][..0] == [];
    assert Val([0]) == 0 && Val([0, 0]) == 0;
    assert Val(s) == Pow(2);
  }

  /** rt_int_to_si_checked as evidently intended: RT_OK exactly for the values int64_t holds,
      with the value exact, and RT_ERROR_OVERFLOW otherwise.  The limbs are accumulated from
      the top with the uint64_t overflow checks of the other runtime (runtime/runtime.c). */
  method ToSiChecked(a: Num) returns (code: int, out: int)
    requires NumValid(a)
    ensures code == RtError.Success || code == RtError.Overflow
    ensures code == RtError.Success <==> CInt.InInt64(NumValue(a))
    ensures code == RtError.Success ==> out == NumValue(a)
  {
    var ok;
    ok, out := CheckedInt64(a);
    code := if ok then RtError.Success else RtError.Overflow;
  }

  // -----------------------------------------------------------------------------------------------
  // Comparison

  /** rt_int_cmp_abs: the sign of |a| - |b|, by length and then from the top limb down. */
  method CmpAbs(a: Num, b: Num) returns (c: int)
    requires Normalized(a.limbs) && Normalized(b.limbs)
    ensures c == Sign(Val(a.limbs) - Val(b.limbs))
  {
    var x, y := a.limbs, b.limbs;
    if |x| != |y| {
      if |x| < |y| {
        ShorterIsSmaller(x, y);
        return -1;
      }
      ShorterIsSmaller(y, x);
      return 1;
    }
    var i := |x|;
    while i > 0
      invariant 0 <= i <= |x| && x[i..] == y[i..]
    {
      i := i - 1;
      if x[i] != y[i] {
        if x[i] < y[i] {
          HighestLimbDecides(x, y, i);
          return -1;
        }
        HighestLimbDecides(y, x, i);
        return 1;
      }
      assert x[i..] == [x[i]] + x[i + 1..] && y[i..] == [y[i]] + y[i + 1..];
    }
    assert x == x[0..] && y == y[0..];
    return 0;
  }

  /** rt_int_cmp on non-NULL numbers: -1, 0 or 1 as a is below, equal to or above b. */
  method Cmp(a: Num, b: Num) returns (c: int)
    requires NumValid(a) && NumValid(b)
    ensures c == Sign(NumValue(a) - NumValue(b))
  {
    ValueSign(a);
    ValueSign(b);
    var aZero := a.sign == 0 || |a.limbs| == 0;
    var bZero := b.sign == 0 || |b.limbs| == 0;
    if aZero && bZero {
      return 0;
    }
    if aZero {
      return if b.sign > 0 then -1 else 1;
    }
    if bZero {
      return if a.sign > 0 then 1 else -1;
    }
    if a.sign != b.sign {
      return if a.sign > b.sign then 1 else -1;
    }
    var m := CmpAbs(a, b);
    return if a.sign > 0 then m else -m;
  }

  // -----------------------------------------------------------------------------------------------
  // Division

  /** The messages rt_int_divmod records with RT_ERROR_DIVZERO and with RT_ERROR_INVALID. */
  const DivisionByZero: string := "Division by zero"
  const ComplexDivision: string := "Complex division not yet implemented"

  lemma DivisionByZeroStored()
    ensures RtError.StoredMessage(DivisionByZero) == DivisionByZero
  {
    RtError.CStringNoNul(DivisionByZero);
  }

  lemma ComplexDivisionStored()
    ensures RtError.StoredMessage(ComplexDivision) == ComplexDivision
  {
    RtError.CStringNoNul(ComplexDivision);
  }

  /** The record rt_int_divmod leaves in `err` when it returns `code`: the zero-divisor record of
      rt_bigint.c line 411, the long-divisor record of line 481, and nothing new on success. */
  twostate predicate DivModRecord(err: RtError.ErrorState, code: int)
    reads err
  {
    (code == RtError.DivZero ==>
       err.code == RtError.DivZero && err.message == DivisionByZero && err.file == Some("rt_bigint.c") && err.line == 411) &&
    (code == RtError.Invalid ==>
       err.code == RtError.Invalid && err.message == ComplexDivision && err.file == Some("rt_bigint.c") && err.line == 481) &&
    (code == RtError.Success ==> unchanged(err))
  }

  /** rt_int_divmod with both outputs present, distinct from each other and from the divisor:
      RT_ERROR_DIVZERO for a zero divisor; zero and zero for a zero dividend; for a one-limb
      divisor the truncated quotient and remainder, moved to Python's floor pair (section 6.7 of
      the Python Language Reference) when the remainder is nonzero and the signs differ; and
      RT_ERROR_INVALID for a longer divisor, which the runtime does not implement.  Each failure
      is recorded in `err` with its message, file and line. */
  method DivMod(q: BigInt, r: BigInt, a: Num, b: Num, err: RtError.ErrorState) returns (code: int)
    requires NumValid(a) && NumValid(b)
    requires q != r && q.digits != r.digits && q.len <= q.digits.Length && r.len <= r.digits.Length
    modifies q, q.digits, r, r.digits, err
    ensures code == RtError.DivZero <==> NumValue(b) == 0
    ensures code == RtError.Invalid <==> NumValue(b) != 0 && NumValue(a) != 0 && |b.limbs| > 1
    ensures code == RtError.Success <==> NumValue(b) != 0 && (NumValue(a) == 0 || |b.limbs| == 1)
    ensures code == RtError.Success ==>
              q.Valid() && r.Valid() &&
              q.Value() == CInt.PyFloorDiv(NumValue(a), NumValue(b)) && r.Value() == CInt.PyMod(NumValue(a), NumValue(b))
    ensures DivModRecord(err, code)
  {
    if IsZero(b) {
      err.Set(RtError.DivZero, Some(DivisionByZero), Some("rt_bigint.c"), 411);
      DivisionByZeroStored();
      return RtError.DivZero;
    }
    if IsZero(a) {
      q.sign, q.len := 0, 0;
      r.sign, r.len := 0, 0;
      return RtError.Success;
    }
    if |b.limbs| != 1 {
      ValueSign(a);
      err.Set(RtError.Invalid, Some(ComplexDivision), Some("rt_bigint.c"), 481);
      ComplexDivisionStored();
      return RtError.Invalid;
    }
    var rem, t := DivModOneLimb(q, r, a, b);
    OneLimbFloor(a, b, t, rem);
    return RtError.Success;
  }

  /** The one-limb adjustment is Python's floor pair: with |a| == d * t + rem for the divisor's
      one limb d, the quotient and remainder DivModOneLimb leaves are a // b and a % b. */
  lemma OneLimbFloor(a: Num, b: Num, t: int, rem: int)
    requires NumValid(a) && NumValid(b) && a.sign != 0 && |b.limbs| == 1
    requires t >= 0 && 0 <= rem < b.limbs[0] && Val(a.limbs) == b.limbs[0] * t + rem
    ensures NumValue(b) != 0
    ensures CInt.PyFloorDiv(NumValue(a), NumValue(b)) == (if a.sign == b.sign then t else if rem == 0 then -t else -t - 1)
    ensures CInt.PyMod(NumValue(a), NumValue(b)) ==
              (if rem == 0 then 0 else if a.sign == b.sign then a.sign * rem else a.sign * rem + NumValue(b))
  {
    assert Val(b.limbs) == b.limbs[0] by {
      assert b.limbs[..0] == [];
    }
    CInt.FloorFromTruncated(a.sign, b.sign, b.limbs[0], t, rem);
  }

  /** The one-limb path of rt_int_divmod: the truncated pair, then q - 1 and r + b when
      something is left over and the signs differ. */
  method DivModOneLimb(q: BigInt, r: BigInt, a: Num, b: Num) returns (rem: int, ghost t: int)
    requires NumValid(a) && NumValid(b) && a.sign != 0 && |b.limbs| == 1
    requires q != r && q.digits != r.digits && q.len <= q.digits.Length && r.len <= r.digits.Length
    modifies q, q.digits, r, r.digits
    ensures 0 <= rem < b.limbs[0] && t >= 0 && Val(a.limbs) == b.limbs[0] * t + rem
    ensures q.Valid() && r.Valid()
    ensures q.Value() == (if a.sign == b.sign then t else if rem == 0 then -t else -t - 1)
    ensures r.Value() == (if rem == 0 then 0 else if a.sign == b.sign then a.sign * rem else a.sign * rem + NumValue(b))
  {
    rem, t := q.DivSmall(a, b.limbs[0], b.sign);
    r.SetRemainder(rem, a.sign);
    if rem != 0 && a.sign != b.sign {
      FloorAdjust(q, r, b);
    }
  }

  /** `q = q - 1` and `r = r + b` through rt_int_sub and rt_int_add with each output one of its
      own operands, so neither keeps stale limbs. */
  method FloorAdjust(q: BigInt, r: BigInt, b: Num)
    requires q.Valid() && r.Valid() && NumValid(b) && q != r && q.digits != r.digits
    modifies q, q.digits, r, r.digits
    ensures q.Valid() && r.Valid()
    ensures q.Value() == old(q.Value()) - 1 && r.Value() == old(r.Value()) + NumValue(b)
  {
    ghost var written, stale;
    ValueOfFromInt(1);
    written, stale := q.Sub(q.Snap(), FromInt(1));
    written, stale := r.AddAsWritten(r.Snap(), b);
  }

  /** rt_int_add(out, 1, 1) on an output that held 10^18 (limbs 0, 0, 1): the sum's one limb
      is written over the lowest, the two above it stay, and `out` reads 10^18 + 2 instead of 2. */
  method StaleAddShown() returns (limbs: seq<int>)
    ensures IsLimbs(limbs) && Val(limbs) == 1000000000000000002
  {
    var out := new BigInt();
    out.SetSi(1000000000000000000);
    StaleAddLimbs();
    var one := FromInt(1);
    ValueOfFromInt(1);
    ghost var before := out.digits[..out.len];
    ghost var written, stale := out.AddAsWritten(one, one);
    StaleAddProduct(before, written);
    limbs := out.digits[..out.len];
    ValueSign(out.Snap());
  }

  /** The limbs of 10^18 and of 1, and the values of the stale tails. */
  lemma StaleAddLimbs()
    ensures ToLimbs(1000000000000000000) == [0, 0, 1] && ToLimbs(1) == [1]
    ensures FromInt(1) == Num(1, [1]) && Val([1]) == 1
  {
    assert ToLimbs(1) == [1] + ToLimbs(0);
    assert [1][..0] == [];
  }

  /** Whichever of the two lowest limbs the sum fills, the limbs left above it are worth 10^18. */
  lemma StaleAddProduct(before: seq<int>, written: nat)
    requires before == [0, 0, 1] && (written == 1 || written == 2)
    ensures Pow(written) * Val(before[written..]) == 1000000000000000000
  {
    assert Pow(1) == 1000000000 && Pow(2) == 1000000000000000000;
    assert Val([1]) == 1 by { assert [1][..0] == []; }
    assert Val([0, 1]) == 1000000000 by { assert [0, 1][..1] == [0]; assert [0][..0] == []; }
    if written == 1 {
      assert before[1..] == [0, 1];
    } else {
      assert before[2..] == [1];
    }
  }

  /** rt_int_floordiv: the quotient half of rt_int_divmod, with a scratch remainder that is
      cleared afterwards. */
  method FloorDiv(out: BigInt, a: Num, b: Num, err: RtError.ErrorState) returns (code: int)
    requires NumValid(a) && NumValid(b) && out.len <= out.digits.Length
    modifies out, out.digits, err
    ensures code == RtError.DivZero <==> NumValue(b) == 0
    ensures code == RtError.Success <==> NumValue(b) != 0 && (NumValue(a) == 0 || |b.limbs| == 1)
    ensures code == RtError.Invalid <==> NumValue(b) != 0 && NumValue(a) != 0 && |b.limbs| > 1
    ensures code == RtError.Success ==> out.Valid() && out.Value() == CInt.PyFloorDiv(NumValue(a), NumValue(b))
    ensures DivModRecord(err, code)
  {
    var dummy := new BigInt();
    code := DivMod(out, dummy, a, b, err);
    dummy.Clear();
  }

  /** rt_int_mod: the remainder half of rt_int_divmod, with a scratch quotient that is cleared
      afterwards. */
  method Mod(out: BigInt, a: Num, b: Num, err: RtError.ErrorState) returns (code: int)
    requires NumValid(a) && NumValid(b) && out.len <= out.digits.Length
    modifies out, out.digits, err
    ensures code == RtError.DivZero <==> NumValue(b) == 0
    ensures code == RtError.Success <==> NumValue(b) != 0 && (NumValue(a) == 0 || |b.limbs| == 1)
    ensures code == RtError.Invalid <==> NumValue(b) != 0 && NumValue(a) != 0 && |b.limbs| > 1
    ensures code == RtError.Success ==> out.Valid() && out.Value() == CInt.PyMod(NumValue(a), NumValue(b))
    ensures DivModRecord(err, code)
  {
    var dummy := new BigInt();
    code := DivMod(dummy, out, a, b, err);
    dummy.Clear();
  }

  // -----------------------------------------------------------------------------------------------
  // Decimal text (rt_int_from_dec)

  /** The message rt_int_from_dec records with RT_ERROR_INVALID. */
  const InvalidDecimal: string := "Invalid decimal string"

  lemma InvalidDecimalStored()
    ensures RtError.StoredMessage(InvalidDecimal) == InvalidDecimal
  {
    RtError.CStringNoNul(InvalidDecimal);
  }

  predicate Blank(c: char) { c == ' ' || c == '\t' }

  /** The first position from i on that is not a space or a tab. */
  function SkipBlanks(t: string, i: nat): (j: nat)
    requires i <= |t|
    ensures i <= j <= |t| && (j < |t| ==> !Blank(t[j]))
    decreases |t| - i
  {
    if i < |t| && Blank(t[i]) then SkipBlanks(t, i + 1) else i
  }

  lemma {:induction false} SkipBlanksTo(t: string, i: nat, j: nat)
    requires i <= j <= |t| && (forall k | i <= k < j :: Blank(t[k])) && (j < |t| ==> !Blank(t[j]))
    ensures SkipBlanks(t, i) == j
    decreases j - i
  {
    if i < j {
      SkipBlanksTo(t, i + 1, j);
    }
  }

  lemma {:induction false} SkipBlanksOver(t: string, i: nat)
    requires i <= |t|
    ensures forall k | i <= k < SkipBlanks(t, i) :: Blank(t[k])
    decreases |t| - i
  {
    if i < |t| && SkipBlanks(t, i) != i {
      SkipBlanksOver(t, i + 1);
    }
  }

  /** The first position from i on that is not a '0'. */
  function SkipZeros(t: string, i: nat): (j: nat)
    requires i <= |t|
    ensures i <= j <= |t| && (j < |t| ==> t[j] != '0')
    decreases |t| - i
  {
    if i < |t| && t[i] == '0' then SkipZeros(t, i + 1) else i
  }

  lemma {:induction false} SkipZerosTo(t: string, i: nat, j: nat)
    requires i <= j <= |t| && (forall k | i <= k < j :: t[k] == '0') && (j < |t| ==> t[j] != '0')
    ensures SkipZeros(t, i) == j
    decreases j - i
  {
    if i < j {
      SkipZerosTo(t, i + 1, j);
    }
  }

  lemma {:induction false} SkipZerosOver(t: string, i: nat)
    requires i <= |t|
    ensures forall k | i <= k < SkipZeros(t, i) :: t[k] == '0'
    decreases |t| - i
  {
    if i < |t| && SkipZeros(t, i) != i {
      SkipZerosOver(t, i + 1);
    }
  }

  /** The sign rt_int_from_dec reads after the blanks: -1 for a '-', otherwise +1. */
  function DecSign(t: string): (sg: int)
    ensures sg == 1 || sg == -1
  {
    var i := SkipBlanks(t, 0);
    if i < |t| && t[i] == '-' then -1 else 1
  }

  /** Where the converted digits begin: past the blanks, one sign and the leading zeros. */
  function DigitsStart(t: string): (z: nat)
    ensures z <= |t|
  {
    var i := SkipBlanks(t, 0);
    SkipZeros(t, if i < |t| && (t[i] == '-' || t[i] == '+') then i + 1 else i)
  }

  /** What rt_int_from_dec makes of a text: zero when nothing follows the blanks, sign and
      zeros; None (RT_ERROR_INVALID) when something does but it is not a digit; otherwise the
      signed value of the maximal run of digits, whatever comes after it. */
  function DecParse(t: string): Option<int>
  {
    var z := DigitsStart(t);
    if z == |t| then Some(0)
    else
      var e := DigitsEnd(t, z);
      if e == z then None
      else
        DigitsEndOver(t, z);
        DigitRun(t, z, e);
        Some(DecSign(t) * ParseDigits(t[z..e]))
  }

  /** What the carry loop of TimesTenPlus keeps over the block's contents `img`: below i, the
      limbs of ten times the old limbs `low` plus the digit, less the pending carry; from i to
      len, the old limbs; past len, zeros. */
  ghost predicate CarryState(img: seq<int>, low: seq<int>, i: nat, len: nat, carry: int, digit: int)
    requires i <= len <= |img|
  {
    && IsLimbs(img[..i]) && (forall k | i <= k < len :: img[k] == Limb(low, k))
    && (forall k | len <= k < |img| :: img[k] == 0)
    && Val(img[..i]) + Pow(i) * carry == 10 * Val(Take(low, i)) + digit
  }

  /** Once the carry is spent at the length, the limbs below it are ten times the old ones
      plus the digit. */
  lemma CarryDone(img: seq<int>, low: seq<int>, i: nat, len: nat, digit: int)
    requires i == len <= |img| && |low| <= len && CarryState(img, low, i, len, 0, digit)
    ensures IsLimbs(img[..len]) && Val(img[..len]) == 10 * Val(low) + digit
  {
  }

  /** Growing the block for limb i keeps the loop's state, with the length now i + 1. */
  lemma CarryExtend(img: seq<int>, img': seq<int>, low: seq<int>, i: nat, carry: int, digit: int)
    requires i <= |img| && CarryState(img, low, i, i, carry, digit) && |low| <= i
    requires i < |img'| && img'[..i] == img[..i] && img'[i] == 0 && forall k | i + 1 <= k < |img'| :: img'[k] == 0
    ensures CarryState(img', low, i, i + 1, carry, digit)
  {
  }

  /** Writing limb i of the carry loop moves the state one limb up. */
  lemma CarryNext(img: seq<int>, low: seq<int>, i: nat, len: nat, carry: int, digit: int)
    requires i < len <= |img| && IsLimbs(low) && CarryState(img, low, i, len, carry, digit) && 0 <= carry < 10
    ensures var prod := img[i] * 10 + carry;
      && 0 <= prod / Base < 10
      && CarryState(img[i := prod % Base], low, i + 1, len, prod / Base, digit)
  {
    var prod := img[i] * 10 + carry;
    var img' := img[i := prod % Base];
    assert img[i] == Limb(low, i);
    TenStep(img[..i], low, i, img[i], carry, digit);
    assert img'[..i + 1] == img[..i] + [prod % Base];
  }

  /** One step of the carry loop of TimesTenPlus: limb i of the old limbs, times ten plus the
      carry, gives limb i of the result and the next carry. */
  lemma TenStep(pre: seq<int>, low: seq<int>, i: nat, limb: int, carry: int, digit: int)
    requires IsLimbs(pre) && |pre| == i && 0 <= limb < Base && limb == Limb(low, i) && 0 <= carry < 10
    requires Val(pre) + Pow(i) * carry == 10 * Val(Take(low, i)) + digit
    ensures var prod := limb * 10 + carry;
      && 0 <= prod / Base < 10 && IsLimbs(pre + [prod % Base])
      && Val(pre + [prod % Base]) + Pow(i + 1) * (prod / Base) == 10 * Val(Take(low, i + 1)) + digit
  {
    var prod := limb * 10 + carry;
    var p := Pow(i);
    EmitLimb(pre, prod);
    TakeStep(low, i);
    TenSplit(p, limb, carry);
    DivBound(prod, 10);
    TenSum(Val(pre + [prod % Base]), Pow(i + 1) * (prod / Base), Val(pre), p * prod, p * carry, p * limb,
      Val(Take(low, i)), Val(Take(low, i + 1)), digit);
  }

  /** The bookkeeping of TenStep, with every product named. */
  lemma TenSum(v1: int, hi: int, v: int, pprod: int, pcarry: int, plimb: int, t0: int, t1: int, digit: int)
    requires v1 + hi == v + pprod && pprod == pcarry + 10 * plimb && t1 == t0 + plimb
    requires v + pcarry == 10 * t0 + digit
    ensures v1 + hi == 10 * t1 + digit
  {
  }

  lemma TenSplit(p: int, limb: int, carry: int)
    ensures p * (limb * 10 + carry) == p * carry + 10 * (p * limb)
  {
    Distrib(p, carry, 10 * limb);
    assert limb * 10 + carry == carry + 10 * limb;
    MulTen(p, limb);
  }

  lemma MulTen(p: int, x: int)
    ensures p * (10 * x) == 10 * (p * x)
  {
  }

  lemma DivBound(x: int, m: int)
    requires 0 <= x && m >= 1 && x < m * Base
    ensures 0 <= x / Base < m
  {
  }

  /** The decimal text Python's str() gives any integer reads back as that integer. */
  lemma DecParseRoundTrip(n: int)
    ensures DecParse(Decimal.IntToString(n)) == Some(n)
  {
    var m := if n < 0 then -n else n;
    var s := Decimal.NatToString(m);
    var t := Decimal.IntToString(n);
    NatToStringShape(m);
    NatToStringRoundTrip(m);
    var off := if n < 0 then 1 else 0;
    assert t == (if n < 0 then "-" else "") + s;
    assert t[off..] == s && t[off..off + |s|] == s;
    if m == 0 {
      assert s == "0";
      SkipBlanksTo(t, 0, 0);
      SkipZerosTo(t, off, |t|);
      assert DigitsStart(t) == |t|;
    } else {
      assert s[0] != '0' by {
        if |s| == 1 {
          assert s == [Decimal.DigitChar(m)];
        }
      }
      DecParseDigitText(t, off, s);
      assert (if off == 1 then -1 else 1) * m == n;
    }
  }

  /** A text that is an optional minus sign, then digits not starting with a zero, then
      nothing or a non-digit, reads as those digits under that sign. */
  lemma DecParseDigitText(t: string, off: nat, s: string)
    requires off <= 1 && off + |s| <= |t| && t[off..off + |s|] == s && (off == 1 ==> t[0] == '-')
    requires |s| >= 1 && AllDigits(s) && s[0] != '0'
    requires off + |s| < |t| ==> !IsDigit(t[off + |s|])
    ensures DecParse(t) == Some((if off == 1 then -1 else 1) * ParseDigits(s))
  {
    assert t[off] == s[0] && IsDigit(s[0]);
    SkipBlanksTo(t, 0, 0);
    assert DecSign(t) == (if off == 1 then -1 else 1);
    SkipZerosTo(t, off, off);
    assert DigitsStart(t) == off;
    DigitsRange(t, off, off + |s|);
    DigitsEndTo(t, off, off + |s|);
  }

  /** rt_int_from_dec reads only the maximal run of digits: a non-digit after a number's text,
      and anything after that, changes nothing. */
  lemma DecParseIgnoresTail(n: nat, c: char, rest: string)
    requires n > 0 && !IsDigit(c)
    ensures DecParse(Decimal.NatToString(n) + [c] + rest) == Some(n)
  {
    var s := Decimal.NatToString(n);
    var t := s + [c] + rest;
    NatToStringShape(n);
    NatToStringRoundTrip(n);
    assert s[0] != '0' by {
      if |s| == 1 {
        assert s == [Decimal.DigitChar(n)];
      }
    }
    assert t[0..|s|] == s && t[|s|] == c;
    DecParseDigitText(t, 0, s);
    assert 1 * ParseDigits(s) == n;
  }

  /** Blanks, at most one sign and any number of zeros, and nothing else, read as zero; the
      empty text and a lone sign included. */
  lemma DecParseZeroForms(pre: string, sgn: string, zeros: string)
    requires forall k | 0 <= k < |pre| :: Blank(pre[k])
    requires sgn == "" || sgn == "-" || sgn == "+"
    requires forall k | 0 <= k < |zeros| :: zeros[k] == '0'
    ensures DecParse(pre + sgn + zeros) == Some(0)
  {
    var t := pre + sgn + zeros;
    var a := |pre|;
    var b := |pre| + |sgn|;
    forall k | 0 <= k < a ensures Blank(t[k]) {
      assert t[k] == pre[k];
    }
    forall k | b <= k < |t| ensures t[k] == '0' {
      assert t[k] == zeros[k - b];
    }
    if a < |t| {
      assert t[a] == if sgn != "" then sgn[0] else zeros[0];
    }
    SkipBlanksTo(t, 0, a);
    SkipZerosTo(t, b, |t|);
  }

  /** ...but a zero followed by anything that is not a digit is RT_ERROR_INVALID, unlike a
      nonzero number followed by the same text. */
  lemma DecParseZeroThenJunk(c: char, rest: string)
    requires !IsDigit(c)
    ensures DecParse(['0', c] + rest) == None
  {
    var t := ['0', c] + rest;
    SkipBlanksTo(t, 0, 0);
    SkipZerosTo(t, 0, 1);
    DigitsEndTo(t, 1, 1);
  }
}
