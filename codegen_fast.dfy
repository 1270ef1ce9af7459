/** The fast back end (pcc/backend/codegen_fast.py): IR to C with native `long long` integers,
    a big integer (`rt_int`) only for a literal outside the 64-bit range, and the runtime's
    `rt_str`, `rt_list_si` and `rt_dict_ssi` for strings, lists and dicts.

    As in the all-bigint back end, a state object hands out temporaries and labels, expressions
    are lowered to a C expression plus the lines computing it, and a variable-type map records the
    C type a variable was first declared with.  Unlike that back end, lowering an expression never
    changes the map, and the bodies of `if`, loops and `try` share the enclosing map: a name first
    assigned in a body stays recorded after it.

    The arithmetic the lowering emits is proved against Python's: the truncate-then-correct
    sequence for `//` and `%` equals floor division and modulo (section 6.7 of the Python Language
    Reference), and the emitted range loop visits exactly the values of `range(start, stop, step)`
    when the body does not assign the loop variable, the stop and step expressions keep their
    values, and `+= step` stays within `long long`. */
module BackendFast {
  import opened Wrappers
  import opened IR
  import Decimal
  import B = BackendCodegen
  import C = CodegenC
  import opened CInt

  // ---------------------------------------------------------------------------------------------
  // State

  /** _CodegenState: the temporary and label counters and the type of each temporary, `long long`
      by default. */
  class FastState {
    var tempCounter: nat
    var labelCounter: nat
    var tempTypes: map<string, string>

    /** No temporary numbered above the counter has been recorded yet. */
    ghost predicate Valid()
      reads this
    {
      forall n: nat | n > tempCounter :: B.TempName(n) !in tempTypes
    }

    constructor()
      ensures tempCounter == 0 && labelCounter == 0 && tempTypes == map[] && Valid()
    {
      tempCounter := 0;
      labelCounter := 0;
      tempTypes := map[];
    }

    /** next_temp: `pcc_tmp_N` for the next N, recorded with its type; never handed out before. */
    method NextTemp(typeHint: string) returns (name: string)
      requires Valid()
      modifies this
      ensures Valid()
      ensures tempCounter == old(tempCounter) + 1 && labelCounter == old(labelCounter)
      ensures name == B.TempName(tempCounter) && name !in old(tempTypes)
      ensures tempTypes == old(tempTypes)[name := typeHint]
    {
      tempCounter := tempCounter + 1;
      name := B.TempName(tempCounter);
      tempTypes := tempTypes[name := typeHint];
      forall n: nat | n > tempCounter
        ensures B.TempName(n) !in tempTypes
      {
        B.TempNameInjective(n, tempCounter);
      }
    }

    /** get_temp_type: the recorded type, `long long` for a name never recorded. */
    function GetTempType(t: string): (r: string)
      reads this
      ensures t in tempTypes ==> r == tempTypes[t]
      ensures t !in tempTypes ==> r == "long long"
    {
      if t in tempTypes then tempTypes[t] else "long long"
    }

    /** next_label: `prefix_N` from the one label counter. */
    method NextLabel(prefix: string) returns (name: string)
      modifies this
      ensures labelCounter == old(labelCounter) + 1 && name == B.LabelName(prefix, labelCounter)
      ensures tempCounter == old(tempCounter) && tempTypes == old(tempTypes)
    {
      labelCounter := labelCounter + 1;
      name := B.LabelName(prefix, labelCounter);
    }
  }

  // ---------------------------------------------------------------------------------------------
  // Types of expressions

  /** _ctype_for_var: the recorded type, `long long` for a name never assigned. */
  function CTypeForVar(x: string, vt: map<string, string>): (r: string)
    ensures x in vt ==> r == vt[x]
    ensures x !in vt ==> r == "long long"
  {
    if x in vt then vt[x] else "long long"
  }

  /** _expr_produces_string: a string literal, a string variable, or `+` of two strings. */
  predicate ExprProducesString(e: Expr, vt: map<string, string>)
    decreases e
  {
    match e
    case StrConst(_) => true
    case Var(x) => x in vt && vt[x] == "rt_str"
    case BinOp(op, l, r) => op == "+" && ExprProducesString(l, vt) && ExprProducesString(r, vt)
    case _ => false
  }

  /** _expr_is_list and _expr_is_dict: a display, or a variable recorded with that type. */
  predicate ExprIsList(e: Expr, vt: map<string, string>)
  {
    e.ListConst? || (e.Var? && e.name in vt && vt[e.name] == "rt_list_si")
  }

  predicate ExprIsDict(e: Expr, vt: map<string, string>)
  {
    e.DictConst? || (e.Var? && e.name in vt && vt[e.name] == "rt_dict_ssi")
  }

  /** _needs_hpf: an integer literal outside the 64-bit range. */
  predicate NeedsHpf(e: Expr)
  {
    e.IntConst? && !InInt64(e.ival)
  }

  /** At most one of the four kinds applies to an expression. */
  lemma KindsExclusive(e: Expr, vt: map<string, string>)
    ensures !(ExprProducesString(e, vt) && ExprIsList(e, vt))
    ensures !(ExprProducesString(e, vt) && ExprIsDict(e, vt))
    ensures !(ExprIsList(e, vt) && ExprIsDict(e, vt))
    ensures NeedsHpf(e) ==> !ExprProducesString(e, vt) && !ExprIsList(e, vt) && !ExprIsDict(e, vt)
  {
  }

  /** The type the first assignment of a name records: str, list, dict, big integer, in that
      order, and `long long` for everything else. */
  function DeclaredType(e: Expr, vt: map<string, string>): (r: string)
  {
    if e.StrConst? then "rt_str"
    else if e.ListConst? then "rt_list_si"
    else if e.DictConst? then "rt_dict_ssi"
    else if ExprProducesString(e, vt) then "rt_str"
    else if ExprIsList(e, vt) then "rt_list_si"
    else if ExprIsDict(e, vt) then "rt_dict_ssi"
    else if NeedsHpf(e) then "rt_int"
    else "long long"
  }

  /** The declared type is decided by the kind of the expression, each kind in both directions. */
  lemma DeclaredTypeByKind(e: Expr, vt: map<string, string>)
    ensures DeclaredType(e, vt) == "rt_str" <==> ExprProducesString(e, vt)
    ensures DeclaredType(e, vt) == "rt_list_si" <==> ExprIsList(e, vt)
    ensures DeclaredType(e, vt) == "rt_dict_ssi" <==> ExprIsDict(e, vt)
    ensures DeclaredType(e, vt) == "rt_int" <==> NeedsHpf(e)
    ensures DeclaredType(e, vt) == "long long" <==>
      !ExprProducesString(e, vt) && !ExprIsList(e, vt) && !ExprIsDict(e, vt) && !NeedsHpf(e)
  {
    KindsExclusive(e, vt);
  }

  // ---------------------------------------------------------------------------------------------
  // Integer literals

  /** An in-range literal as the source writes it: the decimal text and `LL`. */
  function LiteralAsWritten(v: int): string
  {
    Decimal.IntToString(v) + "LL"
  }

  /** The smallest 64-bit value, -2^63, passes the range test, but as written its literal is the
      negation of the constant 2^63, which no `long long` holds. */
  lemma MinLiteralOverflows()
    ensures InInt64(Int64Min) && !NeedsHpf(IntConst(Int64Min))
    ensures LiteralAsWritten(Int64Min) == "-" + Decimal.NatToString(Int64Max + 1) + "LL"
    ensures forall m: nat | m <= Int64Max :: LiteralAsWritten(Int64Min) != "-" + Decimal.NatToString(m) + "LL"
  {
    forall m: nat | m <= Int64Max
      ensures LiteralAsWritten(Int64Min) != "-" + Decimal.NatToString(m) + "LL"
    {
      var w := "-" + Decimal.NatToString(Int64Max + 1) + "LL";
      var x := "-" + Decimal.NatToString(m) + "LL";
      if w == x {
        assert w[1..|w| - 2] == Decimal.NatToString(Int64Max + 1);
        assert x[1..|x| - 2] == Decimal.NatToString(m);
        Decimal.NatToStringInjective(m, Int64Max + 1);
      }
    }
  }

  /** The literal as intended: -2^63 spelled as `(-9223372036854775807LL - 1)`. */
  function IntLiteral(v: int): string
  {
    if v == Int64Min then "(-" + Decimal.NatToString(Int64Max) + "LL - 1)" else LiteralAsWritten(v)
  }

  /** Every decimal constant in an intended literal fits a `long long`, and the literal differs from
      the written one only at -2^63. */
  lemma IntLiteralFits(v: int)
    requires InInt64(v)
    ensures exists m: nat | m <= Int64Max ::
      IntLiteral(v) == Decimal.NatToString(m) + "LL" || IntLiteral(v) == "-" + Decimal.NatToString(m) + "LL" ||
      IntLiteral(v) == "(-" + Decimal.NatToString(m) + "LL - 1)"
    ensures v != Int64Min ==> IntLiteral(v) == LiteralAsWritten(v)
  {
    if v == Int64Min {
      assert IntLiteral(v) == "(-" + Decimal.NatToString(Int64Max) + "LL - 1)";
    } else if v < 0 {
      assert IntLiteral(v) == "-" + Decimal.NatToString(-v) + "LL";
    } else {
      assert IntLiteral(v) == Decimal.NatToString(v) + "LL";
    }
  }

  // ---------------------------------------------------------------------------------------------
  // Floor division and modulo

  /** The value the emitted lines for `a // b` leave in the result: the truncated quotient, less one
      when the signs differ and the division is not exact. */
  function EmittedFloorDiv(a: int, b: int): int
    requires b != 0
  {
    var q := CDiv(a, b);
    if (a < 0) != (b < 0) && CMod(a, b) != 0 then q - 1 else q
  }

  /** The value the emitted lines for `a % b` leave: the truncated remainder, plus b when the signs
      differ and it is not zero. */
  function EmittedMod(a: int, b: int): int
    requires b != 0
  {
    var m := CMod(a, b);
    if (a < 0) != (b < 0) && m != 0 then m + b else m
  }

  /** The emitted quotient and remainder satisfy the division identity, with the remainder of b's
      sign. */
  lemma EmittedDivModShape(a: int, b: int)
    requires b != 0
    ensures a == b * EmittedFloorDiv(a, b) + EmittedMod(a, b)
    ensures Abs(EmittedMod(a, b)) < Abs(b)
    ensures EmittedMod(a, b) == 0 || (EmittedMod(a, b) < 0) == (b < 0)
  {
    CDivModShape(a, b);
    var q := CDiv(a, b);
    var m := CMod(a, b);
    assert a == b * q + m;
    if (a < 0) != (b < 0) && m != 0 {
      assert EmittedFloorDiv(a, b) == q - 1 && EmittedMod(a, b) == m + b;
      assert b * (q - 1) + (m + b) == b * q + m;
    }
  }

  /** The emitted `//` is Python's floor division, for every nonzero divisor. */
  lemma EmittedFloorDivIsPython(a: int, b: int)
    requires b != 0
    ensures EmittedFloorDiv(a, b) == PyFloorDiv(a, b)
    ensures EmittedMod(a, b) == PyMod(a, b)
  {
    EmittedDivModShape(a, b);
    PyDivModShape(a, b);
    DivModUnique(a, b, EmittedFloorDiv(a, b), EmittedMod(a, b), PyFloorDiv(a, b), PyMod(a, b));
  }

  /** On 64-bit operands the truncated quotient overflows exactly for -2^63 / -1; every other
      division of the generated code stays in range. */
  lemma CDivOverflow(a: int, b: int)
    requires InInt64(a) && InInt64(b) && b != 0
    ensures InInt64(CDiv(a, b)) <==> !(a == Int64Min && b == -1)
    ensures !(a == Int64Min && b == -1) ==> InInt64(EmittedFloorDiv(a, b)) && InInt64(EmittedMod(a, b))
  {
    var q := Abs(a) / Abs(b);
    QuotientBound(Abs(a), Abs(b));
    EmittedDivModShape(a, b);
    if Abs(b) == 1 {
      DivOf(Abs(a), 1, Abs(a), 0);
    }
  }


  // ---------------------------------------------------------------------------------------------
  // Range loops

  /** Python's `range(start, stop, step)` for a nonzero step, by its length and its i-th element. */
  function RangeLength(start: int, stop: int, step: int): nat
    requires step != 0
  {
    if step > 0 then (if start < stop then (stop - start + step - 1) / step else 0)
    else (if start > stop then (start - stop - step - 1) / (-step) else 0)
  }

  function PyRange(start: int, stop: int, step: int): (r: seq<int>)
    requires step != 0
    ensures |r| == RangeLength(start, stop, step)
  {
    seq(RangeLength(start, stop, step), i => start + i * step)
  }

  /** The exit test of the emitted range loop: past stop in the step's direction. */
  predicate LoopExits(v: int, stop: int, step: int)
  {
    if step > 0 then v >= stop else v <= stop
  }

  /** The values the loop variable takes at the top of the emitted loop body, from start on: the
      exit test, the body, then the continue label's `v += step`.  This is the loop for a body
      that does not assign the variable, a stop and a step that keep their values, and sums that
      stay within `long long`; the additions are exact. */
  function LoopValues(v: int, stop: int, step: int): seq<int>
    requires step != 0
    decreases if step > 0 then stop - v else v - stop
  {
    if LoopExits(v, stop, step) then [] else [v] + LoopValues(v + step, stop, step)
  }

  /** How many rounds the emitted loop makes when its body ends by assigning w to the loop
      variable: the continue label's `+= step` then starts from w, so after the first round the
      variable is w + step every time, and None stands for a loop that never ends. */
  function RunsWithBodyAssigning(start: int, stop: int, step: int, w: int): Option<nat>
  {
    if LoopExits(start, stop, step) then Some(0)
    else if LoopExits(w + step, stop, step) then Some(1)
    else None
  }

  /** As emitted, `for i in range(10): i = 20` runs its body once, where Python runs it ten
      times, and `for i in range(10): i = 0` never ends. */
  lemma BodyAssignmentShortensLoop()
    ensures RunsWithBodyAssigning(0, 10, 1, 20) == Some(1) && |PyRange(0, 10, 1)| == 10
    ensures RunsWithBodyAssigning(0, 10, 1, 0) == None
  {
  }

  /** The loop as intended: the range walked by a counter the body cannot assign, the variable
      set from it at the top of each round, so the body runs once per value of the range
      whatever it assigns. */
  function CounterLoopRuns(start: int, stop: int, step: int): (n: nat)
    requires step != 0
    ensures n == |PyRange(start, stop, step)| == RangeLength(start, stop, step)
  {
    LoopValuesArePyRange(start, stop, step);
    |LoopValues(start, stop, step)|
  }

  /** The emitted loop visits exactly the values of the Python range, for a nonzero step. */
  lemma {:induction false} LoopValuesArePyRange(v: int, stop: int, step: int)
    requires step != 0
    ensures LoopValues(v, stop, step) == PyRange(v, stop, step)
    decreases if step > 0 then stop - v else v - stop
  {
    if LoopExits(v, stop, step) {
      assert RangeLength(v, stop, step) == 0;
    } else {
      LoopValuesArePyRange(v + step, stop, step);
      RangeLengthStep(v, stop, step);
      var rest := PyRange(v + step, stop, step);
      var all := PyRange(v, stop, step);
      assert [v] + rest == all by {
        forall i | 0 <= i < |all|
          ensures ([v] + rest)[i] == all[i]
        {
          if i > 0 {
            assert rest[i - 1] == v + step + (i - 1) * step == v + i * step;
          }
        }
      }
    }
  }

  lemma RangeLengthStep(v: int, stop: int, step: int)
    requires step != 0 && !LoopExits(v, stop, step)
    ensures RangeLength(v, stop, step) == RangeLength(v + step, stop, step) + 1
  {
    var d := if step > 0 then step else -step;
    var n := if step > 0 then stop - v + step - 1 else v - stop + d - 1;
    var n' := n - d;
    assert n >= d;
    if n' >= d - 1 + 1 || (step > 0 && v + step < stop) || (step < 0 && v + step > stop) {
      DivOf(n', d, n' / d, n' % d);
      DivOf(n, d, n' / d + 1, n' % d);
    } else {
      DivOf(n, d, 1, n - d);
    }
  }

  // ---------------------------------------------------------------------------------------------
  // Expressions

  /** When _emit_expr succeeds: every sub-expression it lowers succeeds, a subscript is applied to
      a list or dict variable, a `BinOp` is a string concatenation or one of the five arithmetic
      operators, and a builtin call meets the builtin's own demands.  A float literal is not
      supported.  A dict display lowers only the key/value pairs `zip` forms. */
  predicate Lowerable(e: Expr, vt: map<string, string>)
    decreases e
  {
    match e
    case IntConst(_) => true
    case FloatConst(_) => false
    case StrConst(_) => true
    case Var(_) => true
    case AttributeAccess(_, _) => true
    case ListConst(es) => forall x | x in es :: Lowerable(x, vt)
    case DictConst(ks, vs) => forall i | 0 <= i < |ks| && i < |vs| :: Lowerable(ks[i], vt) && Lowerable(vs[i], vt)
    case Subscript(t, idx) => Lowerable(idx, vt) && CTypeForVar(t, vt) in {"rt_list_si", "rt_dict_ssi"}
    case BinOp(op, l, r) => Lowerable(l, vt) && Lowerable(r, vt) && (ExprProducesString(e, vt) || op in BinOps)
    case CmpOp(_, l, r) => Lowerable(l, vt) && Lowerable(r, vt)
    case Call(_, args) => forall a | a in args :: Lowerable(a, vt)
    case MethodCall(_, _, args) => forall a | a in args :: Lowerable(a, vt)
    case ConstructorCall(_, args) => forall a | a in args :: Lowerable(a, vt)
    case BuiltinCall(name, args) => (forall a | a in args :: Lowerable(a, vt)) && BuiltinAccepts(name, args, vt)
  }

  /** The builtins _emit_builtin_call knows, by name. */
  datatype Builtin = BuiltinLen | BuiltinAbs | BuiltinStr | BuiltinInt | BuiltinMin | BuiltinMax | BuiltinPow | BuiltinUnknown

  function BuiltinOf(name: string): (b: Builtin)
    ensures b == BuiltinUnknown <==> name !in {"len", "abs", "str", "int", "min", "max", "pow"}
  {
    if name == "len" then BuiltinLen else if name == "abs" then BuiltinAbs else if name == "str" then BuiltinStr
    else if name == "int" then BuiltinInt else if name == "min" then BuiltinMin else if name == "max" then BuiltinMax
    else if name == "pow" then BuiltinPow else BuiltinUnknown
  }

  /** The kind of container `len` measures: string first, then list, then dict. */
  function LenFunction(a: Expr, vt: map<string, string>): string
  {
    if ExprProducesString(a, vt) then "rt_str_len"
    else if ExprIsList(a, vt) then "rt_list_si_len"
    else if ExprIsDict(a, vt) then "rt_dict_ssi_len" else ""
  }

  /** _emit_builtin_call's demands: `len` of a string, list or dict; `abs`, `str` and `int` of at
      least one argument; `min` and `max` of at least two; `pow` of exactly two. */
  predicate BuiltinAccepts(name: string, args: seq<Expr>, vt: map<string, string>)
  {
    match BuiltinOf(name)
    case BuiltinLen => |args| >= 1 && (ExprProducesString(args[0], vt) || ExprIsList(args[0], vt) || ExprIsDict(args[0], vt))
    case BuiltinAbs => |args| >= 1
    case BuiltinStr => |args| >= 1
    case BuiltinInt => |args| >= 1
    case BuiltinMin => |args| >= 2
    case BuiltinMax => |args| >= 2
    case BuiltinPow => |args| == 2
    case BuiltinUnknown => false
  }

  /** A lowered expression: its C text and the lines computing it. */
  datatype Code = Code(code: string, lines: seq<string>)

  /** The effect on the state common to every expression lowering: temporaries only handed out,
      labels untouched. */
  ghost predicate ExprStep(st: FastState, c0: nat, l0: nat, tt0: map<string, string>)
    reads st
  {
    st.Valid() && c0 <= st.tempCounter && st.labelCounter == l0 &&
    forall k | k in tt0 :: k in st.tempTypes && st.tempTypes[k] == tt0[k]
  }

  /** A variable's C text: a big integer by address, everything else by name. */
  function VarCode(x: string, vt: map<string, string>): (r: string)
    ensures CTypeForVar(x, vt) == "rt_int" ==> r == "&" + x
    ensures CTypeForVar(x, vt) != "rt_int" ==> r == x
  {
    if CTypeForVar(x, vt) == "rt_int" then "&" + x else x
  }

  function ZeroGuard(divisor: string, msg: string): string
  {
    "    if (" + divisor + " == 0) RT_RAISE(RT_EXC_ZeroDivisionError, \"" + msg + "\");"
  }

  /** The lines computing `t = l op r`: `//` and `%` test the divisor for zero before dividing, then
      correct C's truncation (the correction EmittedFloorDiv and EmittedMod evaluate). */
  function ArithLines(op: string, t: string, l: string, r: string): (lines: Option<seq<string>>)
    ensures lines.Some? <==> op in BinOps
    ensures op == "//" ==> lines.Some? && |lines.value| == 5 && lines.value[0] == ZeroGuard(r, "division by zero") &&
                           lines.value[1] == "    " + t + " = " + l + " / " + r + ";" && lines.value[3] == "        " + t + " -= 1;"
    ensures op == "%" ==> lines.Some? && |lines.value| == 5 && lines.value[0] == ZeroGuard(r, "modulo by zero") &&
                          lines.value[1] == "    " + t + " = " + l + " % " + r + ";" && lines.value[3] == "        " + t + " += " + r + ";"
  {
    if op == "+" then Some(["    " + t + " = " + l + " + " + r + ";"])
    else if op == "-" then Some(["    " + t + " = " + l + " - " + r + ";"])
    else if op == "*" then Some(["    " + t + " = " + l + " * " + r + ";"])
    else if op == "//" then
      Some([ZeroGuard(r, "division by zero"), "    " + t + " = " + l + " / " + r + ";",
            "    if (" + r + " != 0 && (" + l + " < 0) != (" + r + " < 0) && " + l + " % " + r + " != 0) {",
            "        " + t + " -= 1;", "    }"])
    else if op == "%" then
      Some([ZeroGuard(r, "modulo by zero"), "    " + t + " = " + l + " % " + r + ";",
            "    if (" + r + " != 0 && (" + l + " < 0) != (" + r + " < 0) && " + t + " != 0) {",
            "        " + t + " += " + r + ";", "    }"])
    else None
  }

  /** _emit_expr. */
  method EmitExpr(st: FastState, e: Expr, vt: map<string, string>) returns (r: Result<Code, string>)
    requires st.Valid()
    modifies st
    ensures ExprStep(st, old(st.tempCounter), old(st.labelCounter), old(st.tempTypes))
    ensures r.Ok? <==> Lowerable(e, vt)
    ensures e.IntConst? && InInt64(e.ival) ==> r == Ok(Code(LiteralAsWritten(e.ival), [])) && st.tempCounter == old(st.tempCounter)
    ensures e.IntConst? && !InInt64(e.ival) ==>
      var t := B.TempName(old(st.tempCounter) + 1);
      r == Ok(Code("&" + t, [B.DeclInt(t), "    rt_int_from_dec(&" + t + ", \"" + Decimal.IntToString(e.ival) + "\");"]))
    ensures e.StrConst? ==>
      var t := B.TempName(old(st.tempCounter) + 1);
      r == Ok(Code(t, ["    rt_str " + t + " = rt_str_from_cstr(\"" + B.Escape(e.sval) + "\");"])) && t in st.tempTypes && st.tempTypes[t] == "rt_str"
    ensures e.Var? ==> r == Ok(Code(VarCode(e.name, vt), []))
    ensures e.BinOp? && r.Ok? ==>
      r.value.code in st.tempTypes && st.tempTypes[r.value.code] == (if ExprProducesString(e, vt) then "rt_str" else "long long")
    ensures e.CmpOp? && r.Ok? ==> r.value.code == "(" + B.TempName(st.tempCounter) + " != 0)"
    decreases e, 2
  {
    match e
    case ListConst(_) =>
      r := EmitList(st, e, vt);
    case DictConst(_, _) =>
      r := EmitDict(st, e, vt);
    case Subscript(_, _) =>
      r := EmitSubscript(st, e, vt);
    case BinOp(_, _, _) =>
      r := EmitBinOp(st, e, vt);
    case CmpOp(_, _, _) =>
      r := EmitCompare(st, e, vt);
    case Call(_, _) =>
      r := EmitCall(st, e, vt);
    case MethodCall(_, _, _) =>
      r := EmitObjectCall(st, e, vt);
    case ConstructorCall(_, _) =>
      r := EmitObjectCall(st, e, vt);
    case BuiltinCall(_, _) =>
      r := EmitBuiltin(st, e, vt);
    case _ =>
      r := EmitAtom(st, e, vt);
  }

  /** The expressions lowered without lowering others: literals, names and attribute reads. */
  method EmitAtom(st: FastState, e: Expr, vt: map<string, string>) returns (r: Result<Code, string>)
    requires st.Valid() && (e.IntConst? || e.FloatConst? || e.StrConst? || e.Var? || e.AttributeAccess?)
    modifies st
    ensures ExprStep(st, old(st.tempCounter), old(st.labelCounter), old(st.tempTypes))
    ensures r.Ok? <==> Lowerable(e, vt)
    ensures e.IntConst? && InInt64(e.ival) ==> r == Ok(Code(LiteralAsWritten(e.ival), [])) && st.tempCounter == old(st.tempCounter)
    ensures e.IntConst? && !InInt64(e.ival) ==>
      var t := B.TempName(old(st.tempCounter) + 1);
      r == Ok(Code("&" + t, [B.DeclInt(t), "    rt_int_from_dec(&" + t + ", \"" + Decimal.IntToString(e.ival) + "\");"]))
    ensures e.StrConst? ==>
      var t := B.TempName(old(st.tempCounter) + 1);
      r == Ok(Code(t, ["    rt_str " + t + " = rt_str_from_cstr(\"" + B.Escape(e.sval) + "\");"])) && t in st.tempTypes && st.tempTypes[t] == "rt_str"
    ensures e.Var? ==> r == Ok(Code(VarCode(e.name, vt), []))
  {
    match e
    case IntConst(v) =>
      if InInt64(v) {
        return Ok(Code(LiteralAsWritten(v), []));
      }
      var t := st.NextTemp("rt_int");
      r := Ok(Code("&" + t, [B.DeclInt(t), "    rt_int_from_dec(&" + t + ", \"" + Decimal.IntToString(v) + "\");"]));
    case FloatConst(_) =>
      r := Err("Unsupported expression: FloatConst");
    case StrConst(sv) =>
      var t := st.NextTemp("rt_str");
      r := Ok(Code(t, ["    rt_str " + t + " = rt_str_from_cstr(\"" + B.Escape(sv) + "\");"]));
    case Var(x) =>
      r := Ok(Code(VarCode(x, vt), []));
    case AttributeAccess(obj, attr) =>
      var t := st.NextTemp("long long");
      r := Ok(Code(t, ["    long long " + t + ";", "    pcc_get_attr_" + obj + "_" + attr + "(&" + t + ");"]));
  }

  /** A comparison: both operands, then an `int` temporary holding the C comparison, used as
      `(t != 0)`. */
  method EmitCompare(st: FastState, e: Expr, vt: map<string, string>) returns (r: Result<Code, string>)
    requires st.Valid() && e.CmpOp?
    modifies st
    ensures ExprStep(st, old(st.tempCounter), old(st.labelCounter), old(st.tempTypes))
    ensures r.Ok? <==> Lowerable(e, vt)
    ensures r.Ok? ==> r.value.code == "(" + B.TempName(st.tempCounter) + " != 0)"
    decreases e, 1
  {
    var ops :- EmitOperands(st, e, vt);
    var t := st.NextTemp("int");
    r := Ok(Code("(" + t + " != 0)", ops.0 + ["    int " + t + " = (" + ops.1 + " " + e.op + " " + ops.2 + ");"]));
  }

  /** A method call or a constructor call: the arguments, then the result temporary passed first
      to `pcc_method_<obj>_<m>` or `pcc_new_<cls>`. */
  method EmitObjectCall(st: FastState, e: Expr, vt: map<string, string>) returns (r: Result<Code, string>)
    requires st.Valid() && (e.MethodCall? || e.ConstructorCall?)
    modifies st
    ensures ExprStep(st, old(st.tempCounter), old(st.labelCounter), old(st.tempTypes))
    ensures r.Ok? <==> Lowerable(e, vt)
    ensures r.Ok? ==>
      var t := r.value.code;
      t == B.TempName(st.tempCounter) && t in st.tempTypes && st.tempTypes[t] == "long long" && |r.value.lines| >= 2 &&
      r.value.lines[|r.value.lines| - 2] == "    long long " + t + ";"
    decreases e, 1
  {
    var lowered :- EmitArgs(st, e.args, vt);
    var t := st.NextTemp("long long");
    var callee := if e.MethodCall? then "pcc_method_" + e.obj + "_" + e.methodName else "pcc_new_" + e.className;
    r := Ok(Code(t, lowered.1 + ["    long long " + t + ";", "    " + callee + "(" + B.ArgListAsWritten("&" + t, lowered.0) + ");"]));
  }

  /** The two operands of a binary expression, left first. */
  method EmitOperands(st: FastState, e: Expr, vt: map<string, string>) returns (r: Result<(seq<string>, string, string), string>)
    requires st.Valid() && (e.BinOp? || e.CmpOp?)
    modifies st
    ensures ExprStep(st, old(st.tempCounter), old(st.labelCounter), old(st.tempTypes))
    ensures r.Ok? <==> Lowerable(e.left, vt) && Lowerable(e.right, vt)
    ensures r.Ok? && e.right.IntConst? && InInt64(e.right.ival) ==> r.value.2 == LiteralAsWritten(e.right.ival)
    decreases e, 0
  {
    var left :- EmitExpr(st, e.left, vt);
    var right := EmitExpr(st, e.right, vt);
    if right.Err? {
      return Err(right.error);
    }
    r := Ok((left.lines + right.value.lines, left.code, right.value.code));
  }

  /** A binary operator: string concatenation when both operands produce strings and the operator
      is `+`, otherwise native arithmetic into a `long long` temporary, with a literal divisor of
      `//` or `%` first copied into a temporary of its own. */
  method EmitBinOp(st: FastState, e: Expr, vt: map<string, string>) returns (r: Result<Code, string>)
    requires st.Valid() && e.BinOp?
    modifies st
    ensures ExprStep(st, old(st.tempCounter), old(st.labelCounter), old(st.tempTypes))
    ensures r.Ok? <==> Lowerable(e, vt)
    ensures r.Ok? ==>
      r.value.code in st.tempTypes && st.tempTypes[r.value.code] == (if ExprProducesString(e, vt) then "rt_str" else "long long")
    ensures r.Ok? && ExprProducesString(e, vt) ==>
      |r.value.lines| >= 1 && B.StartsWith("    rt_str " + r.value.code + " = rt_str_concat(", r.value.lines[|r.value.lines| - 1])
    ensures r.Ok? && !ExprProducesString(e, vt) ==> exists l: string, d: string ::
      ArithLines(e.op, r.value.code, l, d).Some? && EndsWith(r.value.lines, ArithLines(e.op, r.value.code, l, d).value)
    ensures r.Ok? && !ExprProducesString(e, vt) && e.op in {"//", "%"} && e.right.IntConst? && InInt64(e.right.ival) ==>
      var rv := B.TempName(st.tempCounter);
      rv != r.value.code && "    long long " + rv + " = " + LiteralAsWritten(e.right.ival) + ";" in r.value.lines &&
      ZeroGuard(rv, if e.op == "//" then "division by zero" else "modulo by zero") in r.value.lines
    decreases e, 1
  {
    var ops :- EmitOperands(st, e, vt);
    var (lines, lc, rc) := ops;
    if ExprProducesString(e, vt) {
      var t := st.NextTemp("rt_str");
      var line := "    rt_str " + t + " = rt_str_concat(" + (lc + ", " + rc + ");");
      B.StartsWithConcat("    rt_str " + t + " = rt_str_concat(", lc + ", " + rc + ");");
      return Ok(Code(t, lines + [line]));
    }
    ghost var c := st.tempCounter;
    r := EmitArith(st, e.op, e.right.IntConst?, lines, lc, rc);
    if r.Ok? {
      var d := if e.op in {"//", "%"} && e.right.IntConst? then B.TempName(st.tempCounter) else rc;
      assert ArithLines(e.op, r.value.code, lc, d).Some? && EndsWith(r.value.lines, ArithLines(e.op, r.value.code, lc, d).value);
    }
  }

  /** Whether s ends with suffix. */
  predicate EndsWith<T(==)>(s: seq<T>, suffix: seq<T>)
  {
    |suffix| <= |s| && s[|s| - |suffix|..] == suffix
  }

  /** Native arithmetic `l op r` into a fresh `long long` temporary; a literal divisor of `//` or
      `%` is first copied into a temporary of its own, which the zero guard then tests. */
  method EmitArith(st: FastState, op: string, literalRight: bool, pre: seq<string>, lc: string, rc: string)
    returns (r: Result<Code, string>)
    requires st.Valid()
    modifies st
    ensures ExprStep(st, old(st.tempCounter), old(st.labelCounter), old(st.tempTypes))
    ensures r.Ok? <==> op in BinOps
    ensures r.Ok? ==> r.value.code == B.TempName(old(st.tempCounter) + 1) &&
                      r.value.code in st.tempTypes && st.tempTypes[r.value.code] == "long long"
    ensures r.Ok? ==>
      var d := if op in {"//", "%"} && literalRight then B.TempName(st.tempCounter) else rc;
      EndsWith(r.value.lines, ArithLines(op, r.value.code, lc, d).value)
    ensures r.Ok? && op in {"//", "%"} && literalRight ==>
      var rv := B.TempName(st.tempCounter);
      rv != r.value.code && "    long long " + rv + " = " + rc + ";" in r.value.lines &&
      ZeroGuard(rv, if op == "//" then "division by zero" else "modulo by zero") in r.value.lines
  {
    var t := st.NextTemp("long long");
    var lines := pre + ["    long long " + t + ";"];
    if op in {"//", "%"} && literalRight {
      var rv := st.NextTemp("long long");
      B.TempNameInjective(st.tempCounter, st.tempCounter - 1);
      var copy := "    long long " + rv + " = " + rc + ";";
      lines := lines + [copy];
      var arith := ArithLines(op, t, lc, rv);
      var msg := if op == "//" then "division by zero" else "modulo by zero";
      assert arith.value[0] == ZeroGuard(rv, msg);
      r := Ok(Code(t, lines + arith.value));
      assert r.value.lines[|lines| - 1] == copy && r.value.lines[|lines|] == ZeroGuard(rv, msg);
      assert r.value.lines[|r.value.lines| - |arith.value|..] == arith.value;
      return;
    }
    var arith := ArithLines(op, t, lc, rc);
    if arith.None? {
      return Err("Unsupported binary operator: " + op);
    }
    r := Ok(Code(t, lines + arith.value));
    assert r.value.lines[|r.value.lines| - |arith.value|..] == arith.value;
  }

  /** A list display: the list temporary first, then each element appended in order. */
  method EmitList(st: FastState, e: Expr, vt: map<string, string>) returns (r: Result<Code, string>)
    requires st.Valid() && e.ListConst?
    modifies st
    ensures ExprStep(st, old(st.tempCounter), old(st.labelCounter), old(st.tempTypes))
    ensures r.Ok? <==> Lowerable(e, vt)
    ensures r.Ok? ==>
      var t := B.TempName(old(st.tempCounter) + 1);
      r.value.code == t && t in st.tempTypes && st.tempTypes[t] == "rt_list_si" && |r.value.lines| >= |e.elements| + 1 &&
      r.value.lines[0] == "    rt_list_si " + t + "; rt_list_si_init(&" + t + ");"
    decreases e, 1
  {
    var t := st.NextTemp("rt_list_si");
    ghost var c1, tt1 := st.tempCounter, st.tempTypes;
    var lines := ["    rt_list_si " + t + "; rt_list_si_init(&" + t + ");"];
    for i := 0 to |e.elements|
      invariant ExprStep(st, c1, old(st.labelCounter), tt1)
      invariant forall j | 0 <= j < i :: Lowerable(e.elements[j], vt)
      invariant |lines| >= i + 1 && lines[0] == "    rt_list_si " + t + "; rt_list_si_init(&" + t + ");"
    {
      var x := EmitExpr(st, e.elements[i], vt);
      if x.Err? {
        assert !Lowerable(e, vt) by { assert e.elements[i] in e.elements; }
        return Err(x.error);
      }
      lines := lines + x.value.lines + ["    rt_list_si_append(&" + t + ", " + x.value.code + ");"];
    }
    assert forall x | x in e.elements :: Lowerable(x, vt);
    r := Ok(Code(t, lines));
  }

  /** A dict display: the dict temporary first, then each `zip`ped key and value, key first. */
  method EmitDict(st: FastState, e: Expr, vt: map<string, string>) returns (r: Result<Code, string>)
    requires st.Valid() && e.DictConst?
    modifies st
    ensures ExprStep(st, old(st.tempCounter), old(st.labelCounter), old(st.tempTypes))
    ensures r.Ok? <==> Lowerable(e, vt)
    ensures r.Ok? ==>
      var t := B.TempName(old(st.tempCounter) + 1);
      r.value.code == t && t in st.tempTypes && st.tempTypes[t] == "rt_dict_ssi" && |r.value.lines| >= 1 &&
      r.value.lines[0] == "    rt_dict_ssi " + t + "; rt_dict_ssi_init(&" + t + ");"
    decreases e, 1
  {
    var t := st.NextTemp("rt_dict_ssi");
    ghost var c1, tt1 := st.tempCounter, st.tempTypes;
    var lines := ["    rt_dict_ssi " + t + "; rt_dict_ssi_init(&" + t + ");"];
    var n := if |e.keys| < |e.values| then |e.keys| else |e.values|;
    for i := 0 to n
      invariant ExprStep(st, c1, old(st.labelCounter), tt1)
      invariant forall j | 0 <= j < i :: Lowerable(e.keys[j], vt) && Lowerable(e.values[j], vt)
      invariant |lines| >= 1 && lines[0] == "    rt_dict_ssi " + t + "; rt_dict_ssi_init(&" + t + ");"
    {
      var pair := EmitPair(st, e, i, t, vt);
      if pair.Err? {
        return Err(pair.error);
      }
      lines := lines + pair.value;
    }
    r := Ok(Code(t, lines));
  }

  /** The i-th key and value of a dict display, key first, stored into dict temporary t. */
  method EmitPair(st: FastState, e: Expr, i: nat, t: string, vt: map<string, string>) returns (r: Result<seq<string>, string>)
    requires st.Valid() && e.DictConst? && i < |e.keys| && i < |e.values|
    modifies st
    ensures ExprStep(st, old(st.tempCounter), old(st.labelCounter), old(st.tempTypes))
    ensures r.Ok? <==> Lowerable(e.keys[i], vt) && Lowerable(e.values[i], vt)
    ensures r.Ok? ==> |r.value| >= 1 && B.StartsWith("    rt_dict_ssi_set(&" + t + ", ", r.value[|r.value| - 1])
    decreases e, 0
  {
    var k :- EmitExpr(st, e.keys[i], vt);
    var v := EmitExpr(st, e.values[i], vt);
    if v.Err? {
      return Err(v.error);
    }
    var head := "    rt_dict_ssi_set(&" + t + ", ";
    B.StartsWithConcat(head, k.code + ", " + v.value.code + ");");
    r := Ok(k.lines + v.value.lines + [head + (k.code + ", " + v.value.code + ");")]);
  }

  /** A subscript: the index lowered, then a typed get on a list or dict variable; any other
      variable is an error. */
  method EmitSubscript(st: FastState, e: Expr, vt: map<string, string>) returns (r: Result<Code, string>)
    requires st.Valid() && e.Subscript?
    modifies st
    ensures ExprStep(st, old(st.tempCounter), old(st.labelCounter), old(st.tempTypes))
    ensures r.Ok? <==> Lowerable(e, vt)
    ensures r.Ok? ==>
      var t := r.value.code;
      t == B.TempName(st.tempCounter) && t in st.tempTypes && st.tempTypes[t] == "long long" && |r.value.lines| >= 2 &&
      B.StartsWith("    " + t + " = " + (if CTypeForVar(e.target, vt) == "rt_list_si" then "rt_list_si_get" else "rt_dict_ssi_get") +
                   "(&" + e.target + ", ", r.value.lines[|r.value.lines| - 1])
    decreases e, 1
  {
    var ctype := CTypeForVar(e.target, vt);
    var idx :- EmitExpr(st, e.index, vt);
    var t := st.NextTemp("long long");
    var get := if ctype == "rt_list_si" then "rt_list_si_get" else "rt_dict_ssi_get";
    if ctype !in {"rt_list_si", "rt_dict_ssi"} {
      return Err("Subscript on unsupported type for " + e.target + ": " + ctype);
    }
    var line := "    " + t + " = " + get + "(&" + e.target + ", " + (idx.code + ");");
    B.StartsWithConcat("    " + t + " = " + get + "(&" + e.target + ", ", idx.code + ");");
    r := Ok(Code(t, idx.lines + ["    long long " + t + ";", line]));
  }

  /** The arguments of a method or constructor call, lowered left to right. */
  method EmitArgs(st: FastState, args: seq<Expr>, vt: map<string, string>) returns (r: Result<(seq<string>, seq<string>), string>)
    requires st.Valid()
    modifies st
    ensures ExprStep(st, old(st.tempCounter), old(st.labelCounter), old(st.tempTypes))
    ensures r.Ok? <==> forall a | a in args :: Lowerable(a, vt)
    ensures r.Ok? ==> |r.value.0| == |args| && forall i | 0 <= i < |args| :: args[i].Var? ==> r.value.0[i] == VarCode(args[i].name, vt)
    decreases args, 2
  {
    var codes: seq<string> := [];
    var lines: seq<string> := [];
    for i := 0 to |args|
      invariant ExprStep(st, old(st.tempCounter), old(st.labelCounter), old(st.tempTypes))
      invariant |codes| == i && forall j | 0 <= j < i :: Lowerable(args[j], vt)
      invariant forall j | 0 <= j < i :: args[j].Var? ==> codes[j] == VarCode(args[j].name, vt)
    {
      var a := EmitExpr(st, args[i], vt);
      if a.Err? {
        assert args[i] in args;
        return Err(a.error);
      }
      codes := codes + [a.value.code];
      lines := lines + a.value.lines;
    }
    assert forall a | a in args :: Lowerable(a, vt);
    r := Ok((codes, lines));
  }

  /** One argument of a function call, passed by address: an integer literal is first stored in a
      `long long` temporary, anything else is lowered and passed as `&` of its text. */
  method EmitCallArg(st: FastState, a: Expr, vt: map<string, string>) returns (r: Result<Code, string>)
    requires st.Valid()
    modifies st
    ensures ExprStep(st, old(st.tempCounter), old(st.labelCounter), old(st.tempTypes))
    ensures r.Ok? <==> Lowerable(a, vt)
    ensures a.IntConst? ==>
      var t := B.TempName(old(st.tempCounter) + 1);
      r == Ok(Code("&" + t, ["    long long " + t + " = " + LiteralAsWritten(a.ival) + ";"])) && t in st.tempTypes && st.tempTypes[t] == "long long"
    ensures a.Var? ==> r == Ok(Code("&" + VarCode(a.name, vt), []))
    ensures r.Ok? ==> CallArgCode(a, r.value.code, vt)
    decreases a, 3
  {
    if a.IntConst? {
      var t := st.NextTemp("long long");
      assert "&" + t == "&pcc_tmp_" + Decimal.NatToString(st.tempCounter);
      B.StartsWithConcat("&pcc_tmp_", Decimal.NatToString(st.tempCounter));
      return Ok(Code("&" + t, ["    long long " + t + " = " + LiteralAsWritten(a.ival) + ";"]));
    }
    var x :- EmitExpr(st, a, vt);
    r := Ok(Code("&" + x.code, x.lines));
  }

  /** What is known of an argument's text when passed by address: a variable's own name, a
      literal's temporary. */
  predicate CallArgCode(a: Expr, code: string, vt: map<string, string>)
  {
    (a.Var? ==> code == "&" + VarCode(a.name, vt)) &&
    (a.IntConst? ==> B.StartsWith("&pcc_tmp_", code))
  }

  /** The arguments of a function call, left to right, each passed by address. */
  method EmitCallArgs(st: FastState, args: seq<Expr>, vt: map<string, string>) returns (r: Result<(seq<string>, seq<string>), string>)
    requires st.Valid()
    modifies st
    ensures ExprStep(st, old(st.tempCounter), old(st.labelCounter), old(st.tempTypes))
    ensures r.Ok? <==> forall a | a in args :: Lowerable(a, vt)
    ensures r.Ok? ==> |r.value.0| == |args| && forall i | 0 <= i < |args| :: CallArgCode(args[i], r.value.0[i], vt)
    decreases args, 2
  {
    var codes: seq<string> := [];
    var lines: seq<string> := [];
    for i := 0 to |args|
      invariant ExprStep(st, old(st.tempCounter), old(st.labelCounter), old(st.tempTypes))
      invariant |codes| == i && forall j | 0 <= j < i :: Lowerable(args[j], vt)
      invariant forall j | 0 <= j < i :: CallArgCode(args[j], codes[j], vt)
    {
      var a := EmitCallArg(st, args[i], vt);
      if a.Err? {
        assert args[i] in args;
        return Err(a.error);
      }
      codes := codes + [a.value.code];
      lines := lines + a.value.lines;
    }
    assert forall a | a in args :: Lowerable(a, vt);
    r := Ok((codes, lines));
  }

  /** A function call: its arguments by address, then the result temporary passed first. */
  method EmitCall(st: FastState, e: Expr, vt: map<string, string>) returns (r: Result<Code, string>)
    requires st.Valid() && e.Call?
    modifies st
    ensures ExprStep(st, old(st.tempCounter), old(st.labelCounter), old(st.tempTypes))
    ensures r.Ok? <==> Lowerable(e, vt)
    ensures r.Ok? ==>
      var t := r.value.code;
      t == B.TempName(st.tempCounter) && t in st.tempTypes && st.tempTypes[t] == "long long" && |r.value.lines| >= 2 &&
      B.StartsWith("    pcc_fn_" + e.func + "(&" + t, r.value.lines[|r.value.lines| - 1])
    decreases e, 1
  {
    var lowered :- EmitCallArgs(st, e.args, vt);
    var t := st.NextTemp("long long");
    var rest := B.ArgListAsWritten("&" + t, lowered.0);
    assert B.StartsWith("&" + t, rest);
    var line := "    pcc_fn_" + e.func + "(" + (rest + ");");
    assert line[..|"    pcc_fn_" + e.func + "(&" + t|] == "    pcc_fn_" + e.func + "(&" + t;
    r := Ok(Code(t, lowered.1 + ["    long long " + t + ";", line]));
  }

  // ---------------------------------------------------------------------------------------------
  // Builtins

  /** The straight-line statements of `min`/`max` over three or more arguments: the first one stored,
      each later one folded in. */
  function FoldLines(t: string, fn: string, codes: seq<string>): (lines: seq<string>)
    ensures |lines| == |codes|
    ensures forall i | 0 <= i < |codes| :: lines[i] == "    " + t + " = " + fn + "(" + t + ", " + codes[i] + ");"
  {
    seq(|codes|, i requires 0 <= i < |codes| => "    " + t + " = " + fn + "(" + t + ", " + codes[i] + ");")
  }

  function MinMaxLines(t: string, fn: string, codes: seq<string>): (lines: seq<string>)
    requires |codes| >= 2
    ensures |codes| == 2 ==> lines == ["    long long " + t + " = " + fn + "(" + codes[0] + ", " + codes[1] + ");"]
    ensures |codes| > 2 ==> |lines| == |codes| && lines[0] == "    long long " + t + " = " + codes[0] + ";" &&
                            lines[1..] == FoldLines(t, fn, codes[1..])
  {
    if |codes| == 2 then ["    long long " + t + " = " + fn + "(" + codes[0] + ", " + codes[1] + ");"]
    else ["    long long " + t + " = " + codes[0] + ";"] + FoldLines(t, fn, codes[1..])
  }

  /** The value the folded statements leave in the temporary: acc, then each value folded in. */
  function FoldMin(acc: int, vs: seq<int>): int
    decreases |vs|
  {
    if vs == [] then acc else FoldMin(if vs[0] < acc then vs[0] else acc, vs[1..])
  }

  function FoldMax(acc: int, vs: seq<int>): int
    decreases |vs|
  {
    if vs == [] then acc else FoldMax(if vs[0] > acc then vs[0] else acc, vs[1..])
  }

  /** The chain of `rt_math_min_si` leaves the smallest argument: no argument is smaller and it is
      one of them. */
  lemma {:induction false} FoldMinIsMinimum(acc: int, vs: seq<int>)
    ensures FoldMin(acc, vs) <= acc && forall v | v in vs :: FoldMin(acc, vs) <= v
    ensures FoldMin(acc, vs) == acc || FoldMin(acc, vs) in vs
    decreases |vs|
  {
    if vs != [] {
      var a := if vs[0] < acc then vs[0] else acc;
      FoldMinIsMinimum(a, vs[1..]);
      assert vs == [vs[0]] + vs[1..];
    }
  }

  lemma {:induction false} FoldMaxIsMaximum(acc: int, vs: seq<int>)
    ensures FoldMax(acc, vs) >= acc && forall v | v in vs :: FoldMax(acc, vs) >= v
    ensures FoldMax(acc, vs) == acc || FoldMax(acc, vs) in vs
    decreases |vs|
  {
    if vs != [] {
      var a := if vs[0] > acc then vs[0] else acc;
      FoldMaxIsMaximum(a, vs[1..]);
      assert vs == [vs[0]] + vs[1..];
    }
  }

  /** The type of the temporary a builtin's result goes in. */
  function BuiltinType(name: string): string
  {
    if BuiltinOf(name) == BuiltinStr then "rt_str" else "long long"
  }

  /** The message _emit_builtin_call raises for arguments it does not accept: indexing a missing
      first argument, a `len` of another kind, a single-argument `min`/`max`, a modular `pow`, or
      an unknown name. */
  function BuiltinError(name: string, args: seq<Expr>, vt: map<string, string>): string
  {
    match BuiltinOf(name)
    case BuiltinLen => if |args| == 0 then "IndexError: list index out of range" else "len() only supports str/list/dict in this PCC version"
    case BuiltinMin => if |args| == 1 then "min() with single iterable argument not supported" else "IndexError: list index out of range"
    case BuiltinMax => if |args| == 1 then "max() with single iterable argument not supported" else "IndexError: list index out of range"
    case BuiltinPow => if |args| == 3 then "pow() with 3 arguments (modular) not supported" else "Unknown builtin: pow"
    case BuiltinUnknown => "Unknown builtin: " + name
    case _ => "IndexError: list index out of range"
  }

  /** The lines _emit_builtin_call appends for accepted arguments lowered to codes, with the
      result in temporary t. */
  function BuiltinBody(name: string, args: seq<Expr>, codes: seq<string>, t: string, vt: map<string, string>): seq<string>
    requires |codes| == |args| && BuiltinAccepts(name, args, vt)
  {
    match BuiltinOf(name)
    case BuiltinLen => ["    long long " + t + " = (long long)" + LenFunction(args[0], vt) + "(&" + codes[0] + ");"]
    case BuiltinAbs => ["    long long " + t + " = rt_math_abs_si(" + codes[0] + ");"]
    case BuiltinStr => ["    rt_str " + t + " = rt_str_from_si(" + codes[0] + ");"]
    case BuiltinInt => ["    long long " + t + " = " + codes[0] + ";"]
    case BuiltinMin => MinMaxLines(t, "rt_math_min_si", codes)
    case BuiltinMax => MinMaxLines(t, "rt_math_max_si", codes)
    case BuiltinPow => ["    long long " + t + " = rt_math_pow_si(" + codes[0] + ", " + codes[1] + ");"]
    case BuiltinUnknown => []
  }

  /** The errors _emit_builtin_call raises for arguments it does not support. */
  lemma BuiltinErrors(name: string, args: seq<Expr>, vt: map<string, string>)
    ensures name == "pow" && |args| == 3 ==> !BuiltinAccepts(name, args, vt) && BuiltinError(name, args, vt) == "pow() with 3 arguments (modular) not supported"
    ensures name == "min" && |args| == 1 ==> !BuiltinAccepts(name, args, vt) && BuiltinError(name, args, vt) == "min() with single iterable argument not supported"
    ensures name == "max" && |args| == 1 ==> !BuiltinAccepts(name, args, vt) && BuiltinError(name, args, vt) == "max() with single iterable argument not supported"
    ensures name == "len" && |args| >= 1 && !BuiltinAccepts(name, args, vt) ==>
      BuiltinError(name, args, vt) == "len() only supports str/list/dict in this PCC version"
  {
    if name == "pow" {
      assert BuiltinOf(name) == BuiltinPow;
    } else if name == "min" {
      assert BuiltinOf(name) == BuiltinMin;
    } else if name == "max" {
      assert BuiltinOf(name) == BuiltinMax;
    } else if name == "len" {
      assert BuiltinOf(name) == BuiltinLen;
    }
  }

  /** Any other name is refused as an unknown builtin. */
  lemma BuiltinUnknownError(name: string, args: seq<Expr>, vt: map<string, string>)
    requires name !in {"len", "abs", "min", "max", "pow", "str", "int"}
    ensures !BuiltinAccepts(name, args, vt) && BuiltinError(name, args, vt) == "Unknown builtin: " + name
  {
    assert BuiltinOf(name) == BuiltinUnknown;
  }

  /** `len` dispatches on the argument's kind, string first; `min` and `max` fold the argument
      codes; `pow` passes base and exponent. */
  lemma BuiltinDispatch(name: string, args: seq<Expr>, codes: seq<string>, t: string, vt: map<string, string>)
    requires |codes| == |args| && BuiltinAccepts(name, args, vt)
    ensures name == "len" ==>
      var fn := if ExprProducesString(args[0], vt) then "rt_str_len"
                else if ExprIsList(args[0], vt) then "rt_list_si_len" else "rt_dict_ssi_len";
      LenFunction(args[0], vt) == fn &&
      BuiltinBody(name, args, codes, t, vt) == ["    long long " + t + " = (long long)" + fn + "(&" + codes[0] + ");"]
    ensures name == "min" ==> BuiltinBody(name, args, codes, t, vt) == MinMaxLines(t, "rt_math_min_si", codes)
    ensures name == "max" ==> BuiltinBody(name, args, codes, t, vt) == MinMaxLines(t, "rt_math_max_si", codes)
    ensures name == "pow" ==>
      BuiltinBody(name, args, codes, t, vt) == ["    long long " + t + " = rt_math_pow_si(" + codes[0] + ", " + codes[1] + ");"]
  {
    if name == "len" {
      assert BuiltinOf(name) == BuiltinLen;
    } else if name == "min" {
      assert BuiltinOf(name) == BuiltinMin;
    } else if name == "max" {
      assert BuiltinOf(name) == BuiltinMax;
    } else if name == "pow" {
      assert BuiltinOf(name) == BuiltinPow;
    }
  }

  /** _emit_builtin_call: all arguments lowered first, then the builtin by name into a fresh
      temporary. */
  method EmitBuiltin(st: FastState, e: Expr, vt: map<string, string>) returns (r: Result<Code, string>)
    requires st.Valid() && e.BuiltinCall?
    modifies st
    ensures ExprStep(st, old(st.tempCounter), old(st.labelCounter), old(st.tempTypes))
    ensures r.Ok? <==> Lowerable(e, vt)
    ensures (forall a | a in e.args :: Lowerable(a, vt)) && r.Err? ==> r == Err(BuiltinError(e.name, e.args, vt))
    ensures r.Ok? ==>
      var t := r.value.code;
      t == B.TempName(st.tempCounter) && t in st.tempTypes && st.tempTypes[t] == BuiltinType(e.name) &&
      exists pre: seq<string>, codes: seq<string> | |codes| == |e.args| ::
        r.value.lines == pre + BuiltinBody(e.name, e.args, codes, t, vt)
    decreases e, 1
  {
    var lowered :- EmitArgs(st, e.args, vt);
    var (codes, lines) := lowered;
    if !BuiltinAccepts(e.name, e.args, vt) {
      return Err(BuiltinError(e.name, e.args, vt));
    }
    var t := st.NextTemp(BuiltinType(e.name));
    r := Ok(Code(t, lines + BuiltinBody(e.name, e.args, codes, t, vt)));
  }

  // ---------------------------------------------------------------------------------------------
  // Statements

  /** The loop a statement sits in: whether it is inside one, and the labels `break` and `continue`
      jump to (None outside every loop). */
  datatype LoopCtx = LoopCtx(inLoop: bool, breakLabel: Option<string>, continueLabel: Option<string>)

  const TopLevel := LoopCtx(false, None, None)

  /** Whether a `break` (brk) or a `continue` (!brk) can be lowered in this context. */
  predicate CanJump(ctx: LoopCtx, brk: bool)
  {
    ctx.inLoop && (if brk then ctx.breakLabel.Some? else ctx.continueLabel.Some?)
  }

  function JumpLabel(ctx: LoopCtx, brk: bool): string
    requires CanJump(ctx, brk)
  {
    if brk then ctx.breakLabel.value else ctx.continueLabel.value
  }

  /** A label as this back end writes it, unindented. */
  function LabelLine(lbl: string): string { lbl + ":" }

  /** Every name a statement may record in the shared type map: assignment targets and range-loop
      variables, in nested bodies too. */
  function StmtNames(s: Stmt): set<string>
    decreases s, 1
  {
    match s
    case Assign(x, _) => {x}
    case ForRange(x, _, _, _, body, _) => {x} + BlockNames(body)
    case If(_, body, orelse) => BlockNames(body) + BlockNames(orelse)
    case While(_, body) => BlockNames(body)
    case TryExcept(body, _, handler) => BlockNames(body) + BlockNames(handler)
    case _ => {}
  }

  function BlockNames(ss: seq<Stmt>): set<string>
    decreases ss, 2
  {
    set i, x | 0 <= i < |ss| && x in StmtNames(ss[i]) :: x
  }

  lemma BlockNamesSnoc(ss: seq<Stmt>, i: int)
    requires 0 <= i < |ss|
    ensures BlockNames(ss[..i + 1]) == BlockNames(ss[..i]) + StmtNames(ss[i])
  {
    var a := ss[..i];
    var b := ss[..i + 1];
    forall x | x in BlockNames(b)
      ensures x in BlockNames(a) + StmtNames(ss[i])
    {
      var j :| 0 <= j < |b| && x in StmtNames(b[j]);
      if j < i {
        assert a[j] == b[j];
      }
    }
    forall x | x in StmtNames(ss[i])
      ensures x in BlockNames(b)
    {
      assert b[i] == ss[i];
    }
    forall x | x in BlockNames(a)
      ensures x in BlockNames(b)
    {
      var j :| 0 <= j < |a| && x in StmtNames(a[j]);
      assert b[j] == a[j];
    }
  }

  /** How the shared type map may change across a statement or block binding names: a recorded
      variable keeps its type unless it is one of those names and becomes `long long` (a range
      loop's variable), and every name newly recorded is one of those names. */
  ghost predicate Evolves(vt: map<string, string>, vt': map<string, string>, names: set<string>)
  {
    (forall k | k in vt :: k in vt' && (vt'[k] == vt[k] || (k in names && vt'[k] == "long long"))) &&
    (forall k | k in vt' && k !in vt :: k in names)
  }

  lemma EvolvesTrans(a: map<string, string>, b: map<string, string>, c: map<string, string>, n1: set<string>, n2: set<string>)
    requires Evolves(a, b, n1) && Evolves(b, c, n2)
    ensures Evolves(a, c, n1 + n2)
  {
  }

  lemma EvolvesWiden(a: map<string, string>, b: map<string, string>, n1: set<string>, n2: set<string>)
    requires Evolves(a, b, n1) && n1 <= n2
    ensures Evolves(a, b, n2)
  {
  }

  /** The lines of a lowered statement and the type map after it. */
  datatype Out = Out(lines: seq<string>, varTypes: map<string, string>)

  /** The effect on the state common to every statement lowering. */
  ghost predicate StmtStep(st: FastState, c0: nat, l0: nat)
    reads st
  {
    st.Valid() && c0 <= st.tempCounter && l0 <= st.labelCounter
  }

  /** A jump of kind brk (`break` when brk, `continue` otherwise) has a label to go to in this
      context, and its goto is among the lines. */
  predicate JumpReached(ctx: LoopCtx, brk: bool, lines: seq<string>)
  {
    CanJump(ctx, brk) && B.Goto(JumpLabel(ctx, brk)) in lines
  }

  /** What lowering the statements ss guarantees: the type map evolves by their names, and each
      kind of jump among them reaches its label. */
  ghost predicate BlockLowered(ss: seq<Stmt>, vt: map<string, string>, vt': map<string, string>, ctx: LoopCtx, lines: seq<string>)
  {
    Evolves(vt, vt', BlockNames(ss)) &&
    (B.BlockJumps(ss, true) ==> JumpReached(ctx, true, lines)) &&
    (B.BlockJumps(ss, false) ==> JumpReached(ctx, false, lines))
  }

  /** One more statement lowered after a prefix of the block. */
  lemma BlockLoweredSnoc(ss: seq<Stmt>, i: nat, vt: map<string, string>, cur: map<string, string>, ctx: LoopCtx,
                         lines: seq<string>, out: Out)
    requires i < |ss| && BlockLowered(ss[..i], vt, cur, ctx, lines)
    requires Evolves(cur, out.varTypes, StmtNames(ss[i]))
    requires B.StmtJumps(ss[i], true) ==> JumpReached(ctx, true, out.lines)
    requires B.StmtJumps(ss[i], false) ==> JumpReached(ctx, false, out.lines)
    ensures BlockLowered(ss[..i + 1], vt, out.varTypes, ctx, lines + out.lines)
  {
    BlockNamesSnoc(ss, i);
    EvolvesTrans(vt, cur, out.varTypes, BlockNames(ss[..i]), StmtNames(ss[i]));
    forall brk: bool | B.BlockJumps(ss[..i + 1], brk)
      ensures B.BlockJumps(ss[..i], brk) || B.StmtJumps(ss[i], brk)
    {
      var j :| 0 <= j < i + 1 && B.StmtJumps(ss[..i + 1][j], brk);
      if j < i {
        assert ss[..i + 1][j] == ss[..i][j];
      }
    }
  }

  /** The block lowered statement by statement in one shared type map. */
  method EmitBlock(st: FastState, ss: seq<Stmt>, vt: map<string, string>, ctx: LoopCtx) returns (r: Result<Out, string>)
    requires st.Valid()
    modifies st
    ensures StmtStep(st, old(st.tempCounter), old(st.labelCounter))
    ensures r.Ok? ==> Evolves(vt, r.value.varTypes, BlockNames(ss))
    ensures r.Ok? && B.BlockJumps(ss, true) ==> CanJump(ctx, true) && B.Goto(JumpLabel(ctx, true)) in r.value.lines
    ensures r.Ok? && B.BlockJumps(ss, false) ==> CanJump(ctx, false) && B.Goto(JumpLabel(ctx, false)) in r.value.lines
    decreases ss, 2
  {
    var cur := vt;
    var lines: seq<string> := [];
    var i := 0;
    while i < |ss|
      invariant 0 <= i <= |ss|
      invariant StmtStep(st, old(st.tempCounter), old(st.labelCounter))
      invariant BlockLowered(ss[..i], vt, cur, ctx, lines)
    {
      var out :- EmitStmt(st, ss[i], cur, ctx);
      BlockLoweredSnoc(ss, i, vt, cur, ctx, lines, out);
      cur := out.varTypes;
      lines := lines + out.lines;
      i := i + 1;
    }
    assert ss[..i] == ss;
    r := Ok(Out(lines, cur));
  }

  /** _emit_stmt: one statement, dispatched on its kind. */
  method EmitStmt(st: FastState, s: Stmt, vt: map<string, string>, ctx: LoopCtx) returns (r: Result<Out, string>)
    requires st.Valid()
    modifies st
    ensures StmtStep(st, old(st.tempCounter), old(st.labelCounter))
    ensures r.Ok? ==> Evolves(vt, r.value.varTypes, StmtNames(s))
    ensures r.Ok? && B.StmtJumps(s, true) ==> CanJump(ctx, true) && B.Goto(JumpLabel(ctx, true)) in r.value.lines
    ensures r.Ok? && B.StmtJumps(s, false) ==> CanJump(ctx, false) && B.Goto(JumpLabel(ctx, false)) in r.value.lines
    ensures s.Break? ==> r == (if CanJump(ctx, true) then Ok(Out([B.Goto(JumpLabel(ctx, true))], vt)) else Err("break outside of loop"))
    ensures s.Continue? ==>
      r == (if CanJump(ctx, false) then Ok(Out([B.Goto(JumpLabel(ctx, false))], vt)) else Err("continue outside of loop"))
    ensures s.AttrAssign? ==> r == Err("Unsupported statement: AttrAssign")
    decreases s, 1
  {
    match s
    case Assign(_, _) =>
      r := EmitAssign(st, s, vt);
    case AttrAssign(_, _, _) =>
      r := Err("Unsupported statement: AttrAssign");
    case MethodCallStmt(_, _, _) =>
      r := EmitMethodCallStmt(st, s, vt);
    case Print(_) =>
      r := EmitPrint(st, s, vt);
    case If(_, _, _) =>
      r := EmitIf(st, s, vt, ctx);
    case While(_, _) =>
      r := EmitWhile(st, s, vt);
    case ForRange(_, _, _, _, _, _) =>
      r := EmitFor(st, s, vt);
    case TryExcept(_, _, _) =>
      r := EmitTry(st, s, vt, ctx);
    case _ =>
      r := EmitSimpleStmt(st, s, vt, ctx);
  }

  /** The statements lowered without lowering a block: `raise`, `return`, `break` and `continue`. */
  method EmitSimpleStmt(st: FastState, s: Stmt, vt: map<string, string>, ctx: LoopCtx) returns (r: Result<Out, string>)
    requires st.Valid() && (s.Raise? || s.Return? || s.Break? || s.Continue?)
    modifies st
    ensures StmtStep(st, old(st.tempCounter), old(st.labelCounter))
    ensures r.Ok? ==> r.value.varTypes == vt
    ensures s.Break? ==> r == (if CanJump(ctx, true) then Ok(Out([B.Goto(JumpLabel(ctx, true))], vt)) else Err("break outside of loop"))
    ensures s.Continue? ==>
      r == (if CanJump(ctx, false) then Ok(Out([B.Goto(JumpLabel(ctx, false))], vt)) else Err("continue outside of loop"))
    ensures s.Return? ==> (r.Ok? <==> Lowerable(s.expr, vt))
  {
    match s
    case Raise(name, msg, lineno) =>
      var text := if msg.Some? then msg.value else "";
      r := Ok(Out(["    rt_raise(" + B.ExcEnum(name) + ", \"" + B.RaiseEscapeAsWritten(text) + "\", \"<source>\", " +
                   Decimal.IntToString(lineno) + ");"], vt));
    case Return(e) =>
      var x :- EmitExpr(st, e, vt);
      r := Ok(Out(x.lines + ["    *pcc_ret = " + x.code + ";", "    return;"], vt));
    case Break(_) =>
      if !CanJump(ctx, true) {
        return Err("break outside of loop");
      }
      r := Ok(Out([B.Goto(JumpLabel(ctx, true))], vt));
    case Continue(_) =>
      if !CanJump(ctx, false) {
        return Err("continue outside of loop");
      }
      r := Ok(Out([B.Goto(JumpLabel(ctx, false))], vt));
  }

  /** The lines an assignment appends after lowering its value to code: a name already recorded is
      assigned in place with no declaration (a big integer through `rt_int_assign`); a new name is
      declared with the type DeclaredType picks, a big integer in two lines. */
  function AssignLines(x: string, vt: map<string, string>, e: Expr, code: string): (r: seq<string>)
    ensures x in vt && vt[x] == "rt_int" ==> r == ["    rt_int_assign(&" + x + ", " + code + ");"]
    ensures x in vt && vt[x] != "rt_int" ==> r == ["    " + x + " = " + code + ";"]
    ensures x !in vt ==> |r| >= 1 && B.StartsWith("    " + DeclaredType(e, vt) + " " + x, r[0]) &&
                         (|r| == 2 <==> DeclaredType(e, vt) == "rt_int")
  {
    if x in vt then
      if vt[x] == "rt_int" then ["    rt_int_assign(&" + x + ", " + code + ");"] else ["    " + x + " = " + code + ";"]
    else
      var t := DeclaredType(e, vt);
      B.StartsWithConcat("    " + t + " " + x, "; rt_int_init(&" + x + ");");
      B.StartsWithConcat("    " + t + " " + x, " = " + code + ";");
      if t == "rt_int" then ["    " + t + " " + x + "; rt_int_init(&" + x + ");", "    rt_int_assign(&" + x + ", " + code + ");"]
      else ["    " + t + " " + x + " = " + code + ";"]
  }

  /** An assignment: the value lowered, then AssignLines; the first assignment records the declared
      type, a later one leaves the map as it is. */
  method EmitAssign(st: FastState, s: Stmt, vt: map<string, string>) returns (r: Result<Out, string>)
    requires st.Valid() && s.Assign?
    modifies st
    ensures StmtStep(st, old(st.tempCounter), old(st.labelCounter))
    ensures r.Ok? <==> Lowerable(s.expr, vt)
    ensures r.Ok? ==> r.value.varTypes == (if s.name in vt then vt else vt[s.name := DeclaredType(s.expr, vt)])
    ensures r.Ok? ==> exists pre: seq<string>, code: string :: r.value.lines == pre + AssignLines(s.name, vt, s.expr, code)
    decreases s, 0
  {
    var x :- EmitExpr(st, s.expr, vt);
    var vt' := if s.name in vt then vt else vt[s.name := DeclaredType(s.expr, vt)];
    r := Ok(Out(x.lines + AssignLines(s.name, vt, s.expr, x.code), vt'));
  }

  /** The runtime call a `print` uses: rt_print_str for a string literal, a string variable or any
      expression producing a string; rt_print_int for a big-integer variable or an out-of-range
      literal; printf of a `long long` otherwise. */
  function PrintCall(e: Expr, vt: map<string, string>): (r: string)
    ensures r == "rt_print_str(" <==> ExprProducesString(e, vt)
    ensures r == "rt_print_int(" <==> !ExprProducesString(e, vt) && ((e.Var? && e.name in vt && vt[e.name] == "rt_int") || NeedsHpf(e))
  {
    if e.StrConst? then "rt_print_str("
    else if e.Var? && e.name in vt && vt[e.name] == "rt_str" then "rt_print_str("
    else if ExprProducesString(e, vt) then "rt_print_str("
    else if e.Var? && e.name in vt && vt[e.name] == "rt_int" then "rt_print_int("
    else if NeedsHpf(e) then "rt_print_int("
    else "printf(\"%lld\\n\", "
  }

  method EmitPrint(st: FastState, s: Stmt, vt: map<string, string>) returns (r: Result<Out, string>)
    requires st.Valid() && s.Print?
    modifies st
    ensures StmtStep(st, old(st.tempCounter), old(st.labelCounter))
    ensures r.Ok? <==> Lowerable(s.expr, vt)
    ensures r.Ok? ==> r.value.varTypes == vt && |r.value.lines| >= 1 &&
                      B.StartsWith("    " + PrintCall(s.expr, vt), r.value.lines[|r.value.lines| - 1])
    decreases s, 0
  {
    var x :- EmitExpr(st, s.expr, vt);
    var head := "    " + PrintCall(s.expr, vt);
    B.StartsWithConcat(head, x.code + ");");
    r := Ok(Out(x.lines + [head + (x.code + ");")], vt));
  }

  /** A method-call statement: `append` on a list variable takes exactly one argument and becomes
      rt_list_si_append; any other becomes a call of the method's C function on the lowered
      arguments. */
  method EmitMethodCallStmt(st: FastState, s: Stmt, vt: map<string, string>) returns (r: Result<Out, string>)
    requires st.Valid() && s.MethodCallStmt?
    modifies st
    ensures StmtStep(st, old(st.tempCounter), old(st.labelCounter))
    ensures r.Ok? ==> r.value.varTypes == vt && |r.value.lines| >= 1
    ensures CTypeForVar(s.obj, vt) == "rt_list_si" && s.methodName == "append" ==>
      (|s.args| != 1 ==> r == Err("list.append expects 1 argument")) &&
      (r.Ok? <==> |s.args| == 1 && Lowerable(s.args[0], vt)) &&
      (r.Ok? ==> B.StartsWith("    rt_list_si_append(&" + s.obj + ", ", r.value.lines[|r.value.lines| - 1]))
    ensures !(CTypeForVar(s.obj, vt) == "rt_list_si" && s.methodName == "append") ==>
      (r.Ok? <==> forall a | a in s.args :: Lowerable(a, vt)) &&
      (r.Ok? ==> B.StartsWith("    pcc_method_" + s.obj + "_" + s.methodName + "(", r.value.lines[|r.value.lines| - 1]))
    decreases s, 0
  {
    if CTypeForVar(s.obj, vt) == "rt_list_si" && s.methodName == "append" {
      if |s.args| != 1 {
        return Err("list.append expects 1 argument");
      }
      var x :- EmitExpr(st, s.args[0], vt);
      var head := "    rt_list_si_append(&" + s.obj + ", ";
      B.StartsWithConcat(head, x.code + ");");
      return Ok(Out(x.lines + [head + (x.code + ");")], vt));
    }
    var lowered :- EmitArgs(st, s.args, vt);
    var head := "    pcc_method_" + s.obj + "_" + s.methodName + "(";
    B.StartsWithConcat(head, C.Join(lowered.0, ", ") + ");");
    r := Ok(Out(lowered.1 + [head + (C.Join(lowered.0, ", ") + ");")], vt));
  }

  /** `if`: the test, then the body, then (when there is one) the else branch, each lowered in the
      enclosing loop context, the else branch seeing the types the body recorded. */
  method EmitIf(st: FastState, s: Stmt, vt: map<string, string>, ctx: LoopCtx) returns (r: Result<Out, string>)
    requires st.Valid() && s.If?
    modifies st
    ensures StmtStep(st, old(st.tempCounter), old(st.labelCounter))
    ensures r.Ok? ==> Evolves(vt, r.value.varTypes, StmtNames(s))
    ensures r.Ok? && B.StmtJumps(s, true) ==> CanJump(ctx, true) && B.Goto(JumpLabel(ctx, true)) in r.value.lines
    ensures r.Ok? && B.StmtJumps(s, false) ==> CanJump(ctx, false) && B.Goto(JumpLabel(ctx, false)) in r.value.lines
    ensures r.Ok? ==> |r.value.lines| >= 2 && r.value.lines[|r.value.lines| - 1] == "    }" &&
                      (s.orelse != [] ==> "    } else {" in r.value.lines)
    decreases s, 0
  {
    var test :- EmitExpr(st, s.test, vt);
    var body :- EmitBlock(st, s.body, vt, ctx);
    var lines := test.lines + ["    if (" + test.code + ") {"] + body.lines;
    var cur := body.varTypes;
    if s.orelse != [] {
      var els :- EmitBlock(st, s.orelse, cur, ctx);
      EvolvesTrans(vt, cur, els.varTypes, BlockNames(s.body), BlockNames(s.orelse));
      lines := lines + ["    } else {"] + els.lines;
      cur := els.varTypes;
    } else {
      EvolvesWiden(vt, cur, BlockNames(s.body), StmtNames(s));
    }
    assert B.StmtJumps(s, true) == (B.BlockJumps(s.body, true) || B.BlockJumps(s.orelse, true));
    assert B.StmtJumps(s, false) == (B.BlockJumps(s.body, false) || B.BlockJumps(s.orelse, false));
    r := Ok(Out(lines + ["    }"], cur));
  }

  /** `while`: both labels taken first, the test at the start label, and the body lowered with
      `break` jumping to the end label and `continue` to the start label. */
  method EmitWhile(st: FastState, s: Stmt, vt: map<string, string>) returns (r: Result<Out, string>)
    requires st.Valid() && s.While?
    modifies st
    ensures StmtStep(st, old(st.tempCounter), old(st.labelCounter))
    ensures r.Ok? ==> Evolves(vt, r.value.varTypes, StmtNames(s))
    ensures r.Ok? ==>
      var sl := B.LabelName("while_start", old(st.labelCounter) + 1);
      var el := B.LabelName("while_end", old(st.labelCounter) + 2);
      var lines := r.value.lines;
      |lines| >= 4 && lines[0] == LabelLine(sl) && lines[|lines| - 2..] == [B.Goto(sl), LabelLine(el)] &&
      (B.BlockJumps(s.body, true) ==> B.Goto(el) in lines)
    decreases s, 0
  {
    var sl := st.NextLabel("while_start");
    var el := st.NextLabel("while_end");
    var test :- EmitExpr(st, s.test, vt);
    var body :- EmitBlock(st, s.body, vt, LoopCtx(true, Some(el), Some(sl)));
    var lines := [LabelLine(sl)] + test.lines + ["    if (!(" + test.code + ")) goto " + el + ";"] + body.lines;
    r := Ok(Out(lines + [B.Goto(sl), LabelLine(el)], body.varTypes));
    assert r.value.lines[|r.value.lines| - 2..] == [B.Goto(sl), LabelLine(el)];
  }

  /** The exit test at the start label of a range loop: past stop in the direction of step, the C
      text of LoopExits. */
  function ForExitLines(v: string, stop: string, step: string, fe: string): (r: seq<string>)
    ensures |r| == 5
  {
    ["    if (" + step + " > 0) {",
     "        if (" + v + " >= " + stop + ") goto " + fe + ";",
     "    } else {",
     "        if (" + v + " <= " + stop + ") goto " + fe + ";",
     "    }"]
  }

  /** The end of a range loop: the continue label adds step, then back to the start label. */
  function ForTail(v: string, step: string, fs: string, fc: string, fe: string): (r: seq<string>)
    ensures |r| == 4
  {
    [LabelLine(fc), "    " + v + " += " + step + ";", B.Goto(fs), LabelLine(fe)]
  }

  /** A lowered range loop: the start label and exit test at k, the continue label, the step and
      the jump back at the end, with the same stop and step codes throughout. */
  predicate ForShape(lines: seq<string>, v: string, k: nat, stopc: string, stepc: string, fs: string, fc: string, fe: string)
  {
    k + 10 <= |lines| && lines[k..k + 6] == [LabelLine(fs)] + ForExitLines(v, stopc, stepc, fe) &&
    lines[|lines| - 4..] == ForTail(v, stepc, fs, fc, fe)
  }

  /** `for v in range(start, stop, step)`: the variable declared `long long` from start, stop and
      step lowered once before the loop, then the labels; the body is lowered with `break` jumping
      to the end label and `continue` to the continue label. */
  method EmitFor(st: FastState, s: Stmt, vt: map<string, string>) returns (r: Result<Out, string>)
    requires st.Valid() && s.ForRange?
    modifies st
    ensures StmtStep(st, old(st.tempCounter), old(st.labelCounter))
    ensures r.Ok? ==> Evolves(vt, r.value.varTypes, StmtNames(s)) && s.loopVar in r.value.varTypes &&
                      r.value.varTypes[s.loopVar] == "long long"
    ensures r.Ok? ==>
      var fs := B.LabelName("for_start", old(st.labelCounter) + 1);
      var fe := B.LabelName("for_end", old(st.labelCounter) + 2);
      var fc := B.LabelName("for_continue", old(st.labelCounter) + 3);
      (exists k: nat, stopc: string, stepc: string :: ForShape(r.value.lines, s.loopVar, k, stopc, stepc, fs, fc, fe)) &&
      (B.BlockJumps(s.body, true) ==> B.Goto(fe) in r.value.lines) &&
      (B.BlockJumps(s.body, false) ==> B.Goto(fc) in r.value.lines)
    decreases s, 0
  {
    var bounds :- EmitForBounds(st, s, vt);
    var (pre, vt1, stopc, stepc) := bounds;
    var v := s.loopVar;
    var fs := st.NextLabel("for_start");
    var fe := st.NextLabel("for_end");
    var fc := st.NextLabel("for_continue");
    var body :- EmitBlock(st, s.body, vt1, LoopCtx(true, Some(fe), Some(fc)));
    var lines := ForLines(pre, v, stopc, stepc, fs, fc, fe, body.lines);
    assert ForShape(lines, v, |pre|, stopc, stepc, fs, fc, fe);
    ForTypes(s, vt, vt1, body.varTypes);
    r := Ok(Out(lines, body.varTypes));
  }

  /** The loop variable is recorded `long long` before the body, and the body keeps it so. */
  lemma ForTypes(s: Stmt, vt: map<string, string>, vt1: map<string, string>, vt2: map<string, string>)
    requires s.ForRange? && vt1 == vt[s.loopVar := "long long"] && Evolves(vt1, vt2, BlockNames(s.body))
    ensures Evolves(vt, vt2, StmtNames(s)) && s.loopVar in vt2 && vt2[s.loopVar] == "long long"
  {
    assert Evolves(vt, vt1, {s.loopVar});
    EvolvesTrans(vt, vt1, vt2, {s.loopVar}, BlockNames(s.body));
  }

  /** The lines of a range loop around its lowered body. */
  function ForLines(pre: seq<string>, v: string, stopc: string, stepc: string, fs: string, fc: string, fe: string,
                    body: seq<string>): (r: seq<string>)
    ensures ForShape(r, v, |pre|, stopc, stepc, fs, fc, fe)
    ensures forall x | x in body :: x in r
  {
    var r := pre + ([LabelLine(fs)] + ForExitLines(v, stopc, stepc, fe)) + body + ForTail(v, stepc, fs, fc, fe);
    assert r[|pre|..|pre| + 6] == [LabelLine(fs)] + ForExitLines(v, stopc, stepc, fe);
    assert r[|r| - 4..] == ForTail(v, stepc, fs, fc, fe);
    r
  }

  /** The start, stop and step of a range loop, lowered in that order before any label is taken;
      the loop variable is recorded as `long long` once start is lowered, so stop and step see it. */
  method EmitForBounds(st: FastState, s: Stmt, vt: map<string, string>)
    returns (r: Result<(seq<string>, map<string, string>, string, string), string>)
    requires st.Valid() && s.ForRange?
    modifies st
    ensures ExprStep(st, old(st.tempCounter), old(st.labelCounter), old(st.tempTypes))
    ensures r.Ok? <==> Lowerable(s.start, vt) && Lowerable(s.stop, vt[s.loopVar := "long long"]) &&
                       Lowerable(s.step, vt[s.loopVar := "long long"])
    ensures r.Ok? ==> r.value.1 == vt[s.loopVar := "long long"]
    ensures r.Ok? && s.start.IntConst? && InInt64(s.start.ival) ==>
      "    long long " + s.loopVar + " = " + LiteralAsWritten(s.start.ival) + ";" in r.value.0
    decreases s, 0
  {
    var start :- EmitExpr(st, s.start, vt);
    var v := s.loopVar;
    var vt1 := vt[v := "long long"];
    var stop :- EmitExpr(st, s.stop, vt1);
    var step := EmitExpr(st, s.step, vt1);
    if step.Err? {
      return Err(step.error);
    }
    r := Ok((start.lines + ["    long long " + v + " = " + start.code + ";"] + stop.lines + step.value.lines, vt1, stop.code, step.value.code));
  }

  /** `try`/`except`: a context temporary pushed with `rt_try_push` into a flag; the body runs on
      a zero flag and pops the context; the handler runs after a raise, clearing the exception
      and popping first, and a named handler that does not match pops and re-raises. */
  method EmitTry(st: FastState, s: Stmt, vt: map<string, string>, ctx: LoopCtx) returns (r: Result<Out, string>)
    requires st.Valid() && s.TryExcept?
    modifies st
    ensures StmtStep(st, old(st.tempCounter), old(st.labelCounter))
    ensures r.Ok? ==> Evolves(vt, r.value.varTypes, StmtNames(s))
    ensures r.Ok? && B.StmtJumps(s, true) ==> CanJump(ctx, true) && B.Goto(JumpLabel(ctx, true)) in r.value.lines
    ensures r.Ok? && B.StmtJumps(s, false) ==> CanJump(ctx, false) && B.Goto(JumpLabel(ctx, false)) in r.value.lines
    ensures r.Ok? ==>
      var c := B.TempName(old(st.tempCounter) + 1);
      var f := B.TempName(old(st.tempCounter) + 2);
      var lines := r.value.lines;
      c != f && |lines| >= 7 && lines[..3] == ["    rt_try_ctx " + c + ";", "    int " + f + " = rt_try_push(&" + c + ");", "    if (" + f + " == 0) {"] &&
      lines[|lines| - 1] == "    }" && "        rt_try_pop(&" + c + ");" in lines &&
      (s.excName.None? ==> "        rt_exc_clear();" in lines) &&
      (s.excName.Some? ==> "        if (rt_exc_is(" + B.ExcEnum(s.excName) + ")) {" in lines && "            rt_reraise();" in lines)
    decreases s, 0
  {
    var c := st.NextTemp("rt_try_ctx");
    var f := st.NextTemp("int");
    B.TempNameInjective(st.tempCounter, st.tempCounter - 1);
    var body :- EmitBlock(st, s.body, vt, ctx);
    var handler :- EmitBlock(st, s.handler, body.varTypes, ctx);
    TryEffects(s, vt, body.varTypes, handler.varTypes, ctx, body.lines, handler.lines);
    var lines := TryLines(c, f, s.excName, body.lines, handler.lines);
    r := Ok(Out(lines, handler.varTypes));
  }

  /** The type map after a `try` evolves by the names of its body and handler, and a jump in
      either reaches its label. */
  lemma TryEffects(s: Stmt, vt: map<string, string>, vt1: map<string, string>, vt2: map<string, string>, ctx: LoopCtx,
                   body: seq<string>, handler: seq<string>)
    requires s.TryExcept? && Evolves(vt, vt1, BlockNames(s.body)) && Evolves(vt1, vt2, BlockNames(s.handler))
    requires B.BlockJumps(s.body, true) ==> JumpReached(ctx, true, body)
    requires B.BlockJumps(s.body, false) ==> JumpReached(ctx, false, body)
    requires B.BlockJumps(s.handler, true) ==> JumpReached(ctx, true, handler)
    requires B.BlockJumps(s.handler, false) ==> JumpReached(ctx, false, handler)
    ensures Evolves(vt, vt2, StmtNames(s))
    ensures B.StmtJumps(s, true) ==> (B.BlockJumps(s.body, true) && JumpReached(ctx, true, body)) ||
                                     (B.BlockJumps(s.handler, true) && JumpReached(ctx, true, handler))
    ensures B.StmtJumps(s, false) ==> (B.BlockJumps(s.body, false) && JumpReached(ctx, false, body)) ||
                                      (B.BlockJumps(s.handler, false) && JumpReached(ctx, false, handler))
  {
    EvolvesTrans(vt, vt1, vt2, BlockNames(s.body), BlockNames(s.handler));
  }

  /** The lines of a `try` around its lowered body and handler, with context temporary c and flag
      temporary f. */
  function TryLines(c: string, f: string, excName: Option<string>, body: seq<string>, handler: seq<string>): (lines: seq<string>)
    ensures |lines| >= 7
    ensures lines[..3] == ["    rt_try_ctx " + c + ";", "    int " + f + " = rt_try_push(&" + c + ");", "    if (" + f + " == 0) {"]
    ensures lines[|lines| - 1] == "    }" && "        rt_try_pop(&" + c + ");" in lines
    ensures excName.None? ==> "        rt_exc_clear();" in lines
    ensures excName.Some? ==> "        if (rt_exc_is(" + B.ExcEnum(excName) + ")) {" in lines && "            rt_reraise();" in lines
    ensures forall x | x in body || x in handler :: x in lines
  {
    var open := ["    rt_try_ctx " + c + ";", "    int " + f + " = rt_try_push(&" + c + ");", "    if (" + f + " == 0) {"];
    var pop := "        rt_try_pop(&" + c + ");";
    var catchLines :=
      if excName.None? then ["        rt_exc_clear();", pop] + handler
      else ["        if (rt_exc_is(" + B.ExcEnum(excName) + ")) {", "            rt_exc_clear();", "            rt_try_pop(&" + c + ");"] +
           handler + ["        } else {", "            rt_try_pop(&" + c + ");", "            rt_reraise();", "        }"];
    var lines := open + body + [pop, "    } else {"] + catchLines + ["    }"];
    assert lines[..3] == open;
    assert lines[|open| + |body|] == pop;
    assert excName.None? ==> lines[|open| + |body| + 2] == "        rt_exc_clear();";
    assert excName.Some? ==> lines[|open| + |body| + 2] == "        if (rt_exc_is(" + B.ExcEnum(excName) + ")) {";
    assert excName.Some? ==> lines[|open| + |body| + 2 + 3 + |handler| + 2] == "            rt_reraise();";
    lines
  }
}
