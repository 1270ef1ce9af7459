/** The all-bigint C back end (pcc/backend/codegen.py).

    Every int is an `rt_int` bigint and every str an `rt_str`.  Lowering threads a state holding a
    temporary counter, a label counter and the type recorded for each temporary; a variable-type
    map and a set of declared names, which the source updates in place, are passed in and handed
    back.  The C output is a sequence of opaque lines; what is proved about it is structural: the
    names are fresh, print and `+` dispatch on the string-ness the types give, `break`/`continue`
    jump to the labels of the innermost loop, and nested bodies do not leak declarations. */
module BackendCodegen {
  import opened Wrappers
  import opened IR
  import Decimal
  import C = CodegenC
  import CInt

  // ---------------------------------------------------------------------------------------------
  // Temporary and label names

  /** `pcc_tmp_N`. */
  function TempName(n: nat): string
  {
    "pcc_tmp_" + Decimal.NatToString(n)
  }

  /** `prefix_N`. */
  function LabelName(prefix: string, n: nat): string
  {
    prefix + "_" + Decimal.NatToString(n)
  }

  /** Distinct counter values name distinct temporaries. */
  lemma TempNameInjective(m: nat, n: nat)
    ensures TempName(m) == TempName(n) <==> m == n
  {
    if TempName(m) == TempName(n) {
      assert Decimal.NatToString(m) == TempName(m)[8..];
      assert Decimal.NatToString(n) == TempName(n)[8..];
      Decimal.NatToStringInjective(m, n);
    }
  }

  /** An underscore of `p + "_" + d`, where d has none, lies at or before the joining one. */
  lemma LastUnderscore(p: string, d: string, i: int)
    requires C.NoUnderscore(d)
    requires 0 <= i < |p + "_" + d| && (p + "_" + d)[i] == '_'
    ensures i <= |p|
  {
  }

  /** One counter shared by every prefix: two labels drawn at different counter values differ,
      whatever their prefixes (which may themselves hold underscores, as `while_start` does). */
  lemma LabelNameInjective(p1: string, n1: nat, p2: string, n2: nat)
    requires LabelName(p1, n1) == LabelName(p2, n2)
    ensures p1 == p2 && n1 == n2
  {
    var d1 := Decimal.NatToString(n1);
    var d2 := Decimal.NatToString(n2);
    C.DigitsNoUnderscore(n1);
    C.DigitsNoUnderscore(n2);
    var s := p1 + "_" + d1;
    assert s == p2 + "_" + d2;
    assert s[|p1|] == '_';
    LastUnderscore(p2, d2, |p1|);
    assert s[|p2|] == '_';
    LastUnderscore(p1, d1, |p2|);
    assert p1 == s[..|p1|] && p2 == s[..|p2|];
    assert d1 == s[|p1| + 1..] && d2 == s[|p2| + 1..];
    Decimal.NatToStringInjective(n1, n2);
  }

  // ---------------------------------------------------------------------------------------------
  // The lowering state

  /** _CodegenState: the temporary and label counters and the type of each temporary. */
  class CodegenState {
    var tempCounter: nat
    var labelCounter: nat
    var tempTypes: map<string, string>

    /** No temporary numbered above the counter has been recorded yet. */
    ghost predicate Valid()
      reads this
    {
      forall n: nat | n > tempCounter :: TempName(n) !in tempTypes
    }

    constructor()
      ensures tempCounter == 0 && labelCounter == 0 && tempTypes == map[] && Valid()
    {
      tempCounter := 0;
      labelCounter := 0;
      tempTypes := map[];
    }

    /** next_temp: the next number, recorded with its type; the name was never handed out before. */
    method NextTemp(typeHint: string) returns (name: string)
      requires Valid()
      modifies this
      ensures Valid()
      ensures tempCounter == old(tempCounter) + 1 && labelCounter == old(labelCounter)
      ensures name == TempName(tempCounter) && name !in old(tempTypes)
      ensures tempTypes == old(tempTypes)[name := typeHint]
    {
      tempCounter := tempCounter + 1;
      name := TempName(tempCounter);
      tempTypes := tempTypes[name := typeHint];
      forall n: nat | n > tempCounter
        ensures TempName(n) !in tempTypes
      {
        TempNameInjective(n, tempCounter);
      }
    }

    /** get_temp_type: the recorded type, `rt_int` for a name never recorded. */
    function GetTempType(t: string): (r: string)
      reads this
      ensures t in tempTypes ==> r == tempTypes[t]
      ensures t !in tempTypes ==> r == "rt_int"
    {
      if t in tempTypes then tempTypes[t] else "rt_int"
    }

    /** next_label: `prefix_N` from the one label counter. */
    method NextLabel(prefix: string) returns (name: string)
      modifies this
      ensures labelCounter == old(labelCounter) + 1 && name == LabelName(prefix, labelCounter)
      ensures tempCounter == old(tempCounter) && tempTypes == old(tempTypes)
    {
      labelCounter := labelCounter + 1;
      name := LabelName(prefix, labelCounter);
    }
  }

  // ---------------------------------------------------------------------------------------------
  // Types and string-ness

  predicate StartsWith(pre: string, s: string) { |pre| <= |s| && s[..|pre|] == pre }

  predicate IsStrVar(vt: map<string, string>, x: string) { x in vt && vt[x] == "rt_str" }

  predicate IsClassType(t: string) { |t| >= 10 && t[..10] == "pcc_class_" }

  predicate IsTempText(code: string) { |code| >= 8 && code[..8] == "pcc_tmp_" }

  /** An address-of expression is not a temporary's name. */
  lemma AmpNotTemp(t: string)
    ensures !IsTempText("&" + t)
  {
    assert ("&" + t)[0] == '&';
  }

  /** _expr_produces_string: a string literal, a name typed `rt_str`, or `+` of two such. */
  predicate ExprProducesString(e: Expr, vt: map<string, string>)
    decreases e
  {
    match e
    case StrConst(_) => true
    case Var(x) => IsStrVar(vt, x)
    case BinOp(op, l, r) => op == "+" && ExprProducesString(l, vt) && ExprProducesString(r, vt)
    case _ => false
  }

  /** The test a print statement makes: a string literal, a name typed `rt_str`, or a temporary
      recorded as `rt_str`. */
  predicate PrintsAsStr(e: Expr, code: string, vt: map<string, string>, tempTypes: map<string, string>)
  {
    e.StrConst? || (e.Var? && IsStrVar(vt, e.name)) ||
    (IsTempText(code) && code in tempTypes && tempTypes[code] == "rt_str")
  }

  /** A temporary numbered in (lo, hi]: one handed out between two counter readings. */
  ghost predicate FreshTemp(k: string, lo: nat, hi: nat)
  {
    exists n: nat :: lo < n <= hi && k == TempName(n)
  }

  /** vt2 is vt1 changed only at the names given and at temporaries handed out in (lo, hi]. */
  ghost predicate GrowsBy(vt1: map<string, string>, vt2: map<string, string>, names: set<string>, lo: nat, hi: nat)
  {
    (forall k | k in vt2 && k !in vt1 :: k in names || FreshTemp(k, lo, hi)) &&
    (forall k | k in vt1 :: k in vt2 && (vt2[k] == vt1[k] || k in names || FreshTemp(k, lo, hi)))
  }

  lemma FreshTempWiden(k: string, lo: nat, hi: nat, lo': nat, hi': nat)
    requires FreshTemp(k, lo, hi) && lo' <= lo && hi <= hi'
    ensures FreshTemp(k, lo', hi')
  {
    var n: nat :| lo < n <= hi && k == TempName(n);
    assert lo' < n <= hi';
  }

  lemma GrowsByTrans(vt1: map<string, string>, vt2: map<string, string>, vt3: map<string, string>,
                     n1: set<string>, n2: set<string>, a: nat, b: nat, c: nat)
    requires a <= b <= c && GrowsBy(vt1, vt2, n1, a, b) && GrowsBy(vt2, vt3, n2, b, c)
    ensures GrowsBy(vt1, vt3, n1 + n2, a, c)
  {
    forall k | FreshTemp(k, a, b)
      ensures FreshTemp(k, a, c)
    {
      FreshTempWiden(k, a, b, a, c);
    }
    forall k | FreshTemp(k, b, c)
      ensures FreshTemp(k, a, c)
    {
      FreshTempWiden(k, b, c, a, c);
    }
  }

  lemma GrowsByRefl(vt: map<string, string>, names: set<string>, lo: nat, hi: nat)
    ensures GrowsBy(vt, vt, names, lo, hi)
  {
  }

  lemma GrowsByWiden(vt1: map<string, string>, vt2: map<string, string>, names: set<string>, names': set<string>,
                     lo: nat, hi: nat, lo': nat, hi': nat)
    requires GrowsBy(vt1, vt2, names, lo, hi) && names <= names' && lo' <= lo && hi <= hi'
    ensures GrowsBy(vt1, vt2, names', lo', hi')
  {
    forall k | FreshTemp(k, lo, hi)
      ensures FreshTemp(k, lo', hi')
    {
      FreshTempWiden(k, lo, hi, lo', hi');
    }
  }

  // ---------------------------------------------------------------------------------------------
  // Expressions

  /** What an expression lowers to: the C text of its value, the variable types afterwards (a
      constructor call records its temporary), and the lines computing it. */
  datatype Lowered = Lowered(code: string, varTypes: map<string, string>, lines: seq<string>)

  const IntBinOps: set<string> := {"+", "-", "*", "//", "%"}

  /** The runtime routine of each integer operator (`**` has none here). */
  function IntRoutine(op: string): (r: Option<string>)
    ensures r.Some? <==> op in IntBinOps
  {
    if op == "+" then Some("rt_int_add")
    else if op == "-" then Some("rt_int_sub")
    else if op == "*" then Some("rt_int_mul")
    else if op == "//" then Some("rt_int_floordiv")
    else if op == "%" then Some("rt_int_mod")
    else None
  }

  /** The C condition over a comparison result held in t; an unknown operator reads as `==`. */
  function CmpCode(op: string, t: string): string
  {
    "(" + t + " " + (if op in CmpOps then op else "==") + " 0)"
  }

  /** Python's comparison operators on integers. */
  predicate CmpHolds(op: string, a: int, b: int)
  {
    if op == "==" then a == b else if op == "!=" then a != b else if op == "<" then a < b
    else if op == "<=" then a <= b else if op == ">" then a > b else a >= b
  }

  function Sign(x: int): int { if x < 0 then -1 else if x == 0 then 0 else 1 }

  /** Comparing the three-way result of `rt_int_cmp` against 0 with the same operator decides the
      comparison itself. */
  lemma CmpCodeDecides(op: string, a: int, b: int)
    requires op in CmpOps
    ensures CmpHolds(op, Sign(a - b), 0) <==> CmpHolds(op, a, b)
  {
  }

  /** The lines declaring an int temporary. */
  function DeclInt(t: string): string
  {
    "    rt_int " + t + "; rt_int_init(&" + t + ");"
  }

  /** How an int literal is loaded: `rt_int_set_si` with an `LL` literal inside the signed 64-bit
      range, `rt_int_from_dec` with its decimal text outside it. */
  function IntLoad(t: string, v: int): string
  {
    if CInt.InInt64(v) then "    rt_int_set_si(&" + t + ", " + Decimal.IntToString(v) + "LL);"
    else "    rt_int_from_dec(&" + t + ", \"" + Decimal.IntToString(v) + "\");"
  }

  /** The escape applied to string literals: backslash, quote, newline and tab (not carriage return). */
  function EscapeChar(c: char): string
  {
    if c == '\\' then "\\\\" else if c == '"' then "\\\"" else if c == '\n' then "\\n"
    else if c == '\t' then "\\t" else [c]
  }

  function Escape(s: string): string
    decreases s
  {
    if s == [] then "" else EscapeChar(s[0]) + Escape(s[1..])
  }

  /** A literal escaped here reads back as the original text and never ends early. */
  lemma {:induction false} EscapeRoundTrip(s: string)
    ensures C.Unescape(Escape(s)) == s && !C.ClosesEarly(Escape(s))
    decreases s
  {
    if s != [] {
      var c := s[0];
      var rest := Escape(s[1..]);
      var t := EscapeChar(c) + rest;
      EscapeRoundTrip(s[1..]);
      if |EscapeChar(c)| == 2 {
        assert t[0] == '\\' && t[1] == EscapeChar(c)[1] && t[2..] == rest;
      } else {
        assert t[0] == c && t[1..] == rest;
      }
    }
  }

  /** Without carriage returns this escape is the one the legacy generator uses. */
  lemma {:induction false} EscapeAgreesWithLegacy(s: string)
    requires forall i | 0 <= i < |s| :: s[i] != '\r'
    ensures Escape(s) == C.EscapeBody(s)
    decreases s
  {
    if s != [] {
      EscapeAgreesWithLegacy(s[1..]);
    }
  }

  /** A carriage return is copied raw here and escaped by the legacy generator. */
  lemma CarriageReturnDiffers()
    ensures Escape("\r") == "\r" && C.EscapeBody("\r") == "\\r"
  {
  }

  /** Which temporary or text an expression's code is: the last temporary handed out, except for
      names and attribute reads. */
  predicate NamesLastTemp(e: Expr, code: string, t: string)
  {
    match e
    case Var(_) => true
    case AttributeAccess(_, _) => true
    case CmpOp(op, _, _) => code == CmpCode(op, t)
    case StrConst(_) => code == t
    case ConstructorCall(_, _) => code == t
    case BinOp(_, _, _) => code == t || code == "&" + t
    case _ => code == "&" + t
  }

  /** An argument list after a leading argument: a comma before each further one, which is
      `", ".join` of all the arguments. */
  function ArgList(first: string, rest: seq<string>): (r: string)
    ensures r == C.Join([first] + rest, ", ")
  {
    assert ([first] + rest)[0] == first && ([first] + rest)[1..] == rest;
    if rest == [] then first else first + ", " + C.Join(rest, ", ")
  }

  /** The argument list as the source writes it: a comma after the leading argument even when
      nothing follows. */
  function ArgListAsWritten(first: string, rest: seq<string>): string
  {
    first + ", " + C.Join(rest, ", ")
  }

  /** The two agree except for a call or definition without arguments, where the source leaves a
      dangling comma (`pcc_fn_f(&t, )`, `static void pcc_fn_f(rt_int* out, )`), which C rejects. */
  lemma ArgListDangles(first: string, rest: seq<string>)
    ensures rest != [] ==> ArgListAsWritten(first, rest) == ArgList(first, rest)
    ensures rest == [] ==> ArgListAsWritten(first, rest) == first + ", " && ArgList(first, rest) == first
  {
  }

  /** The effect on the state common to every expression lowering. */
  ghost predicate ExprStep(st: CodegenState, c0: nat, l0: nat, e: Expr, vt: map<string, string>, r: Result<Lowered, string>)
    reads st
  {
    st.Valid() && c0 <= st.tempCounter && st.labelCounter == l0 &&
    (r.Ok? ==>
       GrowsBy(vt, r.value.varTypes, {}, c0, st.tempCounter) &&
       (PrintsAsStr(e, r.value.code, r.value.varTypes, st.tempTypes) <==> ExprProducesString(e, r.value.varTypes)) &&
       NamesLastTemp(e, r.value.code, TempName(st.tempCounter)) &&
       (!e.Var? && !e.AttributeAccess? ==> c0 < st.tempCounter))
  }

  /** _emit_expr. */
  method EmitExpr(st: CodegenState, e: Expr, vt: map<string, string>) returns (r: Result<Lowered, string>)
    requires st.Valid()
    modifies st
    ensures ExprStep(st, old(st.tempCounter), old(st.labelCounter), e, vt, r)
    ensures e.IntConst? ==>
      var t := TempName(old(st.tempCounter) + 1);
      r == Ok(Lowered("&" + t, vt, [DeclInt(t), IntLoad(t, e.ival)]))
    ensures e.StrConst? ==>
      var t := TempName(old(st.tempCounter) + 1);
      r == Ok(Lowered(t, vt, ["    rt_str " + t + " = rt_str_from_cstr(\"" + Escape(e.sval) + "\");"]))
    ensures e.Var? ==> r == Ok(Lowered(if IsStrVar(vt, e.name) then e.name else "&" + e.name, vt, []))
    ensures e.AttributeAccess? ==> (r.Ok? <==> e.obj in vt && IsClassType(vt[e.obj]))
    ensures e.AttributeAccess? && r.Ok? ==> r.value.code == "&" + e.obj + "->" + e.attr
    ensures e.BinOp? && r.Ok? && !ExprProducesString(e, r.value.varTypes) ==> e.op in IntBinOps
    ensures (e.BuiltinCall? || e.FloatConst? || e.ListConst? || e.DictConst? || e.Subscript?) ==> r.Err?
    decreases e, 2
  {
    match e
    case BinOp(_, _, _) =>
      r := EmitBinOp(st, e, vt);
    case CmpOp(_, _, _) =>
      r := EmitCmpOp(st, e, vt);
    case Call(_, _) =>
      r := EmitCall(st, e, vt);
    case MethodCall(_, _, _) =>
      r := EmitCall(st, e, vt);
    case BuiltinCall(_, _) =>
      // the builtin lowering calls the expression lowering without its signature argument
      r := Err("TypeError: _emit_expr() missing 1 required positional argument: 'fn_sigs'");
    case FloatConst(_) =>
      r := Err("Unsupported expression type: FloatConst");
    case ListConst(_) =>
      r := Err("Unsupported expression type: ListConst");
    case DictConst(_, _) =>
      r := Err("Unsupported expression type: DictConst");
    case Subscript(_, _) =>
      r := Err("Unsupported expression type: Subscript");
    case _ =>
      r := EmitAtom(st, e, vt);
  }

  /** The cases of _emit_expr that lower no subexpression: constants, names, attribute reads and
      constructor calls. */
  method EmitAtom(st: CodegenState, e: Expr, vt: map<string, string>) returns (r: Result<Lowered, string>)
    requires st.Valid()
    requires e.IntConst? || e.StrConst? || e.Var? || e.AttributeAccess? || e.ConstructorCall?
    modifies st
    ensures ExprStep(st, old(st.tempCounter), old(st.labelCounter), e, vt, r)
    ensures e.IntConst? ==>
      var t := TempName(old(st.tempCounter) + 1);
      r == Ok(Lowered("&" + t, vt, [DeclInt(t), IntLoad(t, e.ival)]))
    ensures e.StrConst? ==>
      var t := TempName(old(st.tempCounter) + 1);
      r == Ok(Lowered(t, vt, ["    rt_str " + t + " = rt_str_from_cstr(\"" + Escape(e.sval) + "\");"]))
    ensures e.Var? ==> r == Ok(Lowered(if IsStrVar(vt, e.name) then e.name else "&" + e.name, vt, []))
    ensures e.AttributeAccess? ==> (r.Ok? <==> e.obj in vt && IsClassType(vt[e.obj]))
    ensures e.AttributeAccess? && r.Ok? ==> r.value.code == "&" + e.obj + "->" + e.attr
  {
    match e
    case IntConst(v) =>
      var t := st.NextTemp("rt_int");
      AmpNotTemp(t);
      r := Ok(Lowered("&" + t, vt, [DeclInt(t), IntLoad(t, v)]));
    case StrConst(s) =>
      var t := st.NextTemp("rt_int");
      r := Ok(Lowered(t, vt, ["    rt_str " + t + " = rt_str_from_cstr(\"" + Escape(s) + "\");"]));
    case Var(x) =>
      AmpNotTemp(x);
      r := Ok(Lowered(if IsStrVar(vt, x) then x else "&" + x, vt, []));
    case AttributeAccess(obj, attr) =>
      if obj in vt && IsClassType(vt[obj]) {
        AmpNotTemp(obj + "->" + attr);
        assert "&" + obj + "->" + attr == "&" + (obj + "->" + attr);
        r := Ok(Lowered("&" + obj + "->" + attr, vt, []));
      } else {
        r := Err("Attribute access on non-object type: " + (if obj in vt then vt[obj] else "rt_int"));
      }
    case ConstructorCall(cls, _) =>
      var t := st.NextTemp("pcc_class_" + cls);
      assert ("pcc_class_" + cls)[0] == 'p';
      r := Ok(Lowered(t, vt[t := "pcc_class_" + cls], ["    pcc_class_" + cls + "* " + t + " = pcc_new_" + cls + "();"]));
  }

  /** The two operands of a binary operator or comparison, left then right. */
  method EmitOperands(st: CodegenState, e: Expr, vt: map<string, string>)
    returns (r: Result<(Lowered, Lowered), string>)
    requires st.Valid() && (e.BinOp? || e.CmpOp?)
    modifies st
    ensures st.Valid() && old(st.tempCounter) <= st.tempCounter && st.labelCounter == old(st.labelCounter)
    ensures r.Ok? ==> GrowsBy(vt, r.value.1.varTypes, {}, old(st.tempCounter), st.tempCounter)
    decreases e, 0
  {
    ghost var c0 := st.tempCounter;
    var left :- EmitExpr(st, e.left, vt);
    ghost var c1 := st.tempCounter;
    var right :- EmitExpr(st, e.right, left.varTypes);
    GrowsByTrans(vt, left.varTypes, right.varTypes, {}, {}, c0, c1, st.tempCounter);
    r := Ok((left, right));
  }

  /** A binary operator: string concatenation when both operands produce strings and the operator is
      `+`, an `rt_int` routine otherwise. */
  method EmitBinOp(st: CodegenState, e: Expr, vt: map<string, string>) returns (r: Result<Lowered, string>)
    requires st.Valid() && e.BinOp?
    modifies st
    ensures ExprStep(st, old(st.tempCounter), old(st.labelCounter), e, vt, r)
    ensures r.Ok? && !ExprProducesString(e, r.value.varTypes) ==> e.op in IntBinOps
    decreases e, 1
  {
    ghost var c0 := st.tempCounter;
    var operands :- EmitOperands(st, e, vt);
    var (left, right) := operands;
    var vt' := right.varTypes;
    ghost var c2 := st.tempCounter;
    var temp := st.NextTemp("rt_int");
    GrowsByWiden(vt, vt', {}, {}, c0, c2, c0, st.tempCounter);
    var lines := left.lines + right.lines;
    if ExprProducesString(e.left, vt') && ExprProducesString(e.right, vt') && e.op == "+" {
      var s := st.NextTemp("rt_str");
      GrowsByWiden(vt, vt', {}, {}, c0, c2, c0, st.tempCounter);
      assert IsTempText(s) && s in st.tempTypes && st.tempTypes[s] == "rt_str";
      r := Ok(Lowered(s, vt', lines + ["    rt_str " + s + " = rt_str_concat(" + left.code + ", " + right.code + ");"]));
    } else {
      var routine := IntRoutine(e.op);
      if routine.None? {
        return Err("Unsupported binary operator: " + e.op);
      }
      assert ("&" + temp)[0] == '&';
      r := Ok(Lowered("&" + temp, vt', lines + [DeclInt(temp),
        "    " + routine.value + "(&" + temp + ", " + left.code + ", " + right.code + ");"]));
    }
  }

  /** A comparison: `rt_int_cmp` into an int temporary, tested against 0. */
  method EmitCmpOp(st: CodegenState, e: Expr, vt: map<string, string>) returns (r: Result<Lowered, string>)
    requires st.Valid() && e.CmpOp?
    modifies st
    ensures ExprStep(st, old(st.tempCounter), old(st.labelCounter), e, vt, r)
    decreases e, 1
  {
    ghost var c0 := st.tempCounter;
    var operands :- EmitOperands(st, e, vt);
    var (left, right) := operands;
    ghost var c2 := st.tempCounter;
    var temp := st.NextTemp("rt_int");
    GrowsByWiden(vt, right.varTypes, {}, {}, c0, c2, c0, st.tempCounter);
    assert CmpCode(e.op, temp)[0] == '(';
    r := Ok(Lowered(CmpCode(e.op, temp), right.varTypes, left.lines + right.lines +
                    ["    int " + temp + " = rt_int_cmp(" + left.code + ", " + right.code + ");"]));
  }

  /** A function call (`pcc_fn_<f>`) or a method call used as a value (`pcc_method_<obj>_<m>`):
      the arguments first, then the result temporary passed as the out pointer. */
  method EmitCall(st: CodegenState, e: Expr, vt: map<string, string>) returns (r: Result<Lowered, string>)
    requires st.Valid() && (e.Call? || e.MethodCall?)
    modifies st
    ensures ExprStep(st, old(st.tempCounter), old(st.labelCounter), e, vt, r)
    decreases e, 1
  {
    ghost var c0 := st.tempCounter;
    var args := if e.Call? then e.args else e.args;
    var lowered :- EmitArgs(st, args, vt);
    var (codes, vt', lines) := lowered;
    ghost var c1 := st.tempCounter;
    var temp := st.NextTemp("rt_int");
    GrowsByWiden(vt, vt', {}, {}, c0, c1, c0, st.tempCounter);
    var call := if e.Call? then "    pcc_fn_" + e.func + "(" + ArgListAsWritten("&" + temp, codes) + ");"
                else "    pcc_method_" + e.obj + "_" + e.methodName + "(" + ArgListAsWritten(e.obj + ", &" + temp, codes) + ");";
    AmpNotTemp(temp);
    assert NamesLastTemp(e, "&" + temp, TempName(st.tempCounter));
    r := Ok(Lowered("&" + temp, vt', lines + [DeclInt(temp), call]));
  }

  /** The arguments of a call, left to right. */
  method EmitArgs(st: CodegenState, args: seq<Expr>, vt: map<string, string>)
    returns (r: Result<(seq<string>, map<string, string>, seq<string>), string>)
    requires st.Valid()
    modifies st
    ensures st.Valid() && old(st.tempCounter) <= st.tempCounter && st.labelCounter == old(st.labelCounter)
    ensures r.Ok? ==> |r.value.0| == |args| && GrowsBy(vt, r.value.1, {}, old(st.tempCounter), st.tempCounter)
    decreases args, 2
  {
    var codes: seq<string> := [];
    var cur := vt;
    var lines: seq<string> := [];
    var i := 0;
    while i < |args|
      invariant 0 <= i <= |args| && |codes| == i
      invariant st.Valid() && old(st.tempCounter) <= st.tempCounter && st.labelCounter == old(st.labelCounter)
      invariant GrowsBy(vt, cur, {}, old(st.tempCounter), st.tempCounter)
    {
      ghost var c := st.tempCounter;
      var a :- EmitExpr(st, args[i], cur);
      GrowsByTrans(vt, cur, a.varTypes, {}, {}, old(st.tempCounter), c, st.tempCounter);
      codes := codes + [a.code];
      cur := a.varTypes;
      lines := lines + a.lines;
      i := i + 1;
    }
    r := Ok((codes, cur, lines));
  }

  // ---------------------------------------------------------------------------------------------
  // Statements

  /** Whether a `break` (brk) or a `continue` (!brk) of ss belongs to the loop enclosing ss: one at
      top level or inside an if or try body, not inside a nested loop. */
  predicate BlockJumps(ss: seq<Stmt>, brk: bool)
    decreases ss, 1
  {
    exists i | 0 <= i < |ss| :: StmtJumps(ss[i], brk)
  }

  predicate StmtJumps(s: Stmt, brk: bool)
    decreases s, 0
  {
    match s
    case Break(_) => brk
    case Continue(_) => !brk
    case If(_, b, o) => BlockJumps(b, brk) || BlockJumps(o, brk)
    case TryExcept(b, _, h) => BlockJumps(b, brk) || BlockJumps(h, brk)
    case _ => false
  }

  function Goto(lbl: string): string { "    goto " + lbl + ";" }

  function LabelLine(lbl: string): string { "    " + lbl + ":" }

  /** The names a statement binds in the variable-type map: an assignment's target and a range
      loop's variable. */
  function Binds(s: Stmt): set<string>
  {
    match s
    case Assign(x, _) => {x}
    case ForRange(x, _, _, _, _, _) => {x}
    case _ => {}
  }

  function BindsSeq(ss: seq<Stmt>): set<string>
  {
    set i, x | 0 <= i < |ss| && x in Binds(ss[i]) :: x
  }

  /** The names a block declares in its own scope: its top-level assignment targets. */
  function Declares(ss: seq<Stmt>): set<string>
  {
    set i | 0 <= i < |ss| && ss[i].Assign? :: ss[i].name
  }

  /** The C type an assignment records for its target. */
  function AssignedType(e: Expr): string
  {
    if e.StrConst? then "rt_str" else if e.ConstructorCall? then "pcc_class_" + e.className else "rt_int"
  }

  /** The six exception names with a runtime kind of their own; any other name (or none) raises
      the base kind. */
  const KnownExceptions: set<string> :=
    {"Exception", "ZeroDivisionError", "IndexError", "KeyError", "TypeError", "ValueError"}

  function ExcEnum(name: Option<string>): (r: string)
    ensures name.Some? && name.value in KnownExceptions ==> r == "RT_EXC_" + name.value
    ensures !(name.Some? && name.value in KnownExceptions) ==> r == "RT_EXC_Exception"
  {
    if name.Some? && name.value in KnownExceptions then "RT_EXC_" + name.value else "RT_EXC_Exception"
  }

  /** A raise message as the source escapes it: a backslash doubled, and a quote replaced by two
      backslashes and the quote. */
  function RaiseEscapeCharAsWritten(c: char): string
  {
    if c == '\\' then "\\\\" else if c == '"' then "\\\\\"" else [c]
  }

  function RaiseEscapeAsWritten(s: string): string
    decreases s
  {
    if s == [] then "" else RaiseEscapeCharAsWritten(s[0]) + RaiseEscapeAsWritten(s[1..])
  }

  /** As written, a quote in a raise message becomes an escaped backslash followed by a bare quote,
      which ends the C literal early. */
  lemma RaiseQuoteClosesEarly()
    ensures RaiseEscapeAsWritten("\"") == "\\\\\"" && C.ClosesEarly(RaiseEscapeAsWritten("\""))
  {
    assert RaiseEscapeAsWritten("\"") == "\\\\\"";
    assert "\\\\\""[2..] == "\"";
  }

  /** The raise message escape as intended: a quote becomes backslash-quote. */
  function RaiseEscapeChar(c: char): string
  {
    if c == '\\' then "\\\\" else if c == '"' then "\\\"" else [c]
  }

  function RaiseEscape(s: string): string
    decreases s
  {
    if s == [] then "" else RaiseEscapeChar(s[0]) + RaiseEscape(s[1..])
  }

  /** The intended escape reads back as the message and keeps the literal closed. */
  lemma {:induction false} RaiseEscapeRoundTrip(s: string)
    ensures C.Unescape(RaiseEscape(s)) == s && !C.ClosesEarly(RaiseEscape(s))
    decreases s
  {
    if s != [] {
      var c := s[0];
      var rest := RaiseEscape(s[1..]);
      var t := RaiseEscapeChar(c) + rest;
      RaiseEscapeRoundTrip(s[1..]);
      if |RaiseEscapeChar(c)| == 2 {
        assert t[0] == '\\' && t[1] == RaiseEscapeChar(c)[1] && t[2..] == rest;
      } else {
        assert t[0] == c && t[1..] == rest;
      }
    }
  }

  /** What a block leaves behind: the variable types, the declared names, and its lines. */
  datatype BlockOut = BlockOut(varTypes: map<string, string>, declared: set<string>, lines: seq<string>)

  /** The effect on the state and on the scope common to every statement lowering. */
  ghost predicate StmtStep(st: CodegenState, c0: nat, l0: nat, vt: map<string, string>, names: set<string>,
                           r: Result<BlockOut, string>)
    reads st
  {
    st.Valid() && c0 <= st.tempCounter && l0 <= st.labelCounter &&
    (r.Ok? ==> GrowsBy(vt, r.value.varTypes, names, c0, st.tempCounter))
  }

  /** _emit_block: each statement in turn, threading the variable types and the declared names. */
  method EmitBlock(st: CodegenState, ss: seq<Stmt>, vt: map<string, string>, inLoop: bool, brkLabel: string,
                   contLabel: string, declared: set<string>)
    returns (r: Result<BlockOut, string>)
    requires st.Valid()
    modifies st
    ensures StmtStep(st, old(st.tempCounter), old(st.labelCounter), vt, BindsSeq(ss), r)
    ensures BlockJumps(ss, true) && !(inLoop && brkLabel != "") ==> r.Err?
    ensures BlockJumps(ss, false) && !(inLoop && contLabel != "") ==> r.Err?
    ensures r.Ok? && BlockJumps(ss, true) ==> Goto(brkLabel) in r.value.lines
    ensures r.Ok? && BlockJumps(ss, false) ==> Goto(contLabel) in r.value.lines
    ensures r.Ok? ==> r.value.declared == declared + Declares(ss)
    decreases ss, 2
  {
    var acc := BlockOut(vt, declared, []);
    var i := 0;
    while i < |ss|
      invariant 0 <= i <= |ss|
      invariant StmtStep(st, old(st.tempCounter), old(st.labelCounter), vt, BindsSeq(ss[..i]), Ok(acc))
      invariant JumpsPlaced(ss, i, acc.lines, inLoop, brkLabel, contLabel)
      invariant acc.declared == declared + Declares(ss[..i])
    {
      acc :- EmitBlockStep(st, ss, i, acc, vt, inLoop, brkLabel, contLabel, declared, old(st.tempCounter), old(st.labelCounter));
      i := i + 1;
    }
    assert ss[..i] == ss;
    r := Ok(acc);
  }

  /** One statement of a block appended to what the earlier ones produced. */
  method EmitBlockStep(st: CodegenState, ss: seq<Stmt>, i: nat, acc: BlockOut, vt: map<string, string>, inLoop: bool,
                       brkLabel: string, contLabel: string, declared: set<string>, ghost c0: nat, ghost l0: nat)
    returns (r: Result<BlockOut, string>)
    requires i < |ss| && StmtStep(st, c0, l0, vt, BindsSeq(ss[..i]), Ok(acc))
    requires JumpsPlaced(ss, i, acc.lines, inLoop, brkLabel, contLabel)
    requires acc.declared == declared + Declares(ss[..i])
    modifies st
    ensures StmtStep(st, c0, l0, vt, BindsSeq(ss[..i + 1]), r)
    ensures r.Ok? ==> JumpsPlaced(ss, i + 1, r.value.lines, inLoop, brkLabel, contLabel)
    ensures r.Ok? ==> r.value.declared == declared + Declares(ss[..i + 1])
    decreases ss, 1
  {
    ghost var c := st.tempCounter;
    var out :- EmitStmt(st, ss[i], acc.varTypes, inLoop, brkLabel, contLabel, acc.declared);
    JumpsPlacedSnoc(ss, i, acc.lines, out.lines, inLoop, brkLabel, contLabel);
    BindsSeqSnoc(ss, i);
    DeclaresSnoc(ss, i);
    GrowsByTrans(vt, acc.varTypes, out.varTypes, BindsSeq(ss[..i]), Binds(ss[i]), c0, c, st.tempCounter);
    r := Ok(BlockOut(out.varTypes, out.declared, acc.lines + out.lines));
  }

  /** Every `break` or `continue` among the first i statements is inside a loop with its label,
      and the jump to that label is among the lines. */
  ghost predicate JumpsPlaced(ss: seq<Stmt>, i: int, lines: seq<string>, inLoop: bool, brkLabel: string, contLabel: string)
  {
    forall j | 0 <= j < i && j < |ss| ::
      (StmtJumps(ss[j], true) ==> inLoop && brkLabel != "" && Goto(brkLabel) in lines) &&
      (StmtJumps(ss[j], false) ==> inLoop && contLabel != "" && Goto(contLabel) in lines)
  }

  /** The jumps placed so far stay placed when the next statement's lines are appended. */
  lemma JumpsPlacedSnoc(ss: seq<Stmt>, i: nat, lines: seq<string>, more: seq<string>, inLoop: bool, brkLabel: string,
                        contLabel: string)
    requires i < |ss| && JumpsPlaced(ss, i, lines, inLoop, brkLabel, contLabel)
    requires StmtJumps(ss[i], true) ==> inLoop && brkLabel != "" && Goto(brkLabel) in more
    requires StmtJumps(ss[i], false) ==> inLoop && contLabel != "" && Goto(contLabel) in more
    ensures JumpsPlaced(ss, i + 1, lines + more, inLoop, brkLabel, contLabel)
  {
  }

  lemma BindsSeqSnoc(ss: seq<Stmt>, i: int)
    requires 0 <= i < |ss|
    ensures BindsSeq(ss[..i + 1]) == BindsSeq(ss[..i]) + Binds(ss[i])
  {
    var a := ss[..i];
    var b := ss[..i + 1];
    forall x | x in BindsSeq(b)
      ensures x in BindsSeq(a) + Binds(ss[i])
    {
      var j :| 0 <= j < |b| && x in Binds(b[j]);
      if j < i {
        assert a[j] == b[j];
      }
    }
    forall x | x in Binds(ss[i])
      ensures x in BindsSeq(b)
    {
      assert b[i] == ss[i];
    }
    forall x | x in BindsSeq(a)
      ensures x in BindsSeq(b)
    {
      var j :| 0 <= j < |a| && x in Binds(a[j]);
      assert b[j] == a[j];
    }
  }

  lemma DeclaresSnoc(ss: seq<Stmt>, i: int)
    requires 0 <= i < |ss|
    ensures Declares(ss[..i + 1]) == Declares(ss[..i]) + (if ss[i].Assign? then {ss[i].name} else {})
  {
    var a := ss[..i];
    var b := ss[..i + 1];
    forall x | x in Declares(b)
      ensures x in Declares(a) + (if ss[i].Assign? then {ss[i].name} else {})
    {
      var j :| 0 <= j < |b| && b[j].Assign? && x == b[j].name;
      if j < i {
        assert a[j] == b[j];
      }
    }
    forall x | x in Declares(a)
      ensures x in Declares(b)
    {
      var j :| 0 <= j < |a| && a[j].Assign? && x == a[j].name;
      assert b[j] == a[j];
    }
    if ss[i].Assign? {
      assert b[i] == ss[i];
    }
  }

  /** One statement of _emit_block. */
  method EmitStmt(st: CodegenState, s: Stmt, vt: map<string, string>, inLoop: bool, brkLabel: string,
                  contLabel: string, declared: set<string>)
    returns (r: Result<BlockOut, string>)
    requires st.Valid()
    modifies st
    ensures StmtStep(st, old(st.tempCounter), old(st.labelCounter), vt, Binds(s), r)
    ensures StmtJumps(s, true) && !(inLoop && brkLabel != "") ==> r.Err?
    ensures StmtJumps(s, false) && !(inLoop && contLabel != "") ==> r.Err?
    ensures r.Ok? && StmtJumps(s, true) ==> Goto(brkLabel) in r.value.lines
    ensures r.Ok? && StmtJumps(s, false) ==> Goto(contLabel) in r.value.lines
    ensures r.Ok? ==> r.value.declared == declared + (if s.Assign? then {s.name} else {})
    ensures s.Break? ==>
      r == if inLoop && brkLabel != "" then Ok(BlockOut(vt, declared, [Goto(brkLabel)])) else Err("Break outside of loop")
    ensures s.Continue? ==>
      r == if inLoop && contLabel != "" then Ok(BlockOut(vt, declared, [Goto(contLabel)])) else Err("Continue outside of loop")
    decreases s, 1
  {
    match s
    case Assign(_, _) =>
      r := EmitAssign(st, s, vt, declared);
    case AttrAssign(obj, attr, e) =>
      ghost var c0 := st.tempCounter;
      var ex :- EmitExpr(st, e, vt);
      GrowsByWiden(vt, ex.varTypes, {}, {}, c0, st.tempCounter, c0, st.tempCounter);
      r := Ok(BlockOut(ex.varTypes, declared, ex.lines + ["    rt_int_copy(&" + obj + "->" + attr + ", " + ex.code + ");"]));
    case MethodCallStmt(_, _, _) =>
      r := EmitMethodCallStmt(st, s, vt, declared);
    case Print(_) =>
      r := EmitPrint(st, s, vt, declared);
    case If(_, _, _) =>
      r := EmitIf(st, s, vt, inLoop, brkLabel, contLabel, declared);
    case While(_, _) =>
      r := EmitWhile(st, s, vt, declared);
    case ForRange(_, _, _, _, _, _) =>
      r := EmitFor(st, s, vt, declared);
    case TryExcept(_, _, _) =>
      r := EmitTry(st, s, vt, inLoop, brkLabel, contLabel, declared);
    case Raise(name, msg, lineno) =>
      var text := if msg.Some? then msg.value else "";
      r := Ok(BlockOut(vt, declared, ["    rt_raise(" + ExcEnum(name) + ", \"" + RaiseEscapeAsWritten(text) + "\", \"<source>\", " +
                                      Decimal.IntToString(lineno) + ");"]));
    case Return(e) =>
      ghost var c0 := st.tempCounter;
      var ex :- EmitExpr(st, e, vt);
      r := Ok(BlockOut(ex.varTypes, declared, ex.lines + ["    rt_int_copy(out, " + ex.code + ");"]));
    case Break(_) =>
      if !inLoop || brkLabel == "" {
        return Err("Break outside of loop");
      }
      r := Ok(BlockOut(vt, declared, [Goto(brkLabel)]));
    case Continue(_) =>
      if !inLoop || contLabel == "" {
        return Err("Continue outside of loop");
      }
      r := Ok(BlockOut(vt, declared, [Goto(contLabel)]));
  }

  /** An assignment: the target's type comes from the value's form (string literal, constructor
      call, anything else an int); a name seen for the first time is declared, and a constructed
      object rebinding a declared name first releases the old object. */
  method EmitAssign(st: CodegenState, s: Stmt, vt: map<string, string>, declared: set<string>)
    returns (r: Result<BlockOut, string>)
    requires st.Valid() && s.Assign?
    modifies st
    ensures StmtStep(st, old(st.tempCounter), old(st.labelCounter), vt, {s.name}, r)
    ensures r.Ok? ==> r.value.declared == declared + {s.name}
    ensures r.Ok? ==> s.name in r.value.varTypes && r.value.varTypes[s.name] == AssignedType(s.expr)
    ensures r.Ok? ==> exists pre, code :: r.value.lines == pre + AssignLines(s.name, s.expr, r.value.varTypes, declared, code) &&
                                          (s.expr.StrConst? || s.expr.ConstructorCall? ==> code == TempName(st.tempCounter))
    ensures s.expr.BuiltinCall? ==> r.Err?
  {
    var x := s.name;
    ghost var c0 := st.tempCounter;
    var ex :- EmitExpr(st, s.expr, vt);
    var vt' := ex.varTypes[x := AssignedType(s.expr)];
    var code := ex.code;
    GrowsByWiden(vt, ex.varTypes, {}, {x}, c0, st.tempCounter, c0, st.tempCounter);
    var lines := ex.lines + AssignLines(x, s.expr, vt', declared, code);
    assert s.expr.StrConst? || s.expr.ConstructorCall? ==> code == TempName(st.tempCounter);
    assert lines == ex.lines + AssignLines(x, s.expr, vt', declared, code);
    r := Ok(BlockOut(vt', declared + {x}, lines));
  }

  /** The lines an assignment adds after its value's: a string or object target declared on first
      sight (an object rebinding a declared name first releases the old one), or an int declared on
      first sight and then copied into, except from a name the updated types give as a string. */
  function AssignLines(x: string, e: Expr, vt': map<string, string>, declared: set<string>, code: string): (r: seq<string>)
    ensures e.ConstructorCall? && x in declared ==>
      r == ["    pcc_delete_" + e.className + "(" + x + ");", "    " + x + " = " + code + ";"]
    ensures e.ConstructorCall? && x !in declared ==> r == ["    pcc_class_" + e.className + "* " + x + " = " + code + ";"]
    ensures !e.StrConst? && !e.ConstructorCall? ==>
      ((x !in declared) <==> (|r| >= 1 && r[0] == DeclInt(x))) &&
      ((e.Var? && IsStrVar(vt', e.name)) <==> ("    rt_int_copy(&" + x + ", " + code + ");" !in r))
  {
    if e.StrConst? then
      [if x !in declared then "    rt_str " + x + " = " + code + ";" else "    " + x + " = " + code + ";"]
    else if e.ConstructorCall? then
      if x !in declared then ["    pcc_class_" + e.className + "* " + x + " = " + code + ";"]
      else ["    pcc_delete_" + e.className + "(" + x + ");", "    " + x + " = " + code + ";"]
    else
      var copy := if e.Var? && IsStrVar(vt', e.name) then [] else ["    rt_int_copy(&" + x + ", " + code + ");"];
      var r := (if x !in declared then [DeclInt(x)] else []) + copy;
      DeclIsNotCopy(x, code);
      r
  }

  lemma DeclIsNotCopy(x: string, code: string)
    ensures DeclInt(x) != "    rt_int_copy(&" + x + ", " + code + ");"
  {
    assert ("    rt_int_copy(&" + x + ", " + code + ");")[10] == '_' && DeclInt(x)[10] == ' ';
  }

  /** A method call statement: the class is read off the receiver's recorded type (the receiver's
      own name when it has none), and the result goes to a throw-away int temporary. */
  method EmitMethodCallStmt(st: CodegenState, s: Stmt, vt: map<string, string>, declared: set<string>)
    returns (r: Result<BlockOut, string>)
    requires st.Valid() && s.MethodCallStmt?
    modifies st
    ensures StmtStep(st, old(st.tempCounter), old(st.labelCounter), vt, {}, r)
    ensures r.Ok? ==> r.value.declared == declared
    ensures r.Ok? ==> (|r.value.lines| >= 1 &&
      StartsWith("    pcc_method_" + ReceiverClass(s.obj, r.value.varTypes) + "_" + s.methodName + "(" + s.obj + ", &",
                 r.value.lines[|r.value.lines| - 1]))
  {
    ghost var c0 := st.tempCounter;
    var lowered :- EmitArgs(st, s.args, vt);
    var (codes, vt', lines) := lowered;
    ghost var c1 := st.tempCounter;
    var temp := st.NextTemp("rt_int");
    var cls := ReceiverClass(s.obj, vt');
    var head := "    pcc_method_" + cls + "_" + s.methodName + "(" + s.obj + ", &";
    var line := head + (ArgList(temp, codes) + ");");
    StartsWithConcat(head, ArgList(temp, codes) + ");");
    GrowsByWiden(vt, vt', {}, {}, c0, c1, c0, st.tempCounter);
    r := Ok(BlockOut(vt', declared, lines + [DeclInt(temp), line]));
  }

  lemma StartsWithConcat(a: string, b: string)
    ensures StartsWith(a, a + b)
  {
    assert (a + b)[..|a|] == a;
  }

  /** The class of a receiver: its recorded type without the `pcc_class_` prefix. */
  function ReceiverClass(obj: string, vt: map<string, string>): (r: string)
    ensures obj in vt && IsClassType(vt[obj]) ==> "pcc_class_" + r == vt[obj]
    ensures !(obj in vt && IsClassType(vt[obj])) ==> r == obj
  {
    if obj in vt && IsClassType(vt[obj]) then vt[obj][10..] else obj
  }

  /** print: `rt_print_str` exactly when the printed expression produces a string. */
  method EmitPrint(st: CodegenState, s: Stmt, vt: map<string, string>, declared: set<string>)
    returns (r: Result<BlockOut, string>)
    requires st.Valid() && s.Print?
    modifies st
    ensures StmtStep(st, old(st.tempCounter), old(st.labelCounter), vt, {}, r)
    ensures r.Ok? ==> r.value.declared == declared && |r.value.lines| >= 1
    ensures r.Ok? ==>
      (StartsWith("    rt_print_str(", r.value.lines[|r.value.lines| - 1]) <==> ExprProducesString(s.expr, r.value.varTypes))
  {
    ghost var c0 := st.tempCounter;
    var ex :- EmitExpr(st, s.expr, vt);
    var isStr := PrintsAsStr(s.expr, ex.code, ex.varTypes, st.tempTypes);
    var line := if isStr then "    rt_print_str(" + (ex.code + ");") else "    rt_print_int(" + (ex.code + ");");
    if isStr {
      StartsWithConcat("    rt_print_str(", ex.code + ");");
    } else {
      assert line[13] == 'i' && "    rt_print_str("[13] == 's';
    }
    r := Ok(BlockOut(ex.varTypes, declared, ex.lines + [line]));
  }

  /** An if: the test, then each branch with its own copy of the variable types and the declared
      names, so nothing a branch declares is seen after it. */
  method EmitIf(st: CodegenState, s: Stmt, vt: map<string, string>, inLoop: bool, brkLabel: string,
                contLabel: string, declared: set<string>)
    returns (r: Result<BlockOut, string>)
    requires st.Valid() && s.If?
    modifies st
    ensures StmtStep(st, old(st.tempCounter), old(st.labelCounter), vt, {}, r)
    ensures r.Ok? ==> r.value.declared == declared
    ensures StmtJumps(s, true) && !(inLoop && brkLabel != "") ==> r.Err?
    ensures StmtJumps(s, false) && !(inLoop && contLabel != "") ==> r.Err?
    ensures r.Ok? && StmtJumps(s, true) ==> Goto(brkLabel) in r.value.lines
    ensures r.Ok? && StmtJumps(s, false) ==> Goto(contLabel) in r.value.lines
    decreases s, 0
  {
    ghost var c0 := st.tempCounter;
    var test :- EmitExpr(st, s.test, vt);
    var vt' := test.varTypes;
    ghost var c1 := st.tempCounter;
    var body :- EmitBlock(st, s.body, vt', inLoop, brkLabel, contLabel, declared);
    var lines := test.lines + ["    if (" + test.code + ") {"] + body.lines;
    if s.orelse != [] {
      var other :- EmitBlock(st, s.orelse, vt', inLoop, brkLabel, contLabel, declared);
      lines := lines + ["    } else {"] + other.lines;
    }
    assert StmtJumps(s, true) == (BlockJumps(s.body, true) || BlockJumps(s.orelse, true));
    assert StmtJumps(s, false) == (BlockJumps(s.body, false) || BlockJumps(s.orelse, false));
    GrowsByWiden(vt, vt', {}, {}, c0, c1, c0, st.tempCounter);
    r := Ok(BlockOut(vt', declared, lines + ["    }"]));
  }

  /** A while loop between a start and an end label: a false test jumps to the end, and the body is
      lowered inside the loop with `break` bound to the end label and `continue` to the start. */
  method EmitWhile(st: CodegenState, s: Stmt, vt: map<string, string>, declared: set<string>)
    returns (r: Result<BlockOut, string>)
    requires st.Valid() && s.While?
    modifies st
    ensures StmtStep(st, old(st.tempCounter), old(st.labelCounter), vt, {}, r)
    ensures r.Ok? ==> r.value.declared == declared
    ensures r.Ok? ==>
      var sl := LabelName("while_start", old(st.labelCounter) + 1);
      var el := LabelName("while_end", old(st.labelCounter) + 2);
      exists pre, body | r.value.lines == [LabelLine(sl)] + pre + body + [Goto(sl), LabelLine(el)] ::
        (BlockJumps(s.body, true) ==> Goto(el) in body) && (BlockJumps(s.body, false) ==> Goto(sl) in body)
    decreases s, 0
  {
    var sl := st.NextLabel("while_start");
    var el := st.NextLabel("while_end");
    ghost var c0 := st.tempCounter;
    var test :- EmitExpr(st, s.test, vt);
    var vt' := test.varTypes;
    ghost var c1 := st.tempCounter;
    var pre := test.lines + ["    if (!(" + test.code + ")) goto " + el + ";"];
    var body :- EmitBlock(st, s.body, vt', true, el, sl, declared);
    GrowsByWiden(vt, vt', {}, {}, c0, c1, c0, st.tempCounter);
    var lines := [LabelLine(sl)] + pre + body.lines + [Goto(sl), LabelLine(el)];
    assert (BlockJumps(s.body, true) ==> Goto(el) in body.lines) && (BlockJumps(s.body, false) ==> Goto(sl) in body.lines);
    r := Ok(BlockOut(vt', declared, lines));
  }

  /** The exit test of a range loop: past stop going up for a positive step, going down otherwise. */
  function ForExitTest(v: string, stopTemp: string, endLabel: string): seq<string>
  {
    ["    if (" + stopTemp + "_cmp > 0) {",
     "        if (rt_int_cmp(&" + v + ", &" + stopTemp + ") >= 0) goto " + endLabel + ";",
     "    } else {",
     "        if (rt_int_cmp(&" + v + ", &" + stopTemp + ") <= 0) goto " + endLabel + ";",
     "    }"]
  }

  /** A range loop with start, end and continue labels: the variable is declared and set to start,
      stop and step are copied into temporaries, the exit test follows the step's sign, and the
      continue label adds the step before jumping back. */
  method EmitFor(st: CodegenState, s: Stmt, vt: map<string, string>, declared: set<string>)
    returns (r: Result<BlockOut, string>)
    requires st.Valid() && s.ForRange?
    modifies st
    ensures StmtStep(st, old(st.tempCounter), old(st.labelCounter), vt, {s.loopVar}, r)
    ensures r.Ok? ==> r.value.declared == declared && s.loopVar in r.value.varTypes
    ensures r.Ok? ==>
      var fs := LabelName("for_start", old(st.labelCounter) + 1);
      var fe := LabelName("for_end", old(st.labelCounter) + 2);
      var fc := LabelName("for_continue", old(st.labelCounter) + 3);
      var lines := r.value.lines;
      LabelLine(fs) in lines && |lines| >= 6 && lines[|lines| - 6] == LabelLine(fc) && lines[|lines| - 4] == Goto(fs) &&
      lines[|lines| - 3] == LabelLine(fe) &&
      (BlockJumps(s.body, true) ==> Goto(fe) in lines) && (BlockJumps(s.body, false) ==> Goto(fc) in lines)
    decreases s, 0
  {
    var fs := st.NextLabel("for_start");
    var fe := st.NextLabel("for_end");
    var fc := st.NextLabel("for_continue");
    var v := s.loopVar;
    ghost var c0 := st.tempCounter;
    var bounds :- EmitRangeBounds(st, s, vt);
    var (pre, vt', stopTemp, stepTemp) := bounds;
    ghost var c3 := st.tempCounter;
    var body :- EmitBlock(st, s.body, vt', true, fe, fc, declared);
    GrowsByWiden(vt, vt', {v}, {v}, c0, c3, c0, st.tempCounter);
    var lines := ForLines(pre, v, stopTemp, stepTemp, fs, fe, fc, body.lines);
    ForLinesShape(pre, v, stopTemp, stepTemp, fs, fe, fc, body.lines);
    r := Ok(BlockOut(vt', declared, lines));
  }

  /** The lines of a range loop around its body's lines. */
  function ForLines(pre: seq<string>, v: string, stopTemp: string, stepTemp: string, fs: string, fe: string,
                    fc: string, body: seq<string>): seq<string>
  {
    pre + ["    int " + stopTemp + "_cmp = rt_int_cmp(&" + stepTemp + ", &(rt_int){0});", LabelLine(fs)] +
    ForExitTest(v, stopTemp, fe) + body +
    [LabelLine(fc), "    rt_int_add(&" + v + ", &" + v + ", &" + stepTemp + ");", Goto(fs), LabelLine(fe),
     "    rt_int_clear(&" + stopTemp + ");", "    rt_int_clear(&" + stepTemp + ");"]
  }

  /** The start label comes before the body, and the continue label, the jump back and the end label
      are the sixth, fourth and third lines from the end; the body's lines are all kept. */
  lemma ForLinesShape(pre: seq<string>, v: string, stopTemp: string, stepTemp: string, fs: string, fe: string,
                      fc: string, body: seq<string>)
    ensures var lines := ForLines(pre, v, stopTemp, stepTemp, fs, fe, fc, body);
      LabelLine(fs) in lines && |lines| >= 6 && lines[|lines| - 6] == LabelLine(fc) && lines[|lines| - 4] == Goto(fs) &&
      lines[|lines| - 3] == LabelLine(fe) && forall x | x in body :: x in lines
  {
    var head := pre + ["    int " + stopTemp + "_cmp = rt_int_cmp(&" + stepTemp + ", &(rt_int){0});", LabelLine(fs)];
    var header := head + ForExitTest(v, stopTemp, fe);
    var post := [LabelLine(fc), "    rt_int_add(&" + v + ", &" + v + ", &" + stepTemp + ");", Goto(fs), LabelLine(fe),
                 "    rt_int_clear(&" + stopTemp + ");", "    rt_int_clear(&" + stepTemp + ");"];
    var lines := header + body + post;
    assert lines == ForLines(pre, v, stopTemp, stepTemp, fs, fe, fc, body);
    assert lines[|lines| - 6..] == post;
    assert lines[|head| - 1] == LabelLine(fs);
    forall x | x in body
      ensures x in lines
    {
      MemberInMiddle(header, body, post, x);
    }
  }

  /** An expression lowered where a statement needs only its value: the effect on the state and the
      scope, without the form of the code. */
  method EmitValue(st: CodegenState, e: Expr, vt: map<string, string>) returns (r: Result<Lowered, string>)
    requires st.Valid()
    modifies st
    ensures st.Valid() && old(st.tempCounter) <= st.tempCounter && st.labelCounter == old(st.labelCounter)
    ensures r.Ok? ==> GrowsBy(vt, r.value.varTypes, {}, old(st.tempCounter), st.tempCounter)
    ensures e.BuiltinCall? ==> r.Err?
  {
    r := EmitExpr(st, e, vt);
  }

  /** The set-up of a range loop: the variable declared and set to start, then stop and step each
      copied into a fresh temporary taken before its expression is lowered. */
  method EmitRangeBounds(st: CodegenState, s: Stmt, vt: map<string, string>)
    returns (r: Result<(seq<string>, map<string, string>, string, string), string>)
    requires st.Valid() && s.ForRange?
    modifies st
    ensures st.Valid() && old(st.tempCounter) <= st.tempCounter && st.labelCounter == old(st.labelCounter)
    ensures r.Ok? ==> GrowsBy(vt, r.value.1, {s.loopVar}, old(st.tempCounter), st.tempCounter) && s.loopVar in r.value.1
    ensures r.Ok? ==> r.value.2 != r.value.3 && DeclInt(s.loopVar) in r.value.0 &&
                      DeclInt(r.value.2) in r.value.0 && DeclInt(r.value.3) in r.value.0
  {
    var v := s.loopVar;
    ghost var c0 := st.tempCounter;
    var start :- EmitValue(st, s.start, vt);
    var vt1 := start.varTypes[v := "rt_int"];
    GrowsByWiden(vt, start.varTypes, {}, {v}, c0, st.tempCounter, c0, st.tempCounter);
    assert GrowsBy(vt, vt1, {v}, c0, st.tempCounter);
    var pre := start.lines + [DeclInt(v), "    rt_int_copy(&" + v + ", " + start.code + ");"];
    var stopTemp := st.NextTemp("rt_int");
    ghost var c1 := st.tempCounter;
    GrowsByWiden(vt, vt1, {v}, {v}, c0, c1 - 1, c0, c1);
    var stop :- EmitValue(st, s.stop, vt1);
    GrowsByTrans(vt, vt1, stop.varTypes, {v}, {}, c0, c1, st.tempCounter);
    pre := pre + stop.lines + [DeclInt(stopTemp), "    rt_int_copy(&" + stopTemp + ", " + stop.code + ");"];
    var stepTemp := st.NextTemp("rt_int");
    ghost var c2 := st.tempCounter;
    GrowsByWiden(vt, stop.varTypes, {v}, {v}, c0, c2 - 1, c0, c2);
    var step :- EmitValue(st, s.step, stop.varTypes);
    GrowsByTrans(vt, stop.varTypes, step.varTypes, {v}, {}, c0, c2, st.tempCounter);
    pre := pre + step.lines + [DeclInt(stepTemp), "    rt_int_copy(&" + stepTemp + ", " + step.code + ");"];
    TempNameInjective(c1, c2);
    r := Ok((pre, step.varTypes, stopTemp, stepTemp));
  }

  /** try/except: a context pushed and `setjmp`; the body runs on the first return and pops the
      context; a handler for a named exception runs only when the current exception has that kind,
      and re-raises otherwise; a bare handler catches everything.  Both bodies get copies of the
      scope. */
  method EmitTry(st: CodegenState, s: Stmt, vt: map<string, string>, inLoop: bool, brkLabel: string,
                 contLabel: string, declared: set<string>)
    returns (r: Result<BlockOut, string>)
    requires st.Valid() && s.TryExcept?
    modifies st
    ensures StmtStep(st, old(st.tempCounter), old(st.labelCounter), vt, {}, r)
    ensures r.Ok? ==> r.value.declared == declared && r.value.varTypes == vt
    ensures StmtJumps(s, true) && !(inLoop && brkLabel != "") ==> r.Err?
    ensures StmtJumps(s, false) && !(inLoop && contLabel != "") ==> r.Err?
    ensures r.Ok? && StmtJumps(s, true) ==> Goto(brkLabel) in r.value.lines
    ensures r.Ok? && StmtJumps(s, false) ==> Goto(contLabel) in r.value.lines
    ensures r.Ok? && s.excName.Some? ==>
      "        if (rt_exc_is(" + ExcEnum(s.excName) + ")) {" in r.value.lines && "            rt_reraise();" in r.value.lines
    ensures r.Ok? && s.excName.None? ==> "        rt_exc_clear();" in r.value.lines
    decreases s, 0
  {
    var ctx := st.NextTemp("rt_try_ctx");
    var flag := st.NextTemp("int");
    var lines := ["    rt_try_ctx " + ctx + ";", "    rt_try_push(&" + ctx + ");", "    int " + flag + " = setjmp(" + ctx + ".env);",
                  "    if (" + flag + " == 0) {"];
    var body :- EmitBlock(st, s.body, vt, inLoop, brkLabel, contLabel, declared);
    lines := lines + body.lines + ["        rt_try_pop(&" + ctx + ");", "    } else {"];
    var handler :- EmitBlock(st, s.handler, vt, inLoop, brkLabel, contLabel, declared);
    if s.excName.None? {
      lines := lines + ["        rt_exc_clear();", "        rt_try_pop(&" + ctx + ");"] + handler.lines;
    } else {
      lines := lines + ["        if (rt_exc_is(" + ExcEnum(s.excName) + ")) {", "            rt_exc_clear();",
                        "            rt_try_pop(&" + ctx + ");"] + handler.lines +
               ["        } else {", "            rt_try_pop(&" + ctx + ");", "            rt_reraise();", "        }"];
    }
    r := Ok(BlockOut(vt, declared, lines + ["    }"]));
  }

  // ---------------------------------------------------------------------------------------------
  // Classes, functions and the program

  /** One line per field: `pre`, the field's name, then `post`. */
  function FieldLines(fields: seq<string>, pre: string, post: string): (r: seq<string>)
    ensures |r| == |fields| && forall i | 0 <= i < |fields| :: r[i] == pre + fields[i] + post
  {
    seq(|fields|, i requires 0 <= i < |fields| => pre + fields[i] + post)
  }

  /** The lines of a class's struct, constructor and destructor, as the three emitters lay them out. */
  function StructText(c: ClassDef): seq<string>
  {
    ["typedef struct {"] + FieldLines(c.fields, "    rt_int ", ";") + ["} pcc_class_" + c.name + ";", ""]
  }

  function ConstructorText(c: ClassDef): seq<string>
  {
    ["static pcc_class_" + c.name + "* pcc_new_" + c.name + "(void) {",
     "    pcc_class_" + c.name + "* obj = malloc(sizeof(pcc_class_" + c.name + "));",
     "    if (!obj) return NULL;"]
    + FieldLines(c.fields, "    rt_int_init(&obj->", ");") + ["    return obj;", "}", ""]
  }

  function DestructorText(c: ClassDef): seq<string>
  {
    ["static void pcc_delete_" + c.name + "(pcc_class_" + c.name + "* obj) {", "    if (!obj) return;"]
    + FieldLines(c.fields, "    rt_int_clear(&obj->", ");") + ["    free(obj);", "}", ""]
  }

  /** One more field, one more line. */
  lemma FieldLinesSnoc(fields: seq<string>, i: nat, pre: string, post: string)
    requires i < |fields|
    ensures FieldLines(fields[..i + 1], pre, post) == FieldLines(fields[..i], pre, post) + [pre + fields[i] + post]
  {
  }

  /** _emit_class_struct: one `rt_int` member per field, in order. */
  method EmitClassStruct(c: ClassDef) returns (lines: seq<string>)
    ensures lines == StructText(c)
    ensures |lines| == |c.fields| + 3
    ensures lines[0] == "typedef struct {" && lines[|lines| - 2] == "} pcc_class_" + c.name + ";" && lines[|lines| - 1] == ""
    ensures forall i | 0 <= i < |c.fields| :: lines[i + 1] == "    rt_int " + c.fields[i] + ";"
  {
    lines := ["typedef struct {"];
    for i := 0 to |c.fields|
      invariant lines == ["typedef struct {"] + FieldLines(c.fields[..i], "    rt_int ", ";")
    {
      FieldLinesSnoc(c.fields, i, "    rt_int ", ";");
      lines := lines + ["    rt_int " + c.fields[i] + ";"];
    }
    assert c.fields[..|c.fields|] == c.fields;
    lines := lines + ["} pcc_class_" + c.name + ";", ""];
  }

  /** _emit_class_constructor: allocate, give up on a failed allocation, initialise every field. */
  method EmitClassConstructor(c: ClassDef) returns (lines: seq<string>)
    ensures lines == ConstructorText(c)
    ensures |lines| == |c.fields| + 6
    ensures lines[0] == "static pcc_class_" + c.name + "* pcc_new_" + c.name + "(void) {"
    ensures lines[2] == "    if (!obj) return NULL;"
    ensures forall i | 0 <= i < |c.fields| :: lines[i + 3] == "    rt_int_init(&obj->" + c.fields[i] + ");"
    ensures lines[|lines| - 3] == "    return obj;"
  {
    var head := ["static pcc_class_" + c.name + "* pcc_new_" + c.name + "(void) {",
                 "    pcc_class_" + c.name + "* obj = malloc(sizeof(pcc_class_" + c.name + "));",
                 "    if (!obj) return NULL;"];
    lines := head;
    for i := 0 to |c.fields|
      invariant lines == head + FieldLines(c.fields[..i], "    rt_int_init(&obj->", ");")
    {
      FieldLinesSnoc(c.fields, i, "    rt_int_init(&obj->", ");");
      lines := lines + ["    rt_int_init(&obj->" + c.fields[i] + ");"];
    }
    assert c.fields[..|c.fields|] == c.fields;
    lines := lines + ["    return obj;", "}", ""];
  }

  /** _emit_class_destructor: nothing for a null object, otherwise clear every field and free. */
  method EmitClassDestructor(c: ClassDef) returns (lines: seq<string>)
    ensures lines == DestructorText(c)
    ensures |lines| == |c.fields| + 5
    ensures lines[0] == "static void pcc_delete_" + c.name + "(pcc_class_" + c.name + "* obj) {"
    ensures lines[1] == "    if (!obj) return;"
    ensures forall i | 0 <= i < |c.fields| :: lines[i + 2] == "    rt_int_clear(&obj->" + c.fields[i] + ");"
    ensures lines[|lines| - 3] == "    free(obj);"
  {
    var head := ["static void pcc_delete_" + c.name + "(pcc_class_" + c.name + "* obj) {", "    if (!obj) return;"];
    lines := head;
    for i := 0 to |c.fields|
      invariant lines == head + FieldLines(c.fields[..i], "    rt_int_clear(&obj->", ");")
    {
      FieldLinesSnoc(c.fields, i, "    rt_int_clear(&obj->", ");");
      lines := lines + ["    rt_int_clear(&obj->" + c.fields[i] + ");"];
    }
    assert c.fields[..|c.fields|] == c.fields;
    lines := lines + ["    free(obj);", "}", ""];
  }

  /** The C parameters of a function or method after its out pointer. */
  function ParamDecls(params: seq<string>): (r: seq<string>)
    ensures |r| == |params| && forall i | 0 <= i < |params| :: r[i] == "rt_int* pcc_p_" + params[i]
  {
    seq(|params|, i requires 0 <= i < |params| => "rt_int* pcc_p_" + params[i])
  }

  /** `static void pcc_fn_<f>(rt_int* out, <params>)`, without a dangling comma when there are none. */
  function FunctionSignature(fn: FunctionDef): string
  {
    "static void pcc_fn_" + fn.name + "(" + ArgList("rt_int* out", ParamDecls(fn.params)) + ")"
  }

  /** The same signature as the source writes it. */
  function FunctionSignatureAsWritten(fn: FunctionDef): string
  {
    "static void pcc_fn_" + fn.name + "(" + ArgListAsWritten("rt_int* out", ParamDecls(fn.params)) + ")"
  }

  /** A function without parameters gets the parameter list `(rt_int* out, )` as written. */
  lemma ZeroParamSignatureDangles(name: string, body: seq<Stmt>, lineno: int)
    ensures FunctionSignatureAsWritten(FunctionDef(name, [], body, lineno)) == "static void pcc_fn_" + name + "(rt_int* out, )"
    ensures FunctionSignature(FunctionDef(name, [], body, lineno)) == "static void pcc_fn_" + name + "(rt_int* out)"
  {
    ArgListDangles("rt_int* out", []);
  }

  /** `static void pcc_method_<C>_<m>(pcc_class_<C>* self, rt_int* out, <params>)`. */
  function MethodSignature(c: ClassDef, fn: FunctionDef): string
  {
    "static void pcc_method_" + c.name + "_" + fn.name + "(pcc_class_" + c.name + "* self, " +
    ArgList("rt_int* out", ParamDecls(fn.params)) + ")"
  }

  /** Where locals are released: a function releases every local as its type says, a method skips
      `self` and its parameters and anything neither int nor str, and main keeps objects alive. */
  datatype Scope = FunctionScope | MethodScope(params: seq<string>) | MainScope

  function ReleaseLine(scope: Scope, x: string, ctype: string): (r: Option<string>)
    ensures scope.MainScope? && IsClassType(ctype) ==> r.None?
    ensures scope.FunctionScope? ==> r.Some?
    ensures r.Some? ==> r.value == "    rt_str_clear(&" + x + ");" || r.value == "    rt_int_clear(&" + x + ");"
  {
    match scope
    case FunctionScope => Some(if ctype == "rt_str" then "    rt_str_clear(&" + x + ");" else "    rt_int_clear(&" + x + ");")
    case MethodScope(ps) =>
      if x == "self" || x in ps then None
      else if ctype == "rt_str" then Some("    rt_str_clear(&" + x + ");")
      else if ctype == "rt_int" then Some("    rt_int_clear(&" + x + ");")
      else None
    case MainScope =>
      if ctype == "rt_str" then Some("    rt_str_clear(&" + x + ");")
      else if IsClassType(ctype) then None
      else Some("    rt_int_clear(&" + x + ");")
  }

  /** A release line names one local. */
  lemma ReleaseLineInjective(scope: Scope, x: string, t: string, y: string, u: string)
    requires ReleaseLine(scope, x, t).Some? && ReleaseLine(scope, x, t) == ReleaseLine(scope, y, u)
    ensures x == y
  {
    var l := ReleaseLine(scope, x, t).value;
    assert l[..17] == ReleaseLine(scope, y, u).value[..17];
    assert l[18..|l| - 2] == x;
    assert ReleaseLine(scope, y, u).value[18..|l| - 2] == y;
  }

  /** Release lines of two different locals differ. */
  lemma ReleaseLinesDiffer(scope: Scope, x: string, t: string, y: string, u: string)
    requires ReleaseLine(scope, x, t).Some? && ReleaseLine(scope, y, u).Some? && x != y
    ensures ReleaseLine(scope, x, t).value != ReleaseLine(scope, y, u).value
  {
    var l, k := ReleaseLine(scope, x, t).value, ReleaseLine(scope, y, u).value;
    assert l[18..|l| - 2] == x;
    assert k[18..|k| - 2] == y;
  }

  /** The cleanup loop over the variable types: the line of every local the scope releases
      exactly once, and no other line. */
  method ReleaseLocals(vt: map<string, string>, scope: Scope) returns (lines: seq<string>)
    ensures forall x | x in vt && ReleaseLine(scope, x, vt[x]).Some? :: multiset(lines)[ReleaseLine(scope, x, vt[x]).value] == 1
    ensures forall l | l in lines :: exists x | x in vt :: ReleaseLine(scope, x, vt[x]) == Some(l)
    ensures |lines| <= |vt|
  {
    lines := [];
    var remaining := vt.Keys;
    while remaining != {}
      invariant Released(vt, scope, lines, remaining)
      decreases |remaining|
    {
      var x :| x in remaining;
      lines := ReleaseOne(vt, scope, lines, remaining, x);
      remaining := remaining - {x};
    }
  }

  /** The release lines emitted so far: one per releasable variable no longer remaining. */
  ghost predicate Released(vt: map<string, string>, scope: Scope, lines: seq<string>, remaining: set<string>)
  {
    && remaining <= vt.Keys
    && (forall x | x in vt && ReleaseLine(scope, x, vt[x]).Some? ::
          multiset(lines)[ReleaseLine(scope, x, vt[x]).value] == if x in remaining then 0 else 1)
    && (forall l | l in lines :: exists x | x in vt :: ReleaseLine(scope, x, vt[x]) == Some(l))
    && |lines| + |remaining| <= |vt|
  }

  /** Releases one more variable, if its type needs it. */
  method ReleaseOne(vt: map<string, string>, scope: Scope, lines: seq<string>, ghost remaining: set<string>, x: string)
    returns (lines': seq<string>)
    requires Released(vt, scope, lines, remaining) && x in remaining
    ensures Released(vt, scope, lines', remaining - {x})
  {
    var line := ReleaseLine(scope, x, vt[x]);
    lines' := lines;
    if line.Some? {
      forall y | y in vt && y != x && ReleaseLine(scope, y, vt[y]).Some?
        ensures ReleaseLine(scope, y, vt[y]).value != line.value
      {
        ReleaseLinesDiffer(scope, y, vt[y], x, vt[x]);
      }
      lines' := lines + [line.value];
      assert multiset(lines') == multiset(lines) + multiset{line.value};
      assert forall l | l in lines' :: l in lines || l == line.value;
    }
  }

  /** Objects held by main's variables are not released at its end. */
  lemma MainKeepsObjects(vt: map<string, string>, lines: seq<string>, x: string)
    requires forall l | l in lines :: exists y | y in vt :: ReleaseLine(MainScope, y, vt[y]) == Some(l)
    requires x in vt && IsClassType(vt[x])
    ensures "    rt_int_clear(&" + x + ");" !in lines && "    rt_str_clear(&" + x + ");" !in lines
  {
    forall l | l in lines
      ensures l != "    rt_int_clear(&" + x + ");" && l != "    rt_str_clear(&" + x + ");"
    {
      var y :| y in vt && ReleaseLine(MainScope, y, vt[y]) == Some(l);
      assert y != x;
      assert ("    rt_int_clear(&" + x + ");")[18..|x| + 18] == x;
      assert ("    rt_str_clear(&" + x + ");")[18..|x| + 18] == x;
      assert l[18..|l| - 2] == y;
    }
  }

  /** The parameter set-up of a function or method: each parameter declared as an int local and
      copied from its pointer. */
  method EmitParams(params: seq<string>, vt: map<string, string>) returns (lines: seq<string>, vt': map<string, string>)
    ensures |lines| == 2 * |params|
    ensures forall i | 0 <= i < |params| :: lines[2 * i] == DeclInt(params[i]) &&
                                             lines[2 * i + 1] == "    rt_int_copy(&" + params[i] + ", pcc_p_" + params[i] + ");"
    ensures vt'.Keys == vt.Keys + (set p | p in params) && forall p | p in params :: vt'[p] == "rt_int"
    ensures forall x | x in vt && x !in params :: vt'[x] == vt[x]
  {
    lines := [];
    vt' := vt;
    for i := 0 to |params|
      invariant |lines| == 2 * i
      invariant forall j | 0 <= j < i :: lines[2 * j] == DeclInt(params[j]) &&
                                         lines[2 * j + 1] == "    rt_int_copy(&" + params[j] + ", pcc_p_" + params[j] + ");"
      invariant vt'.Keys == vt.Keys + (set p | p in params[..i]) && forall p | p in params[..i] :: vt'[p] == "rt_int"
      invariant forall x | x in vt && x !in params[..i] :: vt'[x] == vt[x]
    {
      assert params[..i + 1] == params[..i] + [params[i]];
      vt' := vt'[params[i] := "rt_int"];
      lines := lines + [DeclInt(params[i]), "    rt_int_copy(&" + params[i] + ", pcc_p_" + params[i] + ");"];
    }
    assert params[..|params|] == params;
  }

  /** _emit_function: a fresh state, the parameters, the body outside any loop, then every local
      released. */
  method EmitFunction(fn: FunctionDef) returns (r: Result<seq<string>, string>)
    ensures BlockJumps(fn.body, true) || BlockJumps(fn.body, false) ==> r.Err?
    ensures r.Ok? ==> (|r.value| >= 2 * |fn.params| + 3 && r.value[0] == FunctionSignatureAsWritten(fn) + " {" &&
                       r.value[|r.value| - 2..] == ["}", ""] &&
                       forall i | 0 <= i < |fn.params| :: r.value[2 * i + 1] == DeclInt(fn.params[i]))
  {
    var st := new CodegenState();
    var params, vt := EmitParams(fn.params, map[]);
    var body :- EmitBlock(st, fn.body, vt, false, "", "", {});
    var cleanup := ReleaseLocals(body.varTypes, FunctionScope);
    r := Ok(Assemble(FunctionSignatureAsWritten(fn) + " {", params, body.lines + cleanup));
  }

  /** A definition: its header line, the parameter set-up, the rest, and the closing lines. */
  function Assemble(header: string, params: seq<string>, rest: seq<string>): (r: seq<string>)
    ensures |r| == |params| + |rest| + 3 && r[0] == header && r[|r| - 2..] == ["}", ""]
    ensures forall i | 0 <= i < |params| :: r[i + 1] == params[i]
  {
    [header] + params + rest + ["}", ""]
  }

  /** _emit_method: as a function, with `self` typed as the class and left out of the cleanup. */
  method EmitMethod(c: ClassDef, fn: FunctionDef) returns (r: Result<seq<string>, string>)
    ensures BlockJumps(fn.body, true) || BlockJumps(fn.body, false) ==> r.Err?
    ensures r.Ok? ==> (|r.value| >= 2 * |fn.params| + 3 && r.value[0] == MethodSignature(c, fn) + " {" &&
                       r.value[|r.value| - 2..] == ["}", ""] &&
                       forall i | 0 <= i < |fn.params| :: r.value[2 * i + 1] == DeclInt(fn.params[i]))
  {
    var st := new CodegenState();
    var params, vt := EmitParams(fn.params, map["self" := "pcc_class_" + c.name]);
    var body :- EmitBlock(st, fn.body, vt, false, "", "", {});
    var cleanup := ReleaseLocals(body.varTypes, MethodScope(fn.params));
    r := Ok(Assemble(MethodSignature(c, fn) + " {", params, body.lines + cleanup));
  }

  /** The arity map generate builds: a later definition of a name overrides an earlier one. */
  function SigsOf(fns: seq<FunctionDef>): map<string, int>
  {
    if fns == [] then map[] else SigsOf(fns[..|fns| - 1])[fns[|fns| - 1].name := |fns[|fns| - 1].params|]
  }

  /** The map holds every function name, and with distinct names each maps to its own arity. */
  lemma {:induction false} SigsOfDistinct(fns: seq<FunctionDef>)
    requires Distinct(seq(|fns|, i requires 0 <= i < |fns| => fns[i].name))
    ensures SigsOf(fns).Keys == set f | f in fns :: f.name
    ensures forall i | 0 <= i < |fns| :: SigsOf(fns)[fns[i].name] == |fns[i].params|
    decreases |fns|
  {
    if fns != [] {
      var init := fns[..|fns| - 1];
      var names := seq(|fns|, i requires 0 <= i < |fns| => fns[i].name);
      var initNames := seq(|init|, i requires 0 <= i < |init| => init[i].name);
      assert initNames == names[..|init|];
      assert Distinct(initNames);
      SigsOfDistinct(init);
      forall i | 0 <= i < |init|
        ensures init[i].name != fns[|fns| - 1].name
      {
        assert names[i] == init[i].name && names[|fns| - 1] == fns[|fns| - 1].name;
      }
      assert fns == init + [fns[|fns| - 1]];
    }
  }

  /** The loop of generate filling the arity map. */
  method BuildSigs(fns: seq<FunctionDef>) returns (sigs: map<string, int>)
    ensures sigs == SigsOf(fns)
  {
    sigs := map[];
    for i := 0 to |fns|
      invariant sigs == SigsOf(fns[..i])
    {
      assert fns[..i + 1][..i] == fns[..i];
      sigs := sigs[fns[i].name := |fns[i].params|];
    }
    assert fns[..|fns|] == fns;
  }

  /** The parts generate writes before the function definitions, class by class or function by
      function, and the whole head of the file that they make up. */
  function StructsText(cs: seq<ClassDef>): seq<string>
    decreases |cs|
  {
    if cs == [] then [] else StructsText(cs[..|cs| - 1]) + StructText(cs[|cs| - 1])
  }

  function LifecyclesText(cs: seq<ClassDef>): seq<string>
    decreases |cs|
  {
    if cs == [] then [] else LifecyclesText(cs[..|cs| - 1]) + ConstructorText(cs[|cs| - 1]) + DestructorText(cs[|cs| - 1])
  }

  function PrototypesText(fns: seq<FunctionDef>): seq<string>
  {
    seq(|fns|, i requires 0 <= i < |fns| => FunctionSignatureAsWritten(fns[i]) + ";")
  }

  function MethodPrototypesOf(c: ClassDef): seq<string>
  {
    seq(|c.methods|, j requires 0 <= j < |c.methods| => MethodSignature(c, c.methods[j]) + ";")
  }

  function MethodPrototypesText(cs: seq<ClassDef>): seq<string>
    decreases |cs|
  {
    if cs == [] then [] else MethodPrototypesText(cs[..|cs| - 1]) + MethodPrototypesOf(cs[|cs| - 1])
  }

  function HeadText(m: ModuleIR): seq<string>
  {
    Preamble + StructsText(m.classes) + PrototypesText(m.functions) + MethodPrototypesText(m.classes) + [""]
    + LifecyclesText(m.classes)
  }

  /** The prototypes generate writes for the functions, one per function in order. */
  method EmitPrototypes(fns: seq<FunctionDef>) returns (lines: seq<string>)
    ensures lines == PrototypesText(fns)
    ensures |lines| == |fns| && forall i | 0 <= i < |fns| :: lines[i] == FunctionSignatureAsWritten(fns[i]) + ";"
  {
    lines := [];
    for i := 0 to |fns|
      invariant |lines| == i && forall j | 0 <= j < i :: lines[j] == FunctionSignatureAsWritten(fns[j]) + ";"
    {
      lines := lines + [FunctionSignatureAsWritten(fns[i]) + ";"];
    }
    assert lines == PrototypesText(fns);
  }

  /** The prototypes of every method of every class, class by class. */
  method EmitMethodPrototypes(classes: seq<ClassDef>) returns (lines: seq<string>)
    ensures lines == MethodPrototypesText(classes)
    ensures forall i, j | 0 <= i < |classes| && 0 <= j < |classes[i].methods| ::
      MethodSignature(classes[i], classes[i].methods[j]) + ";" in lines
  {
    lines := [];
    for i := 0 to |classes|
      invariant lines == MethodPrototypesText(classes[..i])
    {
      var more := EmitClassPrototypes(classes[i]);
      lines := lines + more;
      assert classes[..i + 1][..i] == classes[..i];
    }
    assert classes[..|classes|] == classes;
    forall i, j | 0 <= i < |classes| && 0 <= j < |classes[i].methods|
      ensures MethodSignature(classes[i], classes[i].methods[j]) + ";" in lines
    {
      MethodPrototypeListed(classes, i, j);
    }
  }

  /** The prototypes of one class's methods, in order. */
  method EmitClassPrototypes(c: ClassDef) returns (lines: seq<string>)
    ensures lines == MethodPrototypesOf(c)
  {
    lines := [];
    for j := 0 to |c.methods|
      invariant lines == MethodPrototypesOf(c)[..j]
    {
      assert MethodPrototypesOf(c)[..j + 1] == MethodPrototypesOf(c)[..j] + [MethodSignature(c, c.methods[j]) + ";"];
      lines := lines + [MethodSignature(c, c.methods[j]) + ";"];
    }
    assert MethodPrototypesOf(c)[..|c.methods|] == MethodPrototypesOf(c);
  }

  /** Every method of every class has its prototype in the list. */
  lemma {:induction false} MethodPrototypeListed(cs: seq<ClassDef>, i: nat, j: nat)
    requires i < |cs| && j < |cs[i].methods|
    ensures MethodSignature(cs[i], cs[i].methods[j]) + ";" in MethodPrototypesText(cs)
    decreases |cs|
  {
    var init := cs[..|cs| - 1];
    if i == |cs| - 1 {
      assert MethodPrototypesOf(cs[i])[j] == MethodSignature(cs[i], cs[i].methods[j]) + ";";
    } else {
      assert init[i] == cs[i];
      MethodPrototypeListed(init, i, j);
    }
  }

  /** The struct of every class, then (later) its constructor and destructor. */
  method EmitStructs(classes: seq<ClassDef>) returns (lines: seq<string>)
    ensures lines == StructsText(classes)
    ensures forall i | 0 <= i < |classes| :: "} pcc_class_" + classes[i].name + ";" in lines
  {
    lines := [];
    for i := 0 to |classes|
      invariant lines == StructsText(classes[..i])
    {
      var more := EmitClassStruct(classes[i]);
      assert classes[..i + 1][..i] == classes[..i];
      lines := lines + more;
    }
    assert classes[..|classes|] == classes;
    forall i | 0 <= i < |classes|
      ensures "} pcc_class_" + classes[i].name + ";" in lines
    {
      StructListed(classes, i);
    }
  }

  /** Every class has its struct in the struct part. */
  lemma {:induction false} StructListed(cs: seq<ClassDef>, i: nat)
    requires i < |cs|
    ensures "} pcc_class_" + cs[i].name + ";" in StructsText(cs)
    decreases |cs|
  {
    var init := cs[..|cs| - 1];
    if i == |cs| - 1 {
      var t := StructText(cs[i]);
      assert t[|t| - 2] == "} pcc_class_" + cs[i].name + ";";
      assert StructsText(cs) == StructsText(init) + t;
    } else {
      assert init[i] == cs[i];
      StructListed(init, i);
    }
  }

  method EmitLifecycles(classes: seq<ClassDef>) returns (lines: seq<string>)
    ensures lines == LifecyclesText(classes)
    ensures forall i | 0 <= i < |classes| ::
      "static pcc_class_" + classes[i].name + "* pcc_new_" + classes[i].name + "(void) {" in lines &&
      "static void pcc_delete_" + classes[i].name + "(pcc_class_" + classes[i].name + "* obj) {" in lines
  {
    lines := [];
    for i := 0 to |classes|
      invariant lines == LifecyclesText(classes[..i])
    {
      var ctor := EmitClassConstructor(classes[i]);
      var dtor := EmitClassDestructor(classes[i]);
      assert classes[..i + 1][..i] == classes[..i];
      lines := lines + ctor + dtor;
    }
    assert classes[..|classes|] == classes;
    forall i | 0 <= i < |classes|
      ensures "static pcc_class_" + classes[i].name + "* pcc_new_" + classes[i].name + "(void) {" in lines
      ensures "static void pcc_delete_" + classes[i].name + "(pcc_class_" + classes[i].name + "* obj) {" in lines
    {
      LifecycleListed(classes, i);
    }
  }

  /** Every class has its constructor and its destructor in the lifecycle part. */
  lemma {:induction false} LifecycleListed(cs: seq<ClassDef>, i: nat)
    requires i < |cs|
    ensures "static pcc_class_" + cs[i].name + "* pcc_new_" + cs[i].name + "(void) {" in LifecyclesText(cs)
    ensures "static void pcc_delete_" + cs[i].name + "(pcc_class_" + cs[i].name + "* obj) {" in LifecyclesText(cs)
    decreases |cs|
  {
    var init := cs[..|cs| - 1];
    if i == |cs| - 1 {
      var ctor, dtor := ConstructorText(cs[i]), DestructorText(cs[i]);
      assert ctor[0] in ctor && dtor[0] in dtor;
      assert LifecyclesText(cs) == LifecyclesText(init) + ctor + dtor;
    } else {
      assert init[i] == cs[i];
      LifecycleListed(init, i);
    }
  }

  /** Every function's definition in order; the first that fails to lower fails the program. */
  method EmitFunctions(fns: seq<FunctionDef>) returns (r: Result<seq<string>, string>)
    ensures (exists i | 0 <= i < |fns| :: BlockJumps(fns[i].body, true) || BlockJumps(fns[i].body, false)) ==> r.Err?
    ensures r.Ok? ==> forall i | 0 <= i < |fns| :: FunctionSignatureAsWritten(fns[i]) + " {" in r.value
  {
    var lines := [];
    for i := 0 to |fns|
      invariant forall k | 0 <= k < i :: !(BlockJumps(fns[k].body, true) || BlockJumps(fns[k].body, false))
      invariant forall k | 0 <= k < i :: FunctionSignatureAsWritten(fns[k]) + " {" in lines
    {
      var more :- EmitFunction(fns[i]);
      assert more[0] in more;
      lines := lines + more;
    }
    r := Ok(lines);
  }

  /** Every method's definition, class by class. */
  method EmitMethods(classes: seq<ClassDef>) returns (r: Result<seq<string>, string>)
    ensures r.Ok? ==> forall i, j | 0 <= i < |classes| && 0 <= j < |classes[i].methods| ::
      MethodSignature(classes[i], classes[i].methods[j]) + " {" in r.value
  {
    var lines := [];
    for i := 0 to |classes|
      invariant forall k, j | 0 <= k < i && 0 <= j < |classes[k].methods| ::
        MethodSignature(classes[k], classes[k].methods[j]) + " {" in lines
    {
      var more :- EmitClassMethods(classes[i]);
      lines := lines + more;
    }
    r := Ok(lines);
  }

  /** The definitions of one class's methods, one after the other. */
  method EmitClassMethods(c: ClassDef) returns (r: Result<seq<string>, string>)
    ensures r.Ok? ==> DefinesMethods(c, r.value, |c.methods|)
  {
    var lines := [];
    for j := 0 to |c.methods|
      invariant DefinesMethods(c, lines, j)
    {
      var more :- EmitMethod(c, c.methods[j]);
      DefinesMethodsSnoc(c, lines, more, j);
      lines := lines + more;
    }
    r := Ok(lines);
  }

  /** The first j methods of c each have their definition's opening line in `lines`. */
  ghost predicate DefinesMethods(c: ClassDef, lines: seq<string>, j: int)
  {
    forall m | 0 <= m < j && m < |c.methods| :: MethodSignature(c, c.methods[m]) + " {" in lines
  }

  lemma DefinesMethodsSnoc(c: ClassDef, lines: seq<string>, more: seq<string>, j: nat)
    requires j < |c.methods| && DefinesMethods(c, lines, j)
    requires |more| > 0 && more[0] == MethodSignature(c, c.methods[j]) + " {"
    ensures DefinesMethods(c, lines + more, j + 1)
  {
    assert (lines + more)[|lines|] == more[0];
  }

  /** main: the top-level statements outside any loop, then the release of every local that is not
      an object, and `return 0`. */
  method EmitMain(main: seq<Stmt>) returns (r: Result<seq<string>, string>)
    ensures BlockJumps(main, true) || BlockJumps(main, false) ==> r.Err?
    ensures r.Ok? ==> |r.value| >= 3 && r.value[0] == "int main(void) {" && r.value[|r.value| - 2..] == ["    return 0;", "}"]
  {
    var st := new CodegenState();
    var body :- EmitBlock(st, main, map[], false, "", "", {});
    var cleanup := ReleaseLocals(body.varTypes, MainScope);
    var lines := ["int main(void) {"] + body.lines + cleanup + ["    return 0;", "}"];
    assert lines[|lines| - 2..] == ["    return 0;", "}"];
    r := Ok(lines);
  }

  const Preamble: seq<string> := ["// Generated by pcc MVP with BigInt support", "#include <stdio.h>", "#include <stdlib.h>",
                                  "#include <setjmp.h>", "#include \"runtime.h\"", ""]

  /** CodeGenerator.generate: preamble, structs, prototypes, constructors and destructors, function
      and method definitions, then main, whose objects are not released. */
  method Generate(m: ModuleIR) returns (r: Result<seq<string>, string>)
    ensures BlockJumps(m.main, true) || BlockJumps(m.main, false) ==> r.Err?
    ensures (exists i | 0 <= i < |m.functions| :: BlockJumps(m.functions[i].body, true) || BlockJumps(m.functions[i].body, false)) ==> r.Err?
    ensures r.Ok? ==> (|r.value| >= |Preamble| + 3 && r.value[..|Preamble|] == Preamble &&
                       r.value[|r.value| - 2..] == ["    return 0;", "}"] && "int main(void) {" in r.value &&
                       forall i | 0 <= i < |m.functions| :: FunctionSignatureAsWritten(m.functions[i]) + ";" in r.value)
    ensures r.Ok? ==> |HeadText(m)| <= |r.value| && r.value[..|HeadText(m)|] == HeadText(m)
  {
    var sigs := BuildSigs(m.functions);
    var head := EmitHead(m);
    var fns :- EmitFunctions(m.functions);
    var methods :- EmitMethods(m.classes);
    var main :- EmitMain(m.main);
    HeadShape(m);
    ProgramLayout(head, fns + methods, main);
    r := Ok(head + (fns + methods) + main);
  }

  /** The parts before the function definitions, in the order generate writes them. */
  method EmitHead(m: ModuleIR) returns (head: seq<string>)
    ensures head == HeadText(m)
  {
    var structs := EmitStructs(m.classes);
    var protos := EmitPrototypes(m.functions);
    var methodProtos := EmitMethodPrototypes(m.classes);
    var lifecycles := EmitLifecycles(m.classes);
    head := Preamble + structs + protos + methodProtos + [""] + lifecycles;
  }

  /** The head opens with the preamble and holds every function's prototype. */
  lemma HeadShape(m: ModuleIR)
    ensures |HeadText(m)| >= |Preamble| && HeadText(m)[..|Preamble|] == Preamble
    ensures forall i | 0 <= i < |m.functions| :: FunctionSignatureAsWritten(m.functions[i]) + ";" in HeadText(m)
  {
    var front := Preamble + StructsText(m.classes);
    var protos := PrototypesText(m.functions);
    var back := MethodPrototypesText(m.classes) + [""] + LifecyclesText(m.classes);
    assert HeadText(m) == front + protos + back;
    assert HeadText(m)[..|Preamble|] == front[..|Preamble|];
    forall i | 0 <= i < |m.functions|
      ensures FunctionSignatureAsWritten(m.functions[i]) + ";" in HeadText(m)
    {
      InMiddle(front, protos, back, i);
    }
  }

  /** Where the head and main end up in the assembled program. */
  lemma ProgramLayout(head: seq<string>, body: seq<string>, main: seq<string>)
    requires |main| >= 3
    ensures var lines := head + body + main;
      lines[..|head|] == head && (forall x | x in head :: x in lines) && main[0] in lines
      && lines[|lines| - 2..] == main[|main| - 2..]
  {
    var lines := head + body + main;
    InMiddle(head + body, main, [], 0);
    assert head + body + main + [] == lines;
    assert lines == head + (body + main);
  }

  lemma MemberInMiddle<T>(a: seq<T>, b: seq<T>, c: seq<T>, x: T)
    ensures x in b ==> x in a + b + c
  {
    if x in b {
      var i :| 0 <= i < |b| && b[i] == x;
      InMiddle(a, b, c, i);
    }
  }

  lemma InMiddle<T>(a: seq<T>, b: seq<T>, c: seq<T>, i: int)
    requires 0 <= i < |b|
    ensures b[i] in a + b + c
  {
    assert (a + b + c)[|a| + i] == b[i];
  }
}
