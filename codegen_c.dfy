/** The first C back end of pcc (pcc/codegen_c.py), over the legacy IR of LegacyFrontend.

    It has two halves.  The static half is a flow-sensitive type checker: `InferExprType` types an
    expression in an environment, and `InferStmt`/`InferSeq` thread the environment through a
    block, merging at branches and loops.  The emitting half lowers expressions and blocks to C
    lines, drawing temporaries from one global counter, here the field of an `Emitter`.  Lowering
    has type checks of its own, stated by `EmitType` and `StmtEmittable`; they are stricter than
    inference.  Generated lines are kept as text relative to the statement's own indentation: a
    nested body is indented as the source indents it, and the statement's own pad is left to the
    block that holds it. */
module CodegenC {
  import opened Wrappers
  import L = LegacyFrontend
  import Decimal
  import opened CInt

  datatype Ty = IntTy | StrTy | BoolTy

  function TyName(t: Ty): string
  {
    match t
    case IntTy => "int"
    case StrTy => "str"
    case BoolTy => "bool"
  }

  type TEnv = map<string, Ty>

  // ---------------------------------------------------------------------------------------------
  // Type inference

  /** `not` on an operand of type ot. */
  function NotType(ot: Ty): (r: Result<Ty, string>)
    ensures r.Ok? ==> r.value == BoolTy
  {
    if ot == StrTy then Err("Type error: 'not' only supports bool/int in this stage") else Ok(BoolTy)
  }

  /** `and`/`or`: bool or int operands. */
  function BoolOpType(op: string, lt: Ty, rt: Ty): (r: Result<Ty, string>)
    ensures r.Ok? ==> r.value == BoolTy
  {
    if lt == StrTy || rt == StrTy then Err("Type error: 'and/or' only supports bool/int in this stage")
    else if op != "and" && op != "or" then Err("Unsupported bool op: " + op)
    else Ok(BoolTy)
  }

  /** Comparisons: both int or both str. */
  function CmpType(lt: Ty, rt: Ty): Result<Ty, string>
  {
    if (lt == IntTy && rt == IntTy) || (lt == StrTy && rt == StrTy) then Ok(BoolTy)
    else Err("Type error: comparisons only supported on int or str (both operands must be same type)")
  }

  predicate IsIntArith(op: string) { op in {"-", "*", "**", "//", "%"} }

  /** Arithmetic: `+` on two ints or two strs, the rest on two ints. */
  function ArithType(op: string, lt: Ty, rt: Ty): Result<Ty, string>
  {
    if op == "+" then
      if lt == IntTy && rt == IntTy then Ok(IntTy)
      else if lt == StrTy && rt == StrTy then Ok(StrTy)
      else Err("Type error: '+' requires both int or both str")
    else if IsIntArith(op) then
      if lt == IntTy && rt == IntTy then Ok(IntTy)
      else Err("Type error: operator '" + op + "' only supports int")
    else Err("Unsupported operator: " + op)
  }

  /** The type of an expression; a name missing from the environment is a type error.  Calls are
      typed by name alone: `input` gives str and every other call int. */
  function InferExprType(e: L.Expr, tenv: TEnv): (r: Result<Ty, string>)
    ensures e.IntConst? ==> r == Ok(IntTy)
    ensures e.StrConst? ==> r == Ok(StrTy)
    ensures e.Var? ==> (r.Ok? <==> e.name in tenv) && (r.Ok? ==> r.value == tenv[e.name])
    ensures r.Ok? && r.value == BoolTy ==> e.UnaryOp? || e.BoolOp? || e.CmpOp? || e.Var?
    decreases e
  {
    match e
    case IntConst(_) => Ok(IntTy)
    case StrConst(_) => Ok(StrTy)
    case Var(x) =>
      if x !in tenv then Err("Type error: variable '" + x + "' used before assignment") else Ok(tenv[x])
    case Call(f, _) => if f == "input" then Ok(StrTy) else Ok(IntTy)
    case UnaryOp(op, x) =>
      if op != "not" then Err("Unsupported unary op: " + op)
      else
        var ot :- InferExprType(x, tenv);
        NotType(ot)
    case BoolOp(op, l, r) =>
      var lt :- InferExprType(l, tenv);
      var rt :- InferExprType(r, tenv);
      BoolOpType(op, lt, rt)
    case CmpOp(_, l, r) =>
      var lt :- InferExprType(l, tenv);
      var rt :- InferExprType(r, tenv);
      CmpType(lt, rt)
    case BinOp(op, l, r) =>
      var lt :- InferExprType(l, tenv);
      var rt :- InferExprType(r, tenv);
      ArithType(op, lt, rt)
  }

  /** `+` is int on two ints and str on two strs, and nothing else. */
  lemma PlusTyping(l: L.Expr, r: L.Expr, tenv: TEnv)
    ensures InferExprType(L.BinOp("+", l, r), tenv) == Ok(IntTy) <==>
      InferExprType(l, tenv) == Ok(IntTy) && InferExprType(r, tenv) == Ok(IntTy)
    ensures InferExprType(L.BinOp("+", l, r), tenv) == Ok(StrTy) <==>
      InferExprType(l, tenv) == Ok(StrTy) && InferExprType(r, tenv) == Ok(StrTy)
    ensures InferExprType(L.BinOp("+", l, r), tenv) != Ok(BoolTy)
  {
  }

  /** The other arithmetic operators need two ints and give an int. */
  lemma ArithTyping(op: string, l: L.Expr, r: L.Expr, tenv: TEnv)
    requires IsIntArith(op)
    ensures InferExprType(L.BinOp(op, l, r), tenv).Ok? <==>
      InferExprType(l, tenv) == Ok(IntTy) && InferExprType(r, tenv) == Ok(IntTy)
    ensures InferExprType(L.BinOp(op, l, r), tenv).Ok? ==> InferExprType(L.BinOp(op, l, r), tenv).value == IntTy
  {
  }

  /** A comparison is bool exactly on int/int or str/str. */
  lemma CompareTyping(op: string, l: L.Expr, r: L.Expr, tenv: TEnv)
    ensures InferExprType(L.CmpOp(op, l, r), tenv).Ok? <==>
      (InferExprType(l, tenv) == Ok(IntTy) && InferExprType(r, tenv) == Ok(IntTy)) ||
      (InferExprType(l, tenv) == Ok(StrTy) && InferExprType(r, tenv) == Ok(StrTy))
    ensures InferExprType(L.CmpOp(op, l, r), tenv).Ok? ==> InferExprType(L.CmpOp(op, l, r), tenv).value == BoolTy
  {
  }

  /** `not`, `and` and `or` take bool or int operands and give bool. */
  lemma LogicTyping(op: string, l: L.Expr, r: L.Expr, tenv: TEnv)
    requires op == "and" || op == "or"
    ensures InferExprType(L.UnaryOp("not", l), tenv).Ok? <==>
      InferExprType(l, tenv) == Ok(BoolTy) || InferExprType(l, tenv) == Ok(IntTy)
    ensures InferExprType(L.BoolOp(op, l, r), tenv).Ok? <==>
      InferExprType(l, tenv).Ok? && InferExprType(l, tenv).value != StrTy &&
      InferExprType(r, tenv).Ok? && InferExprType(r, tenv).value != StrTy
  {
  }

  /** b keeps every binding of a. */
  predicate Extends(a: TEnv, b: TEnv)
  {
    forall k | k in a :: k in b && b[k] == a[k]
  }

  /** Typing is stable under a larger environment. */
  lemma {:induction false} InferWeakening(e: L.Expr, t1: TEnv, t2: TEnv)
    requires InferExprType(e, t1).Ok? && Extends(t1, t2)
    ensures InferExprType(e, t2) == InferExprType(e, t1)
    decreases e
  {
    match e
    case UnaryOp(_, x) => InferWeakening(x, t1, t2);
    case BoolOp(_, l, r) => InferWeakening(l, t1, t2); InferWeakening(r, t1, t2);
    case CmpOp(_, l, r) => InferWeakening(l, t1, t2); InferWeakening(r, t1, t2);
    case BinOp(_, l, r) => InferWeakening(l, t1, t2); InferWeakening(r, t1, t2);
    case _ =>
  }

  /** Two environments merge when they agree on every shared name. */
  predicate Compatible(a: TEnv, b: TEnv)
  {
    forall k | k in a && k in b :: a[k] == b[k]
  }

  function Merge(a: TEnv, b: TEnv): (r: Result<TEnv, string>)
    ensures r.Ok? <==> Compatible(a, b)
    ensures r.Ok? ==> Extends(a, r.value) && Extends(b, r.value) && r.value.Keys == a.Keys + b.Keys
  {
    if Compatible(a, b) then Ok(a + b) else Err("Type error: variable assigned incompatible types")
  }

  /** The merge is symmetric. */
  lemma MergeCommutes(a: TEnv, b: TEnv)
    ensures Merge(a, b) == Merge(b, a)
  {
    if Compatible(a, b) {
      assert a + b == b + a;
    }
  }

  /** merge_tenv: the union of the two maps, failing on a name typed differently in each. */
  method MergeTenv(a: TEnv, b: TEnv) returns (r: Result<TEnv, string>)
    ensures r.Ok? <==> Compatible(a, b)
    ensures r.Ok? ==> r.value == a + b
  {
    var out := a;
    var remaining := b.Keys;
    while remaining != {}
      invariant remaining <= b.Keys
      invariant forall k | k in b.Keys - remaining :: k in a ==> a[k] == b[k]
      invariant out == a + map k | k in b.Keys - remaining :: b[k]
      decreases remaining
    {
      var k :| k in remaining;
      if k in out && out[k] != b[k] {
        return Err("Type error: variable '" + k + "' assigned incompatible types (" + TyName(out[k]) + " vs " +
                   TyName(b[k]) + ")");
      }
      out := out[k := b[k]];
      remaining := remaining - {k};
    }
    assert out == a + b;
    r := Ok(out);
  }

  const RangeArgsMsg := "Type error: range(start, stop, step) args must be int"

  /** The environment after one statement. */
  function InferStmt(s: L.Stmt, tenv: TEnv): Result<TEnv, string>
    decreases s
  {
    match s
    case Assign(x, e) =>
      var t :- InferExprType(e, tenv);
      if x in tenv && tenv[x] != t then
        Err("Type error: variable '" + x + "' reassigned from " + TyName(tenv[x]) + " to " + TyName(t))
      else Ok(tenv[x := t])
    case Print(e) =>
      var _ :- InferExprType(e, tenv);
      Ok(tenv)
    case Return(e) =>
      var t :- InferExprType(e, tenv);
      if t != IntTy then Err("Type error: return value must be int in this stage") else Ok(tenv)
    case If(test, b, o) =>
      var ct :- InferExprType(test, tenv);
      if ct == StrTy then Err("Type error: if condition must be int/bool")
      else
        var tb :- InferSeq(b, tenv);
        var te :- InferSeq(o, tenv);
        Merge(tb, te)
    case While(test, b) =>
      var ct :- InferExprType(test, tenv);
      if ct == StrTy then Err("Type error: while condition must be int/bool")
      else
        var tb :- InferSeq(b, tenv);
        Merge(tenv, tb)
    case ForRange(x, a, z, st, b, _) =>
      var ta :- InferExprType(a, tenv);
      if ta != IntTy then Err(RangeArgsMsg)
      else
        var tz :- InferExprType(z, tenv);
        if tz != IntTy then Err(RangeArgsMsg)
        else
          var ts :- InferExprType(st, tenv);
          if ts != IntTy then Err(RangeArgsMsg)
          else
            var tb :- InferSeq(b, tenv[x := IntTy]);
            Merge(tenv, tb)
    case Break(_) => Ok(tenv)
    case Continue(_) => Ok(tenv)
  }

  /** The environment after a block, statement by statement from the first. */
  function InferSeq(ss: seq<L.Stmt>, tenv: TEnv): Result<TEnv, string>
    decreases ss
  {
    if ss == [] then Ok(tenv)
    else
      var mid :- InferSeq(ss[..|ss| - 1], tenv);
      InferStmt(ss[|ss| - 1], mid)
  }

  lemma {:induction false} InferSeqErrPersists(ss: seq<L.Stmt>, i: nat, tenv: TEnv)
    requires i <= |ss| && InferSeq(ss[..i], tenv).Err?
    ensures InferSeq(ss, tenv).Err?
    decreases |ss| - i
  {
    if i < |ss| {
      assert ss[..i + 1][..i] == ss[..i];
      InferSeqErrPersists(ss, i + 1, tenv);
    } else {
      assert ss[..i] == ss;
    }
  }

  /** infer_stmt_types: a loop over the block, recursing into bodies. */
  method InferStmtTypes(stmts: seq<L.Stmt>, tenvIn: TEnv) returns (r: Result<TEnv, string>)
    ensures r.Ok? <==> InferSeq(stmts, tenvIn).Ok?
    ensures r.Ok? ==> r.value == InferSeq(stmts, tenvIn).value
    decreases stmts, 1
  {
    var tenv := tenvIn;
    var i := 0;
    while i < |stmts|
      invariant 0 <= i <= |stmts|
      invariant InferSeq(stmts[..i], tenvIn) == Ok(tenv)
    {
      assert stmts[..i + 1][..i] == stmts[..i];
      var next := InferOne(stmts[i], tenv);
      if next.Err? {
        InferSeqErrPersists(stmts, i + 1, tenvIn);
        return Err(next.error);
      }
      tenv := next.value;
      i := i + 1;
    }
    assert stmts[..i] == stmts;
    r := Ok(tenv);
  }

  /** One statement of infer_stmt_types' loop. */
  method InferOne(s: L.Stmt, tenv: TEnv) returns (r: Result<TEnv, string>)
    ensures r.Ok? <==> InferStmt(s, tenv).Ok?
    ensures r.Ok? ==> r.value == InferStmt(s, tenv).value
    decreases s, 0
  {
    match s
    case If(test, b, o) =>
      var ct :- InferExprType(test, tenv);
      if ct == StrTy {
        return Err("Type error: if condition must be int/bool");
      }
      var tb :- InferStmtTypes(b, tenv);
      var te :- InferStmtTypes(o, tenv);
      r := MergeTenv(tb, te);
    case While(test, b) =>
      var ct :- InferExprType(test, tenv);
      if ct == StrTy {
        return Err("Type error: while condition must be int/bool");
      }
      var tb :- InferStmtTypes(b, tenv);
      r := MergeTenv(tenv, tb);
    case ForRange(x, a, z, st, b, _) =>
      var ta :- InferExprType(a, tenv);
      if ta != IntTy {
        return Err(RangeArgsMsg);
      }
      var tz :- InferExprType(z, tenv);
      if tz != IntTy {
        return Err(RangeArgsMsg);
      }
      var ts :- InferExprType(st, tenv);
      if ts != IntTy {
        return Err(RangeArgsMsg);
      }
      var tb :- InferStmtTypes(b, tenv[x := IntTy]);
      r := MergeTenv(tenv, tb);
    case _ =>
      r := InferStmt(s, tenv);
  }

  /** The names a block assigns, loop variables included (_collect_assigned_vars). */
  function AssignedVars(ss: seq<L.Stmt>): set<string>
    decreases ss
  {
    if ss == [] then {} else AssignedVarsStmt(ss[0]) + AssignedVars(ss[1..])
  }

  function AssignedVarsStmt(s: L.Stmt): set<string>
    decreases s
  {
    match s
    case Assign(x, _) => {x}
    case If(_, b, o) => AssignedVars(b) + AssignedVars(o)
    case While(_, b) => AssignedVars(b)
    case ForRange(x, _, _, _, b, _) => {x} + AssignedVars(b)
    case _ => {}
  }

  lemma {:induction false} AssignedVarsAppend(a: seq<L.Stmt>, b: seq<L.Stmt>)
    ensures AssignedVars(a + b) == AssignedVars(a) + AssignedVars(b)
    decreases a
  {
    if a == [] {
      assert [] + b == b;
    } else {
      assert (a + b)[0] == a[0];
      assert (a + b)[1..] == a[1..] + b;
      AssignedVarsAppend(a[1..], b);
    }
  }

  /** The names the front end considers defined after a block are exactly those it assigns. */
  lemma {:induction false} DefinedAfterIsAssigned(ss: seq<L.Stmt>, d: set<string>)
    ensures L.DefinedAfterSeq(ss, d) == d + AssignedVars(ss)
    decreases ss
  {
    if ss != [] {
      DefinedAfterStmtIsAssigned(ss[0], d);
      DefinedAfterIsAssigned(ss[1..], L.DefinedAfter(ss[0], d));
    }
  }

  lemma {:induction false} DefinedAfterStmtIsAssigned(s: L.Stmt, d: set<string>)
    ensures L.DefinedAfter(s, d) == d + AssignedVarsStmt(s)
    decreases s
  {
    match s
    case If(_, b, o) => DefinedAfterIsAssigned(b, d); DefinedAfterIsAssigned(o, d);
    case While(_, b) => DefinedAfterIsAssigned(b, d);
    case ForRange(x, _, _, _, b, _) => DefinedAfterIsAssigned(b, d + {x});
    case _ =>
  }

  /** Inference never retypes a name: the result keeps every incoming binding. */
  lemma {:induction false} InferSeqExtends(ss: seq<L.Stmt>, tenv: TEnv)
    requires InferSeq(ss, tenv).Ok?
    ensures Extends(tenv, InferSeq(ss, tenv).value)
    decreases ss
  {
    if ss != [] {
      var mid := InferSeq(ss[..|ss| - 1], tenv).value;
      InferSeqExtends(ss[..|ss| - 1], tenv);
      InferStmtExtends(ss[|ss| - 1], mid);
    }
  }

  lemma {:induction false} InferStmtExtends(s: L.Stmt, tenv: TEnv)
    requires InferStmt(s, tenv).Ok?
    ensures Extends(tenv, InferStmt(s, tenv).value)
    decreases s
  {
    match s
    case If(_, b, o) => InferSeqExtends(b, tenv);
    case _ =>
  }

  /** Every name a block assigns is typed afterwards. */
  lemma {:induction false} InferSeqCoversAssigned(ss: seq<L.Stmt>, tenv: TEnv)
    requires InferSeq(ss, tenv).Ok?
    ensures AssignedVars(ss) <= InferSeq(ss, tenv).value.Keys
    decreases ss
  {
    if ss != [] {
      var init := ss[..|ss| - 1];
      var last := ss[|ss| - 1];
      var mid := InferSeq(init, tenv).value;
      assert ss == init + [last];
      AssignedVarsAppend(init, [last]);
      assert AssignedVars([last]) == AssignedVarsStmt(last) by {
        assert [last][1..] == [];
      }
      InferSeqCoversAssigned(init, tenv);
      InferStmtExtends(last, mid);
      InferStmtCoversAssigned(last, mid);
    }
  }

  lemma {:induction false} InferStmtCoversAssigned(s: L.Stmt, tenv: TEnv)
    requires InferStmt(s, tenv).Ok?
    ensures AssignedVarsStmt(s) <= InferStmt(s, tenv).value.Keys
    decreases s
  {
    match s
    case If(_, b, o) =>
      InferSeqCoversAssigned(b, tenv);
      InferSeqCoversAssigned(o, tenv);
    case While(_, b) =>
      InferSeqCoversAssigned(b, tenv);
    case ForRange(x, _, _, _, b, _) =>
      InferSeqCoversAssigned(b, tenv[x := IntTy]);
      InferSeqExtends(b, tenv[x := IntTy]);
    case _ =>
  }

  /** A for loop types its variable int. */
  lemma ForVarIsInt(s: L.Stmt, tenv: TEnv)
    requires s.ForRange? && InferStmt(s, tenv).Ok?
    ensures s.loopVar in InferStmt(s, tenv).value && InferStmt(s, tenv).value[s.loopVar] == IntTy
  {
    InferSeqExtends(s.body, tenv[s.loopVar := IntTy]);
  }

  /** The range bounds are typed start, stop, step in turn: the first one whose own inference
      fails passes its error on, and the first one typed other than int fails with the range
      message, before the body is looked at. */
  lemma RangeBoundsInOrder(s: L.Stmt, tenv: TEnv)
    requires s.ForRange?
    ensures InferExprType(s.start, tenv).Err? ==> InferStmt(s, tenv) == Err(InferExprType(s.start, tenv).error)
    ensures InferExprType(s.start, tenv) == Ok(IntTy) && InferExprType(s.stop, tenv).Err? ==>
              InferStmt(s, tenv) == Err(InferExprType(s.stop, tenv).error)
    ensures (InferExprType(s.start, tenv) == Ok(IntTy) && InferExprType(s.stop, tenv) == Ok(IntTy) &&
             InferExprType(s.step, tenv).Err?) ==> InferStmt(s, tenv) == Err(InferExprType(s.step, tenv).error)
    ensures InferStmt(s, tenv).Ok? ==>
              InferExprType(s.start, tenv) == InferExprType(s.stop, tenv) == InferExprType(s.step, tenv) == Ok(IntTy)
    ensures (exists t :: InferExprType(s.start, tenv) == Ok(t) && t != IntTy) ==> InferStmt(s, tenv) == Err(RangeArgsMsg)
  {
  }

  /** Whether a block contains a return, looking into if and while bodies (but not for bodies). */
  function HasReturn(ss: seq<L.Stmt>): bool
    decreases ss
  {
    if ss == [] then false
    else
      match ss[0]
      case Return(_) => true
      case If(_, b, o) => HasReturn(b) || HasReturn(o) || HasReturn(ss[1..])
      case While(_, b) => HasReturn(b) || HasReturn(ss[1..])
      case _ => HasReturn(ss[1..])
  }

  lemma {:induction false} HasReturnAppend(a: seq<L.Stmt>, b: seq<L.Stmt>)
    ensures HasReturn(a + b) == (HasReturn(a) || HasReturn(b))
    decreases a
  {
    if a == [] {
      assert [] + b == b;
    } else {
      assert (a + b)[0] == a[0];
      assert (a + b)[1..] == a[1..] + b;
      HasReturnAppend(a[1..], b);
    }
  }

  /** A return nested in a for loop is not seen. */
  lemma ForBodyNotSearched(x: string, a: L.Expr, z: L.Expr, st: L.Expr, e: L.Expr, line: int)
    ensures !HasReturn([L.ForRange(x, a, z, st, [L.Return(e)], line)])
    ensures HasReturn([L.While(L.IntConst(1), [L.Return(e)])])
  {
    assert [L.ForRange(x, a, z, st, [L.Return(e)], line)][1..] == [];
    assert [L.Return(e)][1..] == [];
  }

  // ---------------------------------------------------------------------------------------------
  // String literals

  function EscapeChar(c: char): string
  {
    if c == '\\' then "\\\\"
    else if c == '"' then "\\\""
    else if c == '\n' then "\\n"
    else if c == '\r' then "\\r"
    else if c == '\t' then "\\t"
    else [c]
  }

  function EscapeBody(s: string): string
    decreases s
  {
    if s == [] then "" else EscapeChar(s[0]) + EscapeBody(s[1..])
  }

  lemma {:induction false} EscapeBodyAppend(a: string, b: string)
    ensures EscapeBody(a + b) == EscapeBody(a) + EscapeBody(b)
    decreases a
  {
    if a == [] {
      assert [] + b == b;
    } else {
      assert (a + b)[0] == a[0];
      assert (a + b)[1..] == a[1..] + b;
      EscapeBodyAppend(a[1..], b);
    }
  }

  /** c_escape_string: each backslash, double quote, newline, carriage return and tab becomes its
      two-character escape, and the text is wrapped in double quotes. */
  method CEscapeString(s: string) returns (r: string)
    ensures r == "\"" + EscapeBody(s) + "\""
  {
    var out: string := "";
    var i := 0;
    while i < |s|
      invariant 0 <= i <= |s|
      invariant out == EscapeBody(s[..i])
    {
      assert s[..i + 1] == s[..i] + [s[i]];
      EscapeBodyAppend(s[..i], [s[i]]);
      assert EscapeBody([s[i]]) == EscapeChar(s[i]) by {
        assert [s[i]][1..] == [];
      }
      out := out + EscapeChar(s[i]);
      i := i + 1;
    }
    assert s[..i] == s;
    r := "\"" + out + "\"";
  }

  function UnescapeChar(c: char): char
  {
    if c == 'n' then '\n' else if c == 'r' then '\r' else if c == 't' then '\t' else c
  }

  /** Reads a C string body back: a backslash and the next character form one escape. */
  function Unescape(s: string): string
    decreases s
  {
    if s == [] then ""
    else if s[0] == '\\' && |s| >= 2 then [UnescapeChar(s[1])] + Unescape(s[2..])
    else [s[0]] + Unescape(s[1..])
  }

  /** Escaping loses nothing: reading the literal back gives the original text. */
  lemma {:induction false} EscapeRoundTrip(s: string)
    ensures Unescape(EscapeBody(s)) == s
    decreases s
  {
    if s != [] {
      var c := s[0];
      var rest := EscapeBody(s[1..]);
      var t := EscapeChar(c) + rest;
      EscapeRoundTrip(s[1..]);
      if |EscapeChar(c)| == 2 {
        assert t[0] == '\\' && t[1] == EscapeChar(c)[1] && t[2..] == rest;
      } else {
        assert t[0] == c && t[1..] == rest;
      }
    }
  }

  /** Whether a C string body holds a double quote that no backslash escapes: such a quote ends the
      literal there and leaves the rest of the text outside it. */
  predicate ClosesEarly(s: string)
    decreases s
  {
    if s == [] then false
    else if s[0] == '\\' && |s| >= 2 then ClosesEarly(s[2..])
    else s[0] == '"' || ClosesEarly(s[1..])
  }

  /** An escaped body never ends its literal early. */
  lemma {:induction false} EscapeNeverClosesEarly(s: string)
    ensures !ClosesEarly(EscapeBody(s))
    decreases s
  {
    if s != [] {
      var c := s[0];
      var rest := EscapeBody(s[1..]);
      var t := EscapeChar(c) + rest;
      EscapeNeverClosesEarly(s[1..]);
      if |EscapeChar(c)| == 2 {
        assert t[0] == '\\' && t[2..] == rest;
      } else {
        assert t[0] == c && c != '"' && t[1..] == rest;
      }
    }
  }

  /** The body of a literal holds no raw newline, carriage return or tab. */
  lemma {:induction false} EscapeNoControls(s: string)
    ensures forall i | 0 <= i < |EscapeBody(s)| :: EscapeBody(s)[i] != '\n' && EscapeBody(s)[i] != '\r' && EscapeBody(s)[i] != '\t'
    decreases s
  {
    if s != [] {
      EscapeNoControls(s[1..]);
      var h := EscapeChar(s[0]);
      var t := EscapeBody(s[1..]);
      assert EscapeBody(s) == h + t;
      forall i | 0 <= i < |h + t|
        ensures (h + t)[i] != '\n' && (h + t)[i] != '\r' && (h + t)[i] != '\t'
      {
        if i >= |h| {
          assert (h + t)[i] == t[i - |h|];
        }
      }
    }
  }

  // ---------------------------------------------------------------------------------------------
  // Lowering

  /** pcc_tmp_<prefix>_<n>. */
  function TmpName(prefix: string, n: nat): string
  {
    "pcc_tmp_" + prefix + "_" + Decimal.NatToString(n)
  }

  predicate NoUnderscore(s: string) { forall i | 0 <= i < |s| :: s[i] != '_' }

  lemma DigitsNoUnderscore(n: nat)
    ensures NoUnderscore(Decimal.NatToString(n))
  {
    Decimal.NatToStringShape(n);
  }

  /** The underscore joining two underscore-free parts is the only one. */
  lemma OnlyUnderscore(p: string, d: string, i: int)
    requires NoUnderscore(p) && NoUnderscore(d)
    requires 0 <= i < |p + "_" + d| && (p + "_" + d)[i] == '_'
    ensures i == |p|
  {
  }

  /** Where neither part holds an underscore, `p + "_" + d` splits at its only underscore. */
  lemma SplitAtUnderscore(p1: string, d1: string, p2: string, d2: string)
    requires NoUnderscore(p1) && NoUnderscore(p2) && NoUnderscore(d1) && NoUnderscore(d2)
    requires p1 + "_" + d1 == p2 + "_" + d2
    ensures p1 == p2 && d1 == d2
  {
    var s := p1 + "_" + d1;
    assert s[|p1|] == '_';
    OnlyUnderscore(p2, d2, |p1|);
    assert p1 == s[..|p1|];
    assert p2 == s[..|p2|];
    assert d1 == s[|p1| + 1..];
    assert d2 == s[|p2| + 1..];
  }

  /** Distinct counter values give distinct temporaries, whatever their (underscore-free) prefixes. */
  lemma TmpNameInjective(p1: string, n1: nat, p2: string, n2: nat)
    requires NoUnderscore(p1) && NoUnderscore(p2)
    requires TmpName(p1, n1) == TmpName(p2, n2)
    ensures p1 == p2 && n1 == n2
  {
    var d1 := Decimal.NatToString(n1);
    var d2 := Decimal.NatToString(n2);
    DigitsNoUnderscore(n1);
    DigitsNoUnderscore(n2);
    var head := "pcc_tmp_";
    assert TmpName(p1, n1) == head + (p1 + "_" + d1);
    assert TmpName(p2, n2) == head + (p2 + "_" + d2);
    assert p1 + "_" + d1 == TmpName(p1, n1)[|head|..];
    assert p2 + "_" + d2 == TmpName(p2, n2)[|head|..];
    SplitAtUnderscore(p1, d1, p2, d2);
    Decimal.NatToStringInjective(n1, n2);
  }

  /** What an expression lowers to: its type, the C text naming its value, the lines computing it
      and those releasing it, whether the caller owns (must release) it, and whether the text is
      already a pointer. */
  datatype Emitted = Emitted(kind: Ty, code: string, pre: seq<string>, post: seq<string>, owns: bool, isPtr: bool)

  function Ref(code: string, isPtr: bool): string
  {
    if isPtr then code else "&" + code
  }

  function Indented(ls: seq<string>): (r: seq<string>)
    ensures |r| == |ls| && forall i | 0 <= i < |ls| :: r[i] == "    " + ls[i]
  {
    seq(|ls|, i requires 0 <= i < |ls| => "    " + ls[i])
  }

  function IfOwned(owns: bool, ls: seq<string>): seq<string>
  {
    if owns then ls else []
  }

  /** The runtime routine for an int operator. */
  function IntOpRoutine(op: string): Option<string>
  {
    if op == "+" then Some("rt_int_add")
    else if op == "-" then Some("rt_int_sub")
    else if op == "*" then Some("rt_int_mul")
    else if op == "**" then Some("rt_int_pow")
    else if op == "//" then Some("rt_int_floordiv")
    else if op == "%" then Some("rt_int_mod")
    else None
  }

  predicate IsCompareOp(op: string) { op in {"==", "!=", "<", "<=", ">", ">="} }

  predicate StartsWith(s: string, p: string) { |p| <= |s| && s[..|p|] == p }

  predicate EndsWith(s: string, p: string) { |p| <= |s| && s[|s| - |p|..] == p }

  /** A call text: its opening, its arguments, its closing. */
  function Framed(head: string, args: string, tail: string): (code: string)
    ensures StartsWith(code, head) && EndsWith(code, tail)
  {
    var code := head + args + tail;
    assert code[..|head|] == head && code[|code| - |tail|..] == tail;
    code
  }

  /** `not`: a bool negated as it is, an int through rt_int_truthy, a string refused. */
  function NotEmitted(o: Emitted): (r: Result<Emitted, string>)
    ensures r.Ok? <==> NotType(o.kind).Ok?
    ensures r.Ok? ==> r.value.kind == BoolTy && !r.value.owns && r.value.pre == o.pre
  {
    var post := IfOwned(o.owns, o.post);
    if o.kind == BoolTy then Ok(Emitted(BoolTy, "(!(" + o.code + "))", o.pre, post, false, false))
    else if o.kind == IntTy then Ok(Emitted(BoolTy, "(!rt_int_truthy(" + Ref(o.code, o.isPtr) + "))", o.pre, post, false, false))
    else Err("Type error: 'not' only supports bool/int in this stage")
  }

  /** `and`/`or` into the flag bvar, refusing a string on the left, then an operator other than
      the two, then a string on the right; the flag is a borrowed boolean. */
  function BoolOpEmitted(bvar: string, bop: string, lt: Emitted, rt: Emitted): (r: Result<Emitted, string>)
    ensures r.Ok? <==> BoolOpType(bop, lt.kind, rt.kind).Ok?
    ensures r.Ok? ==> r.value.kind == BoolTy && !r.value.owns && r.value.code == bvar && r.value.post == []
  {
    if lt.kind == StrTy then Err("Type error: 'and/or' only supports bool/int in this stage")
    else if bop != "and" && bop != "or" then Err("Unsupported bool op: " + bop)
    else if rt.kind == StrTy then Err("Type error: 'and/or' only supports bool/int in this stage")
    else Ok(Emitted(BoolTy, bvar, BoolOpLines(bvar, bop == "and", lt, rt), [], false, false))
  }

  /** The lines of a short-circuit `and`/`or` into the flag bvar: the flag cleared, the left
      operand's lines and its truth into the flag, then, only while the flag is set (`and`) or
      clear (`or`), the right operand's lines and its truth into the flag. */
  function BoolOpLines(bvar: string, isAnd: bool, lt: Emitted, rt: Emitted): seq<string>
  {
    ["int " + bvar + " = 0;"] + lt.pre
    + [if lt.kind == BoolTy then bvar + " = (" + lt.code + ") ? 1 : 0;"
       else bvar + " = rt_int_truthy(" + Ref(lt.code, lt.isPtr) + ");"]
    + IfOwned(lt.owns, lt.post)
    + [if isAnd then "if (" + bvar + ") {" else "if (!" + bvar + ") {"] + Indented(rt.pre)
    + [if rt.kind == BoolTy then "    " + bvar + " = (" + rt.code + ") ? 1 : 0;"
       else "    " + bvar + " = rt_int_truthy(" + Ref(rt.code, rt.isPtr) + ");"]
    + Indented(IfOwned(rt.owns, rt.post)) + ["}"]
  }

  /** What a comparison leaves: a borrowed boolean, the sign of rt_str_eq for strings and of
      rt_int_cmp otherwise, compared with 0 by the source's operator. */
  predicate CmpShape(em: Emitted, strings: bool, cop: string)
  {
    em.kind == BoolTy && !em.owns
    && StartsWith(em.code, if strings then "(rt_str_eq(" else "(rt_int_cmp(")
    && EndsWith(em.code, ") " + cop + " 0)")
  }

  /** What a binary operation leaves: an owned temporary, for strings made by rt_str_concat as
      the last line before it and freed as the last line after it, for ints declared and
      initialised, then computed by the operator's routine as the last two lines before it, and
      cleared as the last line after it. */
  predicate BinOpShape(em: Emitted, op: string)
  {
    em.owns
    && (em.kind == StrTy ==>
          em.pre != [] && StartsWith(em.pre[|em.pre| - 1], "rt_str " + em.code + " = rt_str_concat(")
          && em.post != [] && em.post[|em.post| - 1] == "rt_str_free(&" + em.code + ");")
    && (em.kind != StrTy ==>
          IntOpRoutine(op).Some? && |em.pre| >= 2
          && em.pre[|em.pre| - 2] == "rt_int " + em.code + "; rt_int_init(&" + em.code + ");"
          && StartsWith(em.pre[|em.pre| - 1], IntOpRoutine(op).value + "(&" + em.code + ", ")
          && em.post != [] && em.post[|em.post| - 1] == "rt_int_clear(&" + em.code + ");")
  }

  /** The lines of a binary operation into the temporary t: the operands' lines, then for two
      strings the rt_str_concat into t, freed afterwards, and for two ints t's declaration and
      initialisation and the runtime routine of the operator into it, cleared afterwards. */
  function BinOpEmitted(kind: Ty, op: string, t: string, lt: Emitted, rt: Emitted, post: seq<string>): (em: Emitted)
    requires kind == StrTy || IntOpRoutine(op).Some?
    ensures em.kind == kind && em.code == t && BinOpShape(em, op)
  {
    if kind == StrTy then
      var line := Framed("rt_str " + t + " = rt_str_concat(", lt.code + ", " + rt.code, ");");
      Emitted(StrTy, t, lt.pre + rt.pre + [line], post + ["rt_str_free(&" + t + ");"], true, false)
    else
      var line := Framed(IntOpRoutine(op).value + "(&" + t + ", ", Ref(lt.code, lt.isPtr) + ", " + Ref(rt.code, rt.isPtr), ");");
      var init := "rt_int " + t + "; rt_int_init(&" + t + ");";
      Emitted(kind, t, lt.pre + rt.pre + [init, line], post + ["rt_int_clear(&" + t + ");"], true, false)
  }

  /** Comparison lowering: strings by `==`/`!=` only, ints by the six comparisons. */
  function EmitCmpType(op: string, lt: Ty, rt: Ty): (r: Result<Ty, string>)
    ensures r.Ok? ==> r.value == BoolTy
  {
    if lt == StrTy && rt == StrTy then
      if op == "==" || op == "!=" then Ok(BoolTy) else Err("Unsupported compare op for strings: " + op)
    else if lt == IntTy && rt == IntTy then
      if IsCompareOp(op) then Ok(BoolTy) else Err("Unsupported compare op: " + op)
    else Err("Type error: comparisons only supported on int or str (both operands must be same type)")
  }

  /** Arithmetic lowering: `+` on two strs, a runtime routine on two ints, and never `//` or `%`
      by a literal 0. */
  function EmitArithType(op: string, lt: Ty, rt: Ty, zeroDivisor: bool): (r: Result<Ty, string>)
    ensures r.Ok? ==> r.value == lt == rt && r.value != BoolTy
    ensures r.Ok? && r.value == IntTy ==> IntOpRoutine(op).Some?
    ensures op == "+" && !(lt == rt == StrTy) && !(lt == rt == IntTy) ==>
              r == Err("Type error: '+' requires both int or both str")
  {
    if op == "+" && lt == StrTy && rt == StrTy then Ok(StrTy)
    else if lt == IntTy && rt == IntTy then
      if IntOpRoutine(op).None? then Err("Unsupported op: " + op)
      else if (op == "//" || op == "%") && zeroDivisor then Err("Division by zero in '" + op + "' at line ?")
      else Ok(IntTy)
    else if op == "+" then Err("Type error: '+' requires both int or both str")
    else Err("Type error: operator '" + op + "' only supports int (or str+str for '+')")
  }

  /** A call other than `input`, `len` and `int`: int arguments, and either `pow` with at least
      two or a user function with a C name. */
  function IntCallType(f: string, allInt: bool, n: nat, fnSym: map<string, string>): (r: Result<Ty, string>)
    ensures r.Ok? ==> r.value == IntTy && allInt
  {
    if !allInt then Err("Type error: function arguments must be int in this stage")
    else if f == "pow" then if n >= 2 then Ok(IntTy) else Err("IndexError: list index out of range")
    else if f in fnSym then Ok(IntTy)
    else Err("KeyError: " + f)
  }

  /** The checks lowering makes, as the type each expression lowers at.  Names need a type and a C
      name, user calls a C function name; `input(p)` needs a str prompt, `len` and `int` one str;
      every other call int arguments (and `pow` at least two); strings compare only by `==`/`!=`;
      `//` and `%` by a literal 0 are rejected. */
  function EmitType(e: L.Expr, tenv: TEnv, sym: map<string, string>, fnSym: map<string, string>): (r: Result<Ty, string>)
    ensures e.BinOp? && (e.op == "//" || e.op == "%") && e.right == L.IntConst(0) ==> r.Err?
    decreases e
  {
    match e
    case IntConst(_) => Ok(IntTy)
    case StrConst(_) => Ok(StrTy)
    case Var(x) => if x in tenv && x in sym then Ok(tenv[x]) else Err("KeyError: " + x)
    case Call(f, args) =>
      if f == "input" then
        if |args| == 0 || (|args| == 1 && EmitType(args[0], tenv, sym, fnSym) == Ok(StrTy)) then Ok(StrTy)
        else Err("input() takes a single str prompt")
      else if f == "len" || f == "int" then
        if |args| == 1 && EmitType(args[0], tenv, sym, fnSym) == Ok(StrTy) then Ok(IntTy)
        else Err(f + "() expects exactly 1 str argument")
      else IntCallType(f, forall a | a in args :: EmitType(a, tenv, sym, fnSym) == Ok(IntTy), |args|, fnSym)
    case UnaryOp(_, x) =>
      var ot :- EmitType(x, tenv, sym, fnSym);
      NotType(ot)
    case BoolOp(op, l, r) =>
      var lt :- EmitType(l, tenv, sym, fnSym);
      var rt :- EmitType(r, tenv, sym, fnSym);
      BoolOpType(op, lt, rt)
    case CmpOp(op, l, r) =>
      var lt :- EmitType(l, tenv, sym, fnSym);
      var rt :- EmitType(r, tenv, sym, fnSym);
      EmitCmpType(op, lt, rt)
    case BinOp(op, l, r) =>
      var lt :- EmitType(l, tenv, sym, fnSym);
      var rt :- EmitType(r, tenv, sym, fnSym);
      EmitArithType(op, lt, rt, r == L.IntConst(0))
  }

  /** The booleans of lowering are exactly the logical operators (and bool-typed names). */
  lemma EmitBoolKinds(e: L.Expr, tenv: TEnv, sym: map<string, string>, fnSym: map<string, string>)
    requires EmitType(e, tenv, sym, fnSym).Ok?
    ensures EmitType(e, tenv, sym, fnSym).value == BoolTy <==>
      e.UnaryOp? || e.BoolOp? || e.CmpOp? || (e.Var? && tenv[e.name] == BoolTy)
  {
    match e
    case Call(f, args) =>
      if f == "input" {
        assert EmitType(e, tenv, sym, fnSym) == Ok(StrTy);
      } else if f == "len" || f == "int" {
        assert EmitType(e, tenv, sym, fnSym) == Ok(IntTy);
      } else {
        var allInt := forall a | a in args :: EmitType(a, tenv, sym, fnSym) == Ok(IntTy);
        assert EmitType(e, tenv, sym, fnSym) == IntCallType(f, allInt, |args|, fnSym);
      }
    case BinOp(op, l, r) =>
      var lt, rt := EmitType(l, tenv, sym, fnSym), EmitType(r, tenv, sym, fnSym);
      assert lt.Ok? && rt.Ok? && EmitType(e, tenv, sym, fnSym) == EmitArithType(op, lt.value, rt.value, r == L.IntConst(0));
    case BoolOp(op, l, r) =>
      var lt, rt := EmitType(l, tenv, sym, fnSym), EmitType(r, tenv, sym, fnSym);
      assert lt.Ok? && rt.Ok? && EmitType(e, tenv, sym, fnSym) == BoolOpType(op, lt.value, rt.value);
    case CmpOp(op, l, r) =>
      var lt, rt := EmitType(l, tenv, sym, fnSym), EmitType(r, tenv, sym, fnSym);
      assert lt.Ok? && rt.Ok? && EmitType(e, tenv, sym, fnSym) == EmitCmpType(op, lt.value, rt.value);
    case UnaryOp(_, x) =>
      var ot := EmitType(x, tenv, sym, fnSym);
      assert ot.Ok? && EmitType(e, tenv, sym, fnSym) == NotType(ot.value);
    case Var(x) =>
      assert EmitType(e, tenv, sym, fnSym) == Ok(tenv[x]);
    case IntConst(_) =>
      assert EmitType(e, tenv, sym, fnSym) == Ok(IntTy);
    case StrConst(_) =>
      assert EmitType(e, tenv, sym, fnSym) == Ok(StrTy);
  }

  lemma ArithRefines(op: string, lt: Ty, rt: Ty, zero: bool)
    requires EmitArithType(op, lt, rt, zero).Ok?
    ensures ArithType(op, lt, rt) == EmitArithType(op, lt, rt, zero)
  {
  }

  lemma CmpRefines(op: string, lt: Ty, rt: Ty)
    requires EmitCmpType(op, lt, rt).Ok?
    ensures CmpType(lt, rt) == EmitCmpType(op, lt, rt)
  {
  }

  /** Every `UnaryOp` in e is `not`, as the front end produces. */
  predicate NotIsOnlyUnary(e: L.Expr)
    decreases e
  {
    match e
    case UnaryOp(op, x) => op == "not" && NotIsOnlyUnary(x)
    case BoolOp(_, l, r) => NotIsOnlyUnary(l) && NotIsOnlyUnary(r)
    case CmpOp(_, l, r) => NotIsOnlyUnary(l) && NotIsOnlyUnary(r)
    case BinOp(_, l, r) => NotIsOnlyUnary(l) && NotIsOnlyUnary(r)
    case _ => true
  }

  /** Lowering is stricter than inference: what lowers has the type inference gives it. */
  lemma {:induction false} LoweringRefinesInference(e: L.Expr, tenv: TEnv, sym: map<string, string>, fnSym: map<string, string>)
    requires EmitType(e, tenv, sym, fnSym).Ok? && NotIsOnlyUnary(e)
    ensures InferExprType(e, tenv) == EmitType(e, tenv, sym, fnSym)
    decreases e
  {
    match e
    case UnaryOp(_, x) => LoweringRefinesInference(x, tenv, sym, fnSym);
    case BoolOp(_, l, r) => LoweringRefinesInference(l, tenv, sym, fnSym); LoweringRefinesInference(r, tenv, sym, fnSym);
    case CmpOp(op, l, r) =>
      LoweringRefinesInference(l, tenv, sym, fnSym);
      LoweringRefinesInference(r, tenv, sym, fnSym);
      CmpRefines(op, EmitType(l, tenv, sym, fnSym).value, EmitType(r, tenv, sym, fnSym).value);
    case BinOp(op, l, r) =>
      LoweringRefinesInference(l, tenv, sym, fnSym);
      LoweringRefinesInference(r, tenv, sym, fnSym);
      ArithRefines(op, EmitType(l, tenv, sym, fnSym).value, EmitType(r, tenv, sym, fnSym).value, r == L.IntConst(0));
    case _ =>
  }

  /** The checks lowering makes on a statement: an assignment's value has the variable's type, if
      and while tests are bool (inference also admits int), range arguments and return values are
      int, `break`/`continue` sit inside a loop, and every name needed has a C name. */
  predicate StmtEmittable(s: L.Stmt, tenv: TEnv, sym: map<string, string>, fnSym: map<string, string>, depth: int,
                          locals: seq<string>)
    decreases s
  {
    match s
    case Assign(x, e) => x in tenv && EmitType(e, tenv, sym, fnSym) == Ok(tenv[x]) && x in sym
    case Print(e) => EmitType(e, tenv, sym, fnSym).Ok?
    case If(t, b, o) =>
      EmitType(t, tenv, sym, fnSym) == Ok(BoolTy) &&
      BlockEmittable(b, tenv, sym, fnSym, depth, locals) && BlockEmittable(o, tenv, sym, fnSym, depth, locals)
    case While(t, b) => EmitType(t, tenv, sym, fnSym) == Ok(BoolTy) && BlockEmittable(b, tenv, sym, fnSym, depth + 1, locals)
    case ForRange(x, a, z, st, b, _) =>
      x in sym && EmitType(a, tenv, sym, fnSym) == Ok(IntTy) && EmitType(z, tenv, sym, fnSym) == Ok(IntTy) &&
      EmitType(st, tenv, sym, fnSym) == Ok(IntTy) && BlockEmittable(b, tenv, sym, fnSym, depth + 1, locals)
    case Return(e) => EmitType(e, tenv, sym, fnSym) == Ok(IntTy) && forall v | v in locals :: v in sym
    case Break(_) => depth > 0
    case Continue(_) => depth > 0
  }

  /** A range loop is lowered when its variable has a C name, its three bounds are int and its
      body is lowered one loop deeper. */
  lemma ForEmittable(s: L.Stmt, tenv: TEnv, sym: map<string, string>, fnSym: map<string, string>, depth: int,
                     locals: seq<string>)
    requires s.ForRange?
    ensures StmtEmittable(s, tenv, sym, fnSym, depth, locals) <==>
      s.loopVar in sym && EmitType(s.start, tenv, sym, fnSym) == Ok(IntTy) && EmitType(s.stop, tenv, sym, fnSym) == Ok(IntTy) &&
      EmitType(s.step, tenv, sym, fnSym) == Ok(IntTy) && BlockEmittable(s.body, tenv, sym, fnSym, depth + 1, locals)
  {
  }

  predicate BlockEmittable(ss: seq<L.Stmt>, tenv: TEnv, sym: map<string, string>, fnSym: map<string, string>, depth: int,
                           locals: seq<string>)
    decreases ss
  {
    forall i | 0 <= i < |ss| :: StmtEmittable(ss[i], tenv, sym, fnSym, depth, locals)
  }

  /** An int condition passes inference but not lowering. */
  lemma IntConditionOnlyInferred(tenv: TEnv, sym: map<string, string>, fnSym: map<string, string>, locals: seq<string>)
    ensures InferStmt(L.If(L.IntConst(1), [], []), tenv).Ok?
    ensures !StmtEmittable(L.If(L.IntConst(1), [], []), tenv, sym, fnSym, 0, locals)
  {
    assert Merge(tenv, tenv).Ok?;
  }

  function ClearLine(v: string, tenv: TEnv, sym: map<string, string>): string
    requires v in sym
  {
    if v !in tenv || tenv[v] == IntTy then "rt_int_clear(&" + sym[v] + ");" else "rt_str_free(&" + sym[v] + ");"
  }

  /** How an int literal lowers into temporary t: `rt_int_set_si` with an `LL` literal when it fits
      in a signed 64-bit integer, `rt_int_from_dec` with its decimal text otherwise. */
  function IntConstEmitted(t: string, v: int): Emitted
  {
    Emitted(IntTy, t,
            ["rt_int " + t + "; rt_int_init(&" + t + ");",
             if InInt64(v) then "rt_int_set_si(&" + t + ", " + Decimal.IntToString(v) + "LL);"
             else "rt_int_from_dec(&" + t + ", \"" + EscapeBody(Decimal.IntToString(v)) + "\");"],
            ["rt_int_clear(&" + t + ");"], true, false)
  }

  // -----------------------------------------------------------------------------------------------
  // The lines of each statement, around the lowered expressions and bodies

  /** `print(e)`: the value's lines, then rt_print_int for an int, rt_print_str for a str and
      True/False through printf for a bool, then the value's release. */
  function PrintLines(ex: Emitted): seq<string>
  {
    ex.pre +
    [if ex.kind == IntTy then "rt_print_int(" + Ref(ex.code, ex.isPtr) + ");"
     else if ex.kind == StrTy then "rt_print_str(" + ex.code + ");"
     else "printf(\"%s\\n\", (" + ex.code + ") ? \"True\" : \"False\");"] +
    ex.post
  }

  /** `x = e` into x's C variable dst: an int copied into it; a str's old text freed and the new
      one stored, with the value's release dropped when it was an owned temporary (it moves). */
  function AssignLines(t: Ty, dst: string, ex: Emitted): seq<string>
  {
    if t == IntTy then ex.pre + ["rt_int_copy(&" + dst + ", " + Ref(ex.code, ex.isPtr) + ");"] + ex.post
    else ex.pre + ["rt_str_free(&" + dst + ");", dst + " = " + ex.code + ";"] + (if ex.owns then [] else ex.post)
  }

  /** The release of each local, in the given order. */
  function ClearLines(locals: seq<string>, tenv: TEnv, sym: map<string, string>): (r: seq<string>)
    requires forall v | v in locals :: v in sym
    ensures |r| == |locals| && forall i | 0 <= i < |locals| :: r[i] == ClearLine(locals[i], tenv, sym)
  {
    seq(|locals|, i requires 0 <= i < |locals| => ClearLine(locals[i], tenv, sym))
  }

  /** `return e`: the value copied into `__pcc_out` and released, every local released, then
      `return;`. */
  function ReturnLines(ex: Emitted, clears: seq<string>): seq<string>
  {
    ex.pre + ["rt_int_copy(__pcc_out, " + Ref(ex.code, ex.isPtr) + ");"] + ex.post + clears + ["return;"]
  }

  /** An if: the test's lines, the braced body, the braced else part when there is one, and the
      test's release after both. */
  function IfLines(ex: Emitted, body: seq<string>, hasElse: bool, other: seq<string>): seq<string>
  {
    ex.pre + ["if (" + ex.code + ") {"] + Indented(body) + ["}"] + (if hasElse then ["else {"] + Indented(other) + ["}"] else []) + ex.post
  }

  /** `while (1)`: each round computes the test into the int condVar, releases its temporaries,
      and breaks out when it is false; then the body and the closing brace. */
  function WhileLines(ex: Emitted, condVar: string, body: seq<string>): seq<string>
  {
    ["while (1) {"] + Indented(ex.pre) + ["    int " + condVar + " = (" + ex.code + ");"] + Indented(ex.post) +
    ["    if (!" + condVar + ") {", "        break;", "    }"] + Indented(body) + ["}"]
  }

  /** A range loop: the bounds converted, the ascending loop around one copy of the body, the
      descending loop around the other, and the closing braces. */
  function ForLines(a: Emitted, z: Emitted, p: Emitted, tmp: string, ivar: string, up: seq<string>,
                    down: seq<string>): seq<string>
  {
    RangeHead(a, z, p, tmp, ivar) + LoopBody(up) + RangeTurn(tmp, ivar) + LoopBody(down) + ["        }", "    }", "}"]
  }

  /** A range loop's body sits sixteen spaces in, inside the `if` on the step's sign and its `for`. */
  function LoopBody(ls: seq<string>): (r: seq<string>)
    ensures |r| == |ls| && forall i | 0 <= i < |ls| :: r[i] == "                " + ls[i]
  {
    seq(|ls|, i requires 0 <= i < |ls| => "                " + ls[i])
  }

  /** The lines a statement lowers to, for some lowering of its expressions: one of the shapes
      above, with the bodies of if, while and for lowered as blocks. */
  ghost predicate StmtLines(s: L.Stmt, lines: seq<string>, tenv: TEnv, sym: map<string, string>, fnSym: map<string, string>,
                            locals: seq<string>)
    decreases s, 1
  {
    match s
    case Assign(x, e) =>
      x in tenv && x in sym &&
      exists ex: Emitted :: ex.kind == tenv[x] && lines == AssignLines(tenv[x], sym[x], ex)
    case Print(e) =>
      exists ex: Emitted :: EmitType(e, tenv, sym, fnSym) == Ok(ex.kind) && lines == PrintLines(ex)
    case If(_, _, _) => IfShape(s, lines, tenv, sym, fnSym, locals)
    case While(_, _) => WhileShape(s, lines, tenv, sym, fnSym, locals)
    case ForRange(_, _, _, _, _, _) => ForShape(s, lines, tenv, sym, fnSym, locals)
    case Return(e) =>
      (forall v | v in locals :: v in sym) &&
      exists ex: Emitted :: ex.kind == IntTy && lines == ReturnLines(ex, ClearLines(locals, tenv, sym))
    case Break(_) => lines == ["break;"]
    case Continue(_) => lines == ["continue;"]
  }

  ghost predicate IfShape(s: L.Stmt, lines: seq<string>, tenv: TEnv, sym: map<string, string>, fnSym: map<string, string>,
                          locals: seq<string>)
    requires s.If?
    decreases s, 0
  {
    exists ex: Emitted, body: seq<string>, other: seq<string> ::
      ex.kind == BoolTy && BlockLines(s.body, body, tenv, sym, fnSym, locals) &&
      (s.orelse != [] ==> BlockLines(s.orelse, other, tenv, sym, fnSym, locals)) &&
      lines == IfLines(ex, body, s.orelse != [], other)
  }

  ghost predicate WhileShape(s: L.Stmt, lines: seq<string>, tenv: TEnv, sym: map<string, string>, fnSym: map<string, string>,
                             locals: seq<string>)
    requires s.While?
    decreases s, 0
  {
    exists ex: Emitted, n: nat, body: seq<string> ::
      ex.kind == BoolTy && BlockLines(s.body, body, tenv, sym, fnSym, locals) &&
      lines == WhileLines(ex, "__cond_" + TmpName("whilecond", n), body)
  }

  ghost predicate ForShape(s: L.Stmt, lines: seq<string>, tenv: TEnv, sym: map<string, string>, fnSym: map<string, string>,
                           locals: seq<string>)
    requires s.ForRange?
    decreases s, 0
  {
    s.loopVar in sym &&
    exists a: Emitted, z: Emitted, p: Emitted, n: nat, up: seq<string>, down: seq<string> ::
      a.kind == IntTy && z.kind == IntTy && p.kind == IntTy &&
      BlockLines(s.body, up, tenv, sym, fnSym, locals) && BlockLines(s.body, down, tenv, sym, fnSym, locals) &&
      lines == ForLines(a, z, p, TmpName("rng", n), sym[s.loopVar], up, down)
  }

  /** The lines of a block: each statement's lines in turn. */
  ghost predicate BlockLines(ss: seq<L.Stmt>, lines: seq<string>, tenv: TEnv, sym: map<string, string>,
                             fnSym: map<string, string>, locals: seq<string>)
    decreases ss, 2
  {
    if ss == [] then lines == []
    else
      exists k: nat :: k <= |lines| && BlockLines(ss[..|ss| - 1], lines[..k], tenv, sym, fnSym, locals) &&
                       StmtLines(ss[|ss| - 1], lines[k..], tenv, sym, fnSym, locals)
  }

  /** One more statement's lines after a block's are the lines of the longer block. */
  lemma BlockLinesSnoc(ss: seq<L.Stmt>, i: nat, lines: seq<string>, more: seq<string>, tenv: TEnv,
                       sym: map<string, string>, fnSym: map<string, string>, locals: seq<string>)
    requires i < |ss| && BlockLines(ss[..i], lines, tenv, sym, fnSym, locals)
    requires StmtLines(ss[i], more, tenv, sym, fnSym, locals)
    ensures BlockLines(ss[..i + 1], lines + more, tenv, sym, fnSym, locals)
  {
    var all := lines + more;
    assert ss[..i + 1][..i] == ss[..i] && ss[..i + 1][i] == ss[i];
    assert all[..|lines|] == lines && all[|lines|..] == more;
  }

  /** A block of one statement has that statement's lines. */
  lemma BlockLinesSingle(st: L.Stmt, lines: seq<string>, tenv: TEnv, sym: map<string, string>,
                         fnSym: map<string, string>, locals: seq<string>)
    ensures BlockLines([st], lines, tenv, sym, fnSym, locals) <==> StmtLines(st, lines, tenv, sym, fnSym, locals)
  {
    assert [st][..0] == [] && lines[..0] == [] && lines[0..] == lines;
    if BlockLines([st], lines, tenv, sym, fnSym, locals) {
      var k: nat :| k <= |lines| && BlockLines([], lines[..k], tenv, sym, fnSym, locals) &&
                    StmtLines(st, lines[k..], tenv, sym, fnSym, locals);
      assert k == 0;
    }
  }

  /** Two blocks lowered one after the other are the lowering of the joined block. */
  lemma {:induction false} BlockLinesAppend(a: seq<L.Stmt>, b: seq<L.Stmt>, la: seq<string>, lb: seq<string>, tenv: TEnv,
                                            sym: map<string, string>, fnSym: map<string, string>, locals: seq<string>)
    requires BlockLines(a, la, tenv, sym, fnSym, locals) && BlockLines(b, lb, tenv, sym, fnSym, locals)
    ensures BlockLines(a + b, la + lb, tenv, sym, fnSym, locals)
    decreases |b|
  {
    if b == [] {
      assert a + b == a && la + lb == la;
    } else {
      var k: nat :| k <= |lb| && BlockLines(b[..|b| - 1], lb[..k], tenv, sym, fnSym, locals) &&
                    StmtLines(b[|b| - 1], lb[k..], tenv, sym, fnSym, locals);
      BlockLinesAppend(a, b[..|b| - 1], la, lb[..k], tenv, sym, fnSym, locals);
      var ab, l := a + b, la + lb;
      assert ab[..|ab| - 1] == a + b[..|b| - 1] && ab[|ab| - 1] == b[|b| - 1];
      assert l[..|la| + k] == la + lb[..k] && l[|la| + k..] == lb[k..];
    }
  }

  /** A return copies the value into `__pcc_out` right after computing it, releases the value,
      then the locals one per line in their order, and ends with `return;`. */
  lemma ReturnLinesOrder(ex: Emitted, locals: seq<string>, tenv: TEnv, sym: map<string, string>)
    requires forall v | v in locals :: v in sym
    ensures var lines := ReturnLines(ex, ClearLines(locals, tenv, sym));
      var n := |ex.pre| + 1 + |ex.post|;
      |lines| == n + |locals| + 1 && lines[|ex.pre|] == "rt_int_copy(__pcc_out, " + Ref(ex.code, ex.isPtr) + ");" &&
      lines[..|ex.pre|] == ex.pre && lines[|ex.pre| + 1..n] == ex.post &&
      (forall i | 0 <= i < |locals| :: lines[n + i] == ClearLine(locals[i], tenv, sym)) &&
      lines[|lines| - 1] == "return;"
  {
    var clears := ClearLines(locals, tenv, sym);
    var lines := ReturnLines(ex, clears);
    var n := |ex.pre| + 1 + |ex.post|;
    assert lines == ex.pre + ["rt_int_copy(__pcc_out, " + Ref(ex.code, ex.isPtr) + ");"] + ex.post + clears + ["return;"];
    forall i | 0 <= i < |locals|
      ensures lines[n + i] == ClearLine(locals[i], tenv, sym)
    {
      assert lines[n + i] == clears[i];
    }
  }

  /** A while loop opens with `while (1) {`, declares the condition right after the test's own
      lines, breaks out when it is false before any line of the body, and closes the loop last. */
  lemma WhileLinesOrder(ex: Emitted, condVar: string, body: seq<string>)
    ensures var lines := WhileLines(ex, condVar, body);
      var c := 1 + |ex.pre|;
      var b := c + 1 + |ex.post|;
      |lines| == b + 3 + |body| + 1 && lines[0] == "while (1) {" &&
      lines[c] == "    int " + condVar + " = (" + ex.code + ");" &&
      lines[b] == "    if (!" + condVar + ") {" && lines[b + 1] == "        break;" && lines[b + 2] == "    }" &&
      lines[b + 3..|lines| - 1] == Indented(body) && lines[|lines| - 1] == "}"
  {
    var head := ["while (1) {"] + Indented(ex.pre) + ["    int " + condVar + " = (" + ex.code + ");"] + Indented(ex.post);
    var lines := WhileLines(ex, condVar, body);
    assert lines == head + ["    if (!" + condVar + ") {", "        break;", "    }"] + Indented(body) + ["}"];
  }

  /** An if opens with its test after the test's lines; the body's lines come next and then `}`;
      `else {` follows exactly when there is an else part; the test is released last. */
  lemma IfLinesOrder(ex: Emitted, body: seq<string>, hasElse: bool, other: seq<string>)
    ensures var lines := IfLines(ex, body, hasElse, other);
      var c := |ex.pre|;
      var e := c + 1 + |body| + 1;
      |lines| == e + (if hasElse then |other| + 2 else 0) + |ex.post| &&
      lines[c] == "if (" + ex.code + ") {" && lines[c + 1..e - 1] == Indented(body) && lines[e - 1] == "}" &&
      (hasElse ==> lines[e] == "else {" && lines[e + 1..e + 1 + |other|] == Indented(other) && lines[e + 1 + |other|] == "}") &&
      lines[|lines| - |ex.post|..] == ex.post
  {
    var lines := IfLines(ex, body, hasElse, other);
    var tail := (if hasElse then ["else {"] + Indented(other) + ["}"] else []);
    assert lines == ex.pre + ["if (" + ex.code + ") {"] + Indented(body) + ["}"] + tail + ex.post;
  }

  /** The lowering state: the temporary counter shared by every emission. */
  class Emitter {
    /** The global temporary counter: the last number handed out. */
    var counter: nat

    constructor()
      ensures counter == 0
    {
      counter := 0;
    }

    /** new_tmp: a name carrying the next counter value. */
    method NewTmp(prefix: string) returns (name: string)
      modifies this
      ensures counter == old(counter) + 1 && name == TmpName(prefix, counter)
    {
      counter := counter + 1;
      name := TmpName(prefix, counter);
    }

    /** emit_expr. */
    method EmitExpr(e: L.Expr, sym: map<string, string>, fnSym: map<string, string>, tenv: TEnv, isPtrParam: map<string, bool>)
      returns (r: Result<Emitted, string>)
      modifies this
      ensures old(counter) <= counter
      ensures r.Ok? <==> EmitType(e, tenv, sym, fnSym).Ok?
      ensures r.Ok? ==> r.value.kind == EmitType(e, tenv, sym, fnSym).value
      ensures e.IntConst? ==> r == Ok(IntConstEmitted(TmpName("int", old(counter) + 1), e.ival))
      ensures e.Var? && r.Ok? ==>
        r.value == Emitted(tenv[e.name], sym[e.name], [], [], false, e.name in isPtrParam && isPtrParam[e.name])
      decreases e, 2
    {
      match e
      case Call(_, _) =>
        r := EmitCall(e, sym, fnSym, tenv, isPtrParam);
      case UnaryOp(_, _) =>
        r := EmitUnary(e, sym, fnSym, tenv, isPtrParam);
      case BoolOp(_, _, _) =>
        r := EmitBoolOp(e, sym, fnSym, tenv, isPtrParam);
      case CmpOp(_, _, _) =>
        r := EmitCmpOp(e, sym, fnSym, tenv, isPtrParam);
      case BinOp(_, _, _) =>
        r := EmitBinOp(e, sym, fnSym, tenv, isPtrParam);
      case _ =>
        r := EmitLeaf(e, sym, fnSym, tenv, isPtrParam);
    }

    /** A literal or a name: a literal in a fresh owned temporary, a name as the value it holds. */
    method EmitLeaf(e: L.Expr, sym: map<string, string>, fnSym: map<string, string>, tenv: TEnv, isPtrParam: map<string, bool>)
      returns (r: Result<Emitted, string>)
      requires e.IntConst? || e.StrConst? || e.Var?
      modifies this
      ensures old(counter) <= counter
      ensures r.Ok? <==> EmitType(e, tenv, sym, fnSym).Ok?
      ensures r.Ok? ==> r.value.kind == EmitType(e, tenv, sym, fnSym).value
      ensures e.IntConst? ==> r == Ok(IntConstEmitted(TmpName("int", old(counter) + 1), e.ival))
      ensures e.Var? && r.Ok? ==>
        r.value == Emitted(tenv[e.name], sym[e.name], [], [], false, e.name in isPtrParam && isPtrParam[e.name])
    {
      match e
      case IntConst(v) =>
        var t := NewTmp("int");
        var init := "rt_int " + t + "; rt_int_init(&" + t + ");";
        if InInt64(v) {
          r := Ok(Emitted(IntTy, t, [init, "rt_int_set_si(&" + t + ", " + Decimal.IntToString(v) + "LL);"],
                          ["rt_int_clear(&" + t + ");"], true, false));
        } else {
          var lit := CEscapeString(Decimal.IntToString(v));
          assert "rt_int_from_dec(&" + t + ", " + lit + ");" ==
                 "rt_int_from_dec(&" + t + ", \"" + EscapeBody(Decimal.IntToString(v)) + "\");";
          r := Ok(Emitted(IntTy, t, [init, "rt_int_from_dec(&" + t + ", " + lit + ");"],
                          ["rt_int_clear(&" + t + ");"], true, false));
        }
      case StrConst(s) =>
        var t := NewTmp("str");
        var lit := CEscapeString(s);
        r := Ok(Emitted(StrTy, t, ["rt_str " + t + " = rt_str_from_cstr(" + lit + ");"], ["rt_str_free(&" + t + ");"],
                        true, false));
      case Var(x) =>
        if x !in tenv || x !in sym {
          return Err("KeyError: " + x);
        }
        r := Ok(Emitted(tenv[x], sym[x], [], [], false, x in isPtrParam && isPtrParam[x]));
    }

    /** A call: `input`, the str builtins `len` and `int`, or a call returning an int. */
    method EmitCall(e: L.Expr, sym: map<string, string>, fnSym: map<string, string>, tenv: TEnv, isPtrParam: map<string, bool>)
      returns (r: Result<Emitted, string>)
      requires e.Call?
      modifies this
      ensures old(counter) <= counter
      ensures r.Ok? <==> EmitType(e, tenv, sym, fnSym).Ok?
      ensures r.Ok? ==> r.value.kind == EmitType(e, tenv, sym, fnSym).value
      decreases e, 1
    {
      var f := e.func;
      if f == "input" {
        r := EmitInput(e, sym, fnSym, tenv, isPtrParam);
      } else if f == "len" || f == "int" {
        r := EmitStrBuiltin(e, sym, fnSym, tenv, isPtrParam);
      } else {
        r := EmitIntCall(e, sym, fnSym, tenv, isPtrParam);
      }
    }

    /** `input()` or `input(prompt)`: the line read becomes a fresh str. */
    method EmitInput(e: L.Expr, sym: map<string, string>, fnSym: map<string, string>, tenv: TEnv, isPtrParam: map<string, bool>)
      returns (r: Result<Emitted, string>)
      requires e.Call? && e.func == "input"
      modifies this
      ensures old(counter) <= counter
      ensures r.Ok? <==> EmitType(e, tenv, sym, fnSym).Ok?
      ensures r.Ok? ==> r.value.kind == StrTy && r.value.owns
      decreases e, 0
    {
      var args := e.args;
      var t := NewTmp("str");
      var raw := "raw_" + t;
      var pre: seq<string> := [];
      var post: seq<string> := [];
      if |args| == 0 {
        pre := ["char* " + raw + " = rt_input();"];
      } else if |args| == 1 {
        var a :- EmitExpr(args[0], sym, fnSym, tenv, isPtrParam);
        if a.kind != StrTy {
          return Err("Type error: input(prompt) expects a str");
        }
        pre := a.pre + ["char* " + raw + " = rt_input_prompt(" + a.code + ");"];
        post := IfOwned(a.owns, a.post);
      } else {
        return Err("input() takes 0 or 1 positional arguments");
      }
      pre := pre + ["rt_str " + t + " = rt_str_from_cstr(" + raw + ");", "free(" + raw + ");"];
      post := post + ["rt_str_free(&" + t + ");"];
      r := Ok(Emitted(StrTy, t, pre, post, true, false));
    }

    /** `len(s)` and `int(s)` take one str. */
    method EmitStrBuiltin(e: L.Expr, sym: map<string, string>, fnSym: map<string, string>, tenv: TEnv, isPtrParam: map<string, bool>)
      returns (r: Result<Emitted, string>)
      requires e.Call? && (e.func == "len" || e.func == "int")
      modifies this
      ensures old(counter) <= counter
      ensures r.Ok? <==> EmitType(e, tenv, sym, fnSym).Ok?
      ensures r.Ok? ==> r.value.kind == IntTy && r.value.owns
      decreases e, 0
    {
      if |e.args| != 1 {
        return Err(e.func + "() expects exactly 1 argument");
      }
      var a :- EmitExpr(e.args[0], sym, fnSym, tenv, isPtrParam);
      if a.kind != StrTy {
        return Err(if e.func == "len" then "TypeError: object of type is not supported for len() yet"
                   else "TypeError: int() currently only supports int(str)");
      }
      var t := NewTmp("int");
      var op := if e.func == "len" then "rt_str_len(&" + t + ", &" + a.code + ");"
                else "rt_int_from_dec_or_raise(&" + t + ", " + a.code + ".data);";
      var pre := a.pre + ["rt_int " + t + ";", "rt_int_init(&" + t + ");", op];
      r := Ok(Emitted(IntTy, t, pre, IfOwned(a.owns, a.post) + ["rt_int_clear(&" + t + ");"], true, false));
    }

    /** `pow` and user functions: int arguments passed by pointer, the result through an out
        pointer; `pow` with three or more arguments is `rt_int_powmod`. */
    method EmitIntCall(e: L.Expr, sym: map<string, string>, fnSym: map<string, string>, tenv: TEnv, isPtrParam: map<string, bool>)
      returns (r: Result<Emitted, string>)
      requires e.Call? && e.func != "input" && e.func != "len" && e.func != "int"
      modifies this
      ensures old(counter) <= counter
      ensures r.Ok? <==> EmitType(e, tenv, sym, fnSym).Ok?
      ensures r.Ok? ==> r.value.kind == IntTy && r.value.owns
      decreases e, 0
    {
      var t := NewTmp("int");
      var parts :- EmitIntArgs(e.args, sym, fnSym, tenv, isPtrParam);
      var check := IntCallType(e.func, true, |e.args|, fnSym);
      if check.Err? {
        return Err(check.error);
      }
      var (argPre, refs, argPost) := parts;
      var pre := ["rt_int " + t + "; rt_int_init(&" + t + ");"] + argPre;
      var post := argPost + ["rt_int_clear(&" + t + ");"];
      if e.func == "pow" {
        if |refs| == 2 {
          pre := pre + ["rt_int_pow(&" + t + ", " + refs[0] + ", " + refs[1] + ");"];
        } else {
          pre := pre + ["rt_int_powmod(&" + t + ", " + refs[0] + ", " + refs[1] + ", " + refs[2] + ");"];
        }
        return Ok(Emitted(IntTy, t, pre, post, true, false));
      }
      pre := pre + [fnSym[e.func] + "(&" + t + ", " + Join(refs, ", ") + ");"];
      r := Ok(Emitted(IntTy, t, pre, post, true, false));
    }

    /** The int arguments of a call, left to right: their lines, the pointers passed, and the
        releases of the owned ones (latest first). */
    method EmitIntArgs(args: seq<L.Expr>, sym: map<string, string>, fnSym: map<string, string>, tenv: TEnv,
                       isPtrParam: map<string, bool>)
      returns (r: Result<(seq<string>, seq<string>, seq<string>), string>)
      modifies this
      ensures old(counter) <= counter
      ensures r.Ok? <==> forall a | a in args :: EmitType(a, tenv, sym, fnSym) == Ok(IntTy)
      ensures r.Ok? ==> |r.value.1| == |args|
      decreases args, 0
    {
      var pre: seq<string> := [];
      var refs: seq<string> := [];
      var post: seq<string> := [];
      var i := 0;
      while i < |args|
        invariant 0 <= i <= |args| && |refs| == i
        invariant old(counter) <= counter
        invariant forall j | 0 <= j < i :: EmitType(args[j], tenv, sym, fnSym) == Ok(IntTy)
      {
        var a :- EmitExpr(args[i], sym, fnSym, tenv, isPtrParam);
        if a.kind != IntTy {
          return Err("Type error: function arguments must be int in this stage");
        }
        pre := pre + a.pre;
        refs := refs + [Ref(a.code, a.isPtr)];
        post := if a.owns then a.post + post else post;
        i := i + 1;
      }
      r := Ok((pre, refs, post));
    }

    /** `not x`: a C truth expression over a bool or an int. */
    method EmitUnary(e: L.Expr, sym: map<string, string>, fnSym: map<string, string>, tenv: TEnv, isPtrParam: map<string, bool>)
      returns (r: Result<Emitted, string>)
      requires e.UnaryOp?
      modifies this
      ensures old(counter) <= counter
      ensures r.Ok? <==> EmitType(e, tenv, sym, fnSym).Ok?
      ensures r.Ok? ==> r.value.kind == BoolTy && !r.value.owns
      decreases e, 0
    {
      var o :- EmitExpr(e.operand, sym, fnSym, tenv, isPtrParam);
      r := NotEmitted(o);
    }

    /** `and`/`or` with short-circuit: the right operand's lines run only when needed. */
    method EmitBoolOp(e: L.Expr, sym: map<string, string>, fnSym: map<string, string>, tenv: TEnv, isPtrParam: map<string, bool>)
      returns (r: Result<Emitted, string>)
      requires e.BoolOp?
      modifies this
      ensures old(counter) <= counter
      ensures r.Ok? <==> EmitType(e, tenv, sym, fnSym).Ok?
      ensures r.Ok? ==> r.value.kind == BoolTy && !r.value.owns
      decreases e, 0
    {
      var lt :- EmitExpr(e.left, sym, fnSym, tenv, isPtrParam);
      var rt :- EmitExpr(e.right, sym, fnSym, tenv, isPtrParam);
      var tmp := NewTmp("bool");
      r := BoolOpEmitted("__b_" + tmp, e.bop, lt, rt);
    }

    /** Comparisons: strings by `rt_str_eq`, ints by `rt_int_cmp`, each against 0. */
    method EmitCmpOp(e: L.Expr, sym: map<string, string>, fnSym: map<string, string>, tenv: TEnv, isPtrParam: map<string, bool>)
      returns (r: Result<Emitted, string>)
      requires e.CmpOp?
      modifies this
      ensures old(counter) <= counter
      ensures r.Ok? <==> EmitType(e, tenv, sym, fnSym).Ok?
      ensures r.Ok? ==> CmpShape(r.value, EmitType(e.left, tenv, sym, fnSym).value == StrTy, e.cop)
      decreases e, 0
    {
      var lt :- EmitExpr(e.left, sym, fnSym, tenv, isPtrParam);
      var rt :- EmitExpr(e.right, sym, fnSym, tenv, isPtrParam);
      var check := EmitCmpType(e.cop, lt.kind, rt.kind);
      if check.Err? {
        return Err(check.error);
      }
      var pre := lt.pre + rt.pre;
      var post := IfOwned(lt.owns, lt.post) + IfOwned(rt.owns, rt.post);
      var head := if lt.kind == StrTy then "(rt_str_eq(" else "(rt_int_cmp(";
      var args := if lt.kind == StrTy then lt.code + ", " + rt.code else Ref(lt.code, lt.isPtr) + ", " + Ref(rt.code, rt.isPtr);
      var tail := ") " + e.cop + " 0)";
      r := Ok(Emitted(BoolTy, Framed(head, args, tail), pre, post, false, false));
    }

    /** Arithmetic into a fresh temporary; `+` on two strings concatenates. */
    method EmitBinOp(e: L.Expr, sym: map<string, string>, fnSym: map<string, string>, tenv: TEnv, isPtrParam: map<string, bool>)
      returns (r: Result<Emitted, string>)
      requires e.BinOp?
      modifies this
      ensures old(counter) <= counter
      ensures r.Ok? <==> EmitType(e, tenv, sym, fnSym).Ok?
      ensures r.Ok? ==> r.value.kind == EmitType(e, tenv, sym, fnSym).value && BinOpShape(r.value, e.op)
      decreases e, 0
    {
      var lt :- EmitExpr(e.left, sym, fnSym, tenv, isPtrParam);
      var rt :- EmitExpr(e.right, sym, fnSym, tenv, isPtrParam);
      var post := IfOwned(lt.owns, lt.post) + IfOwned(rt.owns, rt.post);
      var check := EmitArithType(e.op, lt.kind, rt.kind, e.right == L.IntConst(0));
      if check.Err? {
        return Err(check.error);
      }
      var t := NewTmp(if check.value == StrTy then "str" else "int");
      r := Ok(BinOpEmitted(check.value, e.op, t, lt, rt, post));
    }

    /** _emit_block: the lines of each statement in turn. */
    method EmitBlock(ss: seq<L.Stmt>, sym: map<string, string>, fnSym: map<string, string>, tenv: TEnv, depth: int,
                     isPtrParam: map<string, bool>, locals: seq<string>)
      returns (r: Result<seq<string>, string>)
      modifies this
      ensures old(counter) <= counter
      ensures r.Ok? <==> BlockEmittable(ss, tenv, sym, fnSym, depth, locals)
      ensures r.Ok? ==> BlockLines(ss, r.value, tenv, sym, fnSym, locals)
      decreases ss, 1
    {
      var lines: seq<string> := [];
      var i := 0;
      while i < |ss|
        invariant 0 <= i <= |ss|
        invariant old(counter) <= counter
        invariant forall j | 0 <= j < i :: StmtEmittable(ss[j], tenv, sym, fnSym, depth, locals)
        invariant BlockLines(ss[..i], lines, tenv, sym, fnSym, locals)
      {
        var more :- EmitStmt(ss[i], sym, fnSym, tenv, depth, isPtrParam, locals);
        BlockLinesSnoc(ss, i, lines, more, tenv, sym, fnSym, locals);
        lines := lines + more;
        i := i + 1;
      }
      assert ss[..i] == ss;
      r := Ok(lines);
    }

    /** One statement of _emit_block. */
    method EmitStmt(s: L.Stmt, sym: map<string, string>, fnSym: map<string, string>, tenv: TEnv, depth: int,
                    isPtrParam: map<string, bool>, locals: seq<string>)
      returns (r: Result<seq<string>, string>)
      modifies this
      ensures old(counter) <= counter
      ensures r.Ok? <==> StmtEmittable(s, tenv, sym, fnSym, depth, locals)
      ensures (s.Break? || s.Continue?) && r.Ok? ==> r.value == [if s.Break? then "break;" else "continue;"]
      ensures r.Ok? ==> StmtLines(s, r.value, tenv, sym, fnSym, locals)
      decreases s, 1
    {
      match s
      case Assign(_, _) =>
        r := EmitAssign(s, sym, fnSym, tenv, isPtrParam, depth, locals);
      case Print(e) =>
        var ex :- EmitExpr(e, sym, fnSym, tenv, isPtrParam);
        r := Ok(PrintLines(ex));
      case If(_, _, _) =>
        r := EmitIf(s, sym, fnSym, tenv, depth, isPtrParam, locals);
      case While(_, _) =>
        r := EmitWhile(s, sym, fnSym, tenv, depth, isPtrParam, locals);
      case ForRange(_, _, _, _, _, _) =>
        r := EmitFor(s, sym, fnSym, tenv, depth, isPtrParam, locals);
      case Return(e) =>
        var ex :- EmitExpr(e, sym, fnSym, tenv, isPtrParam);
        if ex.kind != IntTy {
          return Err("Type error: return value must be int in this stage");
        }
        var clears :- ClearLocals(locals, sym, tenv);
        assert clears == ClearLines(locals, tenv, sym);
        r := Ok(ReturnLines(ex, clears));
      case Break(lineno) =>
        if depth <= 0 {
          return Err("break used outside loop (line " + Decimal.IntToString(lineno) + ")");
        }
        r := Ok(["break;"]);
      case Continue(lineno) =>
        if depth <= 0 {
          return Err("continue used outside loop (line " + Decimal.IntToString(lineno) + ")");
        }
        r := Ok(["continue;"]);
    }

    /** `x = e`: the value must have x's inferred type; an int is copied into x, a str replaces x's
        old text (an owned temporary is moved, not freed). */
    method EmitAssign(s: L.Stmt, sym: map<string, string>, fnSym: map<string, string>, tenv: TEnv, isPtrParam: map<string, bool>,
                      ghost depth: int, ghost locals: seq<string>)
      returns (r: Result<seq<string>, string>)
      requires s.Assign?
      modifies this
      ensures old(counter) <= counter
      ensures r.Ok? <==> StmtEmittable(s, tenv, sym, fnSym, depth, locals)
      ensures r.Ok? ==> StmtLines(s, r.value, tenv, sym, fnSym, locals)
      ensures r.Ok? ==> s.name in tenv && s.name in sym &&
                        exists ex: Emitted :: ex.kind == tenv[s.name] && r.value == AssignLines(tenv[s.name], sym[s.name], ex)
    {
      var x := s.name;
      if x !in tenv {
        return Err("KeyError: " + x);
      }
      var t := tenv[x];
      var ex :- EmitExpr(s.expr, sym, fnSym, tenv, isPtrParam);
      if ex.kind != t {
        return Err("Type error: assigning " + TyName(ex.kind) + " to " + TyName(t) + " variable '" + x + "'");
      }
      if x !in sym {
        return Err("KeyError: " + x);
      }
      r := Ok(AssignLines(t, sym[x], ex));
    }

    /** An if needs a bool test; the else part is emitted only when present. */
    method EmitIf(s: L.Stmt, sym: map<string, string>, fnSym: map<string, string>, tenv: TEnv, depth: int,
                  isPtrParam: map<string, bool>, locals: seq<string>)
      returns (r: Result<seq<string>, string>)
      requires s.If?
      modifies this
      ensures old(counter) <= counter
      ensures r.Ok? <==> StmtEmittable(s, tenv, sym, fnSym, depth, locals)
      ensures r.Ok? ==> IfShape(s, r.value, tenv, sym, fnSym, locals)
      decreases s, 0
    {
      var ex :- EmitExpr(s.test, sym, fnSym, tenv, isPtrParam);
      if ex.kind != BoolTy {
        return Err("Type error: if condition must be bool");
      }
      var body :- EmitBlock(s.body, sym, fnSym, tenv, depth, isPtrParam, locals);
      var other: seq<string> := [];
      if s.orelse != [] {
        other :- EmitBlock(s.orelse, sym, fnSym, tenv, depth, isPtrParam, locals);
      } else {
        assert BlockEmittable(s.orelse, tenv, sym, fnSym, depth, locals);
      }
      assert BlockLines(s.orelse, other, tenv, sym, fnSym, locals);
      r := Ok(IfLines(ex, body, s.orelse != [], other));
    }

    /** `while (1)`: the test is re-evaluated into a fresh int each round, its temporaries released
        at once, and a false test breaks out; the body is one loop deeper. */
    method EmitWhile(s: L.Stmt, sym: map<string, string>, fnSym: map<string, string>, tenv: TEnv, depth: int,
                     isPtrParam: map<string, bool>, locals: seq<string>)
      returns (r: Result<seq<string>, string>)
      requires s.While?
      modifies this
      ensures old(counter) <= counter
      ensures r.Ok? <==> StmtEmittable(s, tenv, sym, fnSym, depth, locals)
      ensures r.Ok? ==> WhileShape(s, r.value, tenv, sym, fnSym, locals)
      decreases s, 0
    {
      var ex :- EmitExpr(s.test, sym, fnSym, tenv, isPtrParam);
      if ex.kind != BoolTy {
        return Err("Type error: while condition must be bool");
      }
      var condTmp := NewTmp("whilecond");
      var body :- EmitBlock(s.body, sym, fnSym, tenv, depth + 1, isPtrParam, locals);
      r := Ok(WhileLines(ex, "__cond_" + condTmp, body));
    }

    /** A range loop: the three bounds are converted to long long (exiting on overflow or a zero
        step), and the body is emitted twice, once for a positive and once for a negative step. */
    method EmitFor(s: L.Stmt, sym: map<string, string>, fnSym: map<string, string>, tenv: TEnv, depth: int,
                   isPtrParam: map<string, bool>, locals: seq<string>)
      returns (r: Result<seq<string>, string>)
      requires s.ForRange?
      modifies this
      ensures old(counter) <= counter
      ensures r.Ok? <==> StmtEmittable(s, tenv, sym, fnSym, depth, locals)
      ensures r.Ok? ==> ForShape(s, r.value, tenv, sym, fnSym, locals)
      decreases s, 0
    {
      ForEmittable(s, tenv, sym, fnSym, depth, locals);
      if s.loopVar !in sym {
        return Err("KeyError: " + s.loopVar);
      }
      var ivar := sym[s.loopVar];
      var a :- EmitExpr(s.start, sym, fnSym, tenv, isPtrParam);
      var z :- EmitExpr(s.stop, sym, fnSym, tenv, isPtrParam);
      var p :- EmitExpr(s.step, sym, fnSym, tenv, isPtrParam);
      if a.kind != IntTy || z.kind != IntTy || p.kind != IntTy {
        return Err("Type error: range args must be int");
      }
      var tmp := NewTmp("rng");
      var up :- EmitBlock(s.body, sym, fnSym, tenv, depth + 1, isPtrParam, locals);
      // the second copy of the body passes the checks the first one did
      var down := EmitBlock(s.body, sym, fnSym, tenv, depth + 1, isPtrParam, locals);
      if down.Err? {
        assert false;
      }
      r := Ok(ForLines(a, z, p, tmp, ivar, up, down.value));
    }
  }

  /** The opening of a lowered range loop: the bounds converted to `long long` (too large a bound
      and a zero step stop the program), then the ascending loop's header with the variable set. */
  function RangeHead(a: Emitted, z: Emitted, p: Emitted, tmp: string, ivar: string): seq<string>
  {
    var start, stop, step := tmp + "_start_ll", tmp + "_stop_ll", tmp + "_step_ll";
    ["{"] + Indented(a.pre + z.pre + p.pre) +
    ["    long long " + start + ";", "    long long " + stop + ";", "    long long " + step + ";",
     "    if (!rt_int_to_si_checked(" + Ref(a.code, a.isPtr) + ", &" + start + ") || !rt_int_to_si_checked(" +
       Ref(z.code, z.isPtr) + ", &" + stop + ") || !rt_int_to_si_checked(" + Ref(p.code, p.isPtr) + ", &" + step + ")) {",
     "        puts(\"pcc runtime error: range() arguments too large for this stage\");",
     "        exit(1);",
     "    }"] +
    Indented(a.post + z.post + p.post) +
    ["    if (" + step + " == 0) {",
     "        puts(\"pcc runtime error: range() step must not be 0\");",
     "        exit(1);",
     "    }",
     "    if (" + step + " > 0) {",
     "        for (long long __i = " + start + "; __i < " + stop + "; __i += " + step + ") {",
     "            rt_int_set_si(&" + ivar + ", __i);"]
  }

  /** Between the two copies of a range loop's body: the descending loop's header. */
  function RangeTurn(tmp: string, ivar: string): seq<string>
  {
    var start, stop, step := tmp + "_start_ll", tmp + "_stop_ll", tmp + "_step_ll";
    ["        }",
     "    } else {",
     "        for (long long __i = " + start + "; __i > " + stop + "; __i += " + step + ") {",
     "            rt_int_set_si(&" + ivar + ", __i);"]
  }

  /** The lines releasing each local before a return, in the given order: ints are cleared and
      strings freed (a local without a type counts as int). */
  method ClearLocals(locals: seq<string>, sym: map<string, string>, tenv: TEnv) returns (r: Result<seq<string>, string>)
    ensures r.Ok? <==> forall v | v in locals :: v in sym
    ensures r.Ok? ==> |r.value| == |locals| && forall i | 0 <= i < |locals| :: r.value[i] == ClearLine(locals[i], tenv, sym)
  {
    var lines: seq<string> := [];
    var i := 0;
    while i < |locals|
      invariant 0 <= i <= |locals| && |lines| == i
      invariant forall j | 0 <= j < i :: locals[j] in sym && lines[j] == ClearLine(locals[j], tenv, sym)
    {
      if locals[i] !in sym {
        return Err("KeyError: " + locals[i]);
      }
      lines := lines + [ClearLine(locals[i], tenv, sym)];
      i := i + 1;
    }
    r := Ok(lines);
  }

  /** ", ".join(parts). */
  function Join(parts: seq<string>, sep: string): string
  {
    if parts == [] then "" else if |parts| == 1 then parts[0] else parts[0] + sep + Join(parts[1..], sep)
  }
}
