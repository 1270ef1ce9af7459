/** The legacy front end of pcc (pcc/frontend.py): a smaller IR of its own and a lowering from the
    Python syntax tree (an input here, see PyAst).

    The legacy IR knows `**`, binary `and`/`or` and `not`, and calls to `input`, `len`, `int`,
    `pow` and module-level functions; it has no classes, attributes or methods, and the only
    expression statement is `print(e)`.

    Expressions are lowered by a pure recursive function.  Statements are lowered by methods whose
    loops append to the block and grow the defined set; the set is passed in and the grown set
    returned (Python mutates it in place, and every nested block starts from a copy).  Pass 1 and
    the parameter loop are the same code as in the AST parser and are shared with it. */
module LegacyFrontend {
  import opened Wrappers
  import Ast = PyAst
  import IR
  import ParserV1
  import Decimal

  datatype Expr =
    | IntConst(ival: int)
    | StrConst(sval: string)
    | Var(name: string)
    | BinOp(op: string, left: Expr, right: Expr)
    | BoolOp(bop: string, left: Expr, right: Expr)
    | UnaryOp(uop: string, operand: Expr)
    | CmpOp(cop: string, left: Expr, right: Expr)
    | Call(func: string, args: seq<Expr>)

  datatype Stmt =
    | Assign(name: string, expr: Expr)
    | Print(expr: Expr)
    | If(test: Expr, body: seq<Stmt>, orelse: seq<Stmt>)
    | While(test: Expr, body: seq<Stmt>)
    | Return(expr: Expr)
    | Break(lineno: int)
    | Continue(lineno: int)
    | ForRange(loopVar: string, start: Expr, stop: Expr, step: Expr, body: seq<Stmt>, lineno: int)

  datatype FunctionDef = FunctionDef(name: string, params: seq<string>, body: seq<Stmt>, lineno: int)

  datatype ModuleIR = ModuleIR(functions: seq<FunctionDef>, main: seq<Stmt>)

  const ArithOps: set<string> := {"+", "-", "*", "**", "//", "%"}
  const BoolOps: set<string> := {"and", "or"}
  const CmpOps: set<string> := {"==", "!=", "<", "<=", ">", ">="}

  // ---------------------------------------------------------------------------------------------
  // What the lowering guarantees

  /** The call rule: `input` takes at most one argument, `len` and `int` exactly one, `pow` two or
      three, and any other name must be a known function called with exactly its arity; `print` is
      never an expression. */
  predicate CallOk(f: string, n: nat, sigs: map<string, int>)
  {
    f != "print" &&
    if f == "input" then n <= 1
    else if f == "len" || f == "int" then n == 1
    else if f == "pow" then 2 <= n <= 3
    else f in sigs && n == sigs[f]
  }

  /** Expression e uses only the documented operators, reads only names in d, and every call obeys
      the call rule. */
  predicate ExprOk(e: Expr, d: set<string>, sigs: map<string, int>)
    decreases e
  {
    match e
    case IntConst(_) => true
    case StrConst(_) => true
    case Var(x) => x in d
    case BinOp(op, l, r) => op in ArithOps && ExprOk(l, d, sigs) && ExprOk(r, d, sigs)
    case BoolOp(op, l, r) => op in BoolOps && ExprOk(l, d, sigs) && ExprOk(r, d, sigs)
    case UnaryOp(op, x) => op == "not" && ExprOk(x, d, sigs)
    case CmpOp(op, l, r) => op in CmpOps && ExprOk(l, d, sigs) && ExprOk(r, d, sigs)
    case Call(f, args) => CallOk(f, |args|, sigs) && forall a | a in args :: ExprOk(a, d, sigs)
  }

  /** The names defined after s runs with d defined. */
  function DefinedAfter(s: Stmt, d: set<string>): set<string>
    decreases s
  {
    match s
    case Assign(x, _) => d + {x}
    case If(_, b, o) => DefinedAfterSeq(b, d) + DefinedAfterSeq(o, d)
    case While(_, b) => DefinedAfterSeq(b, d)
    case ForRange(x, _, _, _, b, _) => DefinedAfterSeq(b, d + {x})
    case _ => d
  }

  function DefinedAfterSeq(ss: seq<Stmt>, d: set<string>): set<string>
    decreases ss
  {
    if ss == [] then d else DefinedAfterSeq(ss[1..], DefinedAfter(ss[0], d))
  }

  /** Statement s, run `depth` loops deep with d defined, is well formed: its expressions are, a
      `for` step is not the literal 0, loop bodies are one deeper, and `break`/`continue` sit in a
      loop. */
  predicate StmtOk(s: Stmt, d: set<string>, depth: int, sigs: map<string, int>)
    decreases s
  {
    match s
    case Assign(_, e) => ExprOk(e, d, sigs)
    case Print(e) => ExprOk(e, d, sigs)
    case If(t, b, o) => ExprOk(t, d, sigs) && BlockOk(b, d, depth, sigs) && BlockOk(o, d, depth, sigs)
    case While(t, b) => ExprOk(t, d, sigs) && BlockOk(b, d, depth + 1, sigs)
    case ForRange(x, a, z, st, b, _) =>
      ExprOk(a, d, sigs) && ExprOk(z, d, sigs) && ExprOk(st, d, sigs) && st != IntConst(0) &&
      BlockOk(b, d + {x}, depth + 1, sigs)
    case Return(e) => ExprOk(e, d, sigs)
    case Break(_) => depth > 0
    case Continue(_) => depth > 0
  }

  /** A block is well formed when each statement is, with the names its predecessors define. */
  predicate BlockOk(ss: seq<Stmt>, d: set<string>, depth: int, sigs: map<string, int>)
    decreases ss
  {
    ss == [] || (StmtOk(ss[0], d, depth, sigs) && BlockOk(ss[1..], DefinedAfter(ss[0], d), depth, sigs))
  }

  /** A whole module: each function body from its parameters, the main block from nothing. */
  predicate ModuleOk(m: ModuleIR, sigs: map<string, int>)
  {
    (forall f | f in m.functions :: BlockOk(f.body, set p | p in f.params, 0, sigs)) &&
    BlockOk(m.main, {}, 0, sigs)
  }

  lemma {:induction false} DefinedAfterGrows(s: Stmt, d: set<string>)
    ensures d <= DefinedAfter(s, d)
    decreases s
  {
    match s
    case If(_, b, o) => DefinedAfterSeqGrows(b, d);
    case While(_, b) => DefinedAfterSeqGrows(b, d);
    case ForRange(x, _, _, _, b, _) => DefinedAfterSeqGrows(b, d + {x});
    case _ =>
  }

  lemma {:induction false} DefinedAfterSeqGrows(ss: seq<Stmt>, d: set<string>)
    ensures d <= DefinedAfterSeq(ss, d)
    decreases ss
  {
    if ss != [] {
      DefinedAfterGrows(ss[0], d);
      DefinedAfterSeqGrows(ss[1..], DefinedAfter(ss[0], d));
    }
  }

  /** Appending a statement that is well formed where a well-formed block ends. */
  lemma {:induction false} BlockOkSnoc(ss: seq<Stmt>, s: Stmt, d: set<string>, depth: int, sigs: map<string, int>)
    requires BlockOk(ss, d, depth, sigs) && StmtOk(s, DefinedAfterSeq(ss, d), depth, sigs)
    ensures BlockOk(ss + [s], d, depth, sigs)
    ensures DefinedAfterSeq(ss + [s], d) == DefinedAfter(s, DefinedAfterSeq(ss, d))
    decreases ss
  {
    if ss == [] {
      assert [] + [s] == [s];
      assert [s][1..] == [];
    } else {
      assert (ss + [s])[0] == ss[0];
      assert (ss + [s])[1..] == ss[1..] + [s];
      BlockOkSnoc(ss[1..], s, DefinedAfter(ss[0], d), depth, sigs);
    }
  }

  // ---------------------------------------------------------------------------------------------
  // Expressions

  function ArithSymbol(op: Ast.Operator): Option<string>
  {
    match op
    case Add => Some("+")
    case Sub => Some("-")
    case Mult => Some("*")
    case Pow => Some("**")
    case FloorDiv => Some("//")
    case Mod => Some("%")
    case _ => None
  }

  function LineMsg(lineno: int, msg: string): string
  {
    ParserV1.At(lineno, msg)
  }

  /** Lowers one expression; the first unsupported construct or failed check is the error. */
  function ParseExpr(node: Ast.Expr, defined: set<string>, sigs: map<string, int>): (r: Result<Expr, string>)
    ensures r.Ok? ==> ExprOk(r.value, defined, sigs)
    ensures node.Name? && node.id !in defined ==> r.Err?
    ensures node.UnaryOp? && node.uop == Ast.USub && r.Ok? ==> r.value.BinOp? && r.value.op == "-" && r.value.left == IntConst(0)
    ensures node.UnaryOp? && node.uop == Ast.Not && r.Ok? ==> r.value.UnaryOp?
    ensures node.BoolOp? && |node.values| != 2 ==> r.Err?
    ensures node.Compare? && |node.ops| != 1 ==> r.Err?
    decreases node, 1
  {
    match node
    case Constant(c, _) =>
      (match c
       case IntValue(i) => Ok(IntConst(i))
       case BoolValue(b) => Ok(IntConst(if b then 1 else 0))
       case StrValue(s) => Ok(StrConst(s))
       case OtherValue(_) => Err("Unsupported expression: Constant"))
    case UnaryOp(_, _, _) => ParseUnary(node, defined, sigs)
    case Name(id, ctx, lineno) =>
      if ctx != Ast.Load then Err("Only variable reads are supported in expressions")
      else if id !in defined then Err(LineMsg(lineno, "variable used before assignment: " + id))
      else Ok(Var(id))
    case BinOp(_, _, _, _) => ParseBinary(node, defined, sigs)
    case BoolOp(_, _, _) => ParseBinary(node, defined, sigs)
    case Compare(_, _, _, _) => ParseCompare(node, defined, sigs)
    case Call(func, args, hasKeywords, lineno) =>
      if !func.Name? then Err("Only simple function calls by name are supported")
      else ParseCall(func.id, args, hasKeywords, lineno, defined, sigs)
    case _ => Err("Unsupported expression: " + Ast.ExprKind(node))
  }

  /** `-x` becomes `0 - x` and `not x` stays a `not`; other unary operators are rejected. */
  function ParseUnary(node: Ast.Expr, defined: set<string>, sigs: map<string, int>): (r: Result<Expr, string>)
    requires node.UnaryOp?
    ensures r.Ok? ==> ExprOk(r.value, defined, sigs)
    ensures node.uop == Ast.USub && r.Ok? ==> r.value.BinOp? && r.value.op == "-" && r.value.left == IntConst(0)
    ensures node.uop == Ast.Not && r.Ok? ==> r.value.UnaryOp?
    ensures node.uop != Ast.USub && node.uop != Ast.Not ==> r.Err?
    decreases node, 0
  {
    if node.uop == Ast.USub then
      var e :- ParseExpr(node.operand, defined, sigs);
      assert "-" in ArithOps;
      Ok(BinOp("-", IntConst(0), e))
    else if node.uop == Ast.Not then
      var e :- ParseExpr(node.operand, defined, sigs);
      Ok(UnaryOp("not", e))
    else Err("Unsupported unary operator: " + Ast.UnaryOperatorName(node.uop))
  }

  /** An arithmetic operator with a legacy symbol, or an `and`/`or` of exactly two operands. */
  function ParseBinary(node: Ast.Expr, defined: set<string>, sigs: map<string, int>): (r: Result<Expr, string>)
    requires node.BinOp? || node.BoolOp?
    ensures r.Ok? ==> ExprOk(r.value, defined, sigs)
    ensures node.BinOp? && ArithSymbol(node.op).None? ==> r.Err?
    ensures node.BoolOp? && |node.values| != 2 ==> r.Err?
    decreases node, 0
  {
    if node.BinOp? then
      if ArithSymbol(node.op).None? then Err("Unsupported binary operator: " + Ast.OperatorName(node.op))
      else
        var l :- ParseExpr(node.left, defined, sigs);
        var r :- ParseExpr(node.right, defined, sigs);
        Ok(BinOp(ArithSymbol(node.op).value, l, r))
    else if |node.values| != 2 then Err("Only binary boolean ops are supported (e.g., a and b)")
    else
      var l :- ParseExpr(node.values[0], defined, sigs);
      var r :- ParseExpr(node.values[1], defined, sigs);
      Ok(BoolOp(if node.bop == Ast.And then "and" else "or", l, r))
  }

  /** A single comparison with a known operator; chains are rejected. */
  function ParseCompare(node: Ast.Expr, defined: set<string>, sigs: map<string, int>): (r: Result<Expr, string>)
    requires node.Compare?
    ensures r.Ok? ==> ExprOk(r.value, defined, sigs) && r.value.CmpOp?
    ensures |node.ops| != 1 || |node.comparators| != 1 ==> r.Err?
    decreases node, 0
  {
    if |node.ops| != 1 || |node.comparators| != 1 then Err("Chained comparisons are not supported (e.g., 1 < x < 3)")
    else if ParserV1.CmpOpSymbol(node.ops[0]).None? then
      Err("Unsupported comparison operator: " + Ast.CmpOperatorName(node.ops[0]))
    else
      var l :- ParseExpr(node.left, defined, sigs);
      var r :- ParseExpr(node.comparators[0], defined, sigs);
      assert ParserV1.CmpOpSymbol(node.ops[0]).value in CmpOps;
      Ok(CmpOp(ParserV1.CmpOpSymbol(node.ops[0]).value, l, r))
  }

  /** A call by name: the builtins `input`, `len`, `int` and `pow` by their own argument rules,
      any other name by the pass-1 table; `print` is never an expression. */
  function ParseCall(fname: string, args: seq<Ast.Expr>, hasKeywords: bool, lineno: int,
                     defined: set<string>, sigs: map<string, int>): (r: Result<Expr, string>)
    ensures r.Ok? ==> ExprOk(r.value, defined, sigs) && r.value.Call? && r.value.func == fname && |r.value.args| == |args|
    ensures r.Ok? ==> !hasKeywords
    ensures ParseExprs(args, defined, sigs).Ok? && !hasKeywords ==> (r.Ok? <==> CallOk(fname, |args|, sigs))
    decreases args, 2
  {
    if fname == "print" then Err("print(...) is only supported as a statement, not as an expression")
    else if fname in LegacyBuiltins then ParseBuiltinCall(fname, args, hasKeywords, lineno, defined, sigs)
    else if fname !in sigs then Err(LineMsg(lineno, "call to unknown function: " + fname))
    else if hasKeywords then Err("Keyword arguments are not supported")
    else if |args| != sigs[fname] then
      Err(LineMsg(lineno, "function '" + fname + "' expects " + Decimal.IntToString(sigs[fname]) + " args, got " +
                          Decimal.IntToString(|args|)))
    else
      var es :- ParseExprs(args, defined, sigs);
      Ok(Call(fname, es))
  }

  const LegacyBuiltins: set<string> := {"input", "len", "int", "pow"}

  /** The builtins by their own argument rules: `input` with at most one argument, `len` and
      `int` with one, `pow` with two or three; none takes keywords. */
  function ParseBuiltinCall(fname: string, args: seq<Ast.Expr>, hasKeywords: bool, lineno: int,
                            defined: set<string>, sigs: map<string, int>): (r: Result<Expr, string>)
    requires fname in LegacyBuiltins
    ensures r.Ok? ==> ExprOk(r.value, defined, sigs) && r.value.Call? && r.value.func == fname && |r.value.args| == |args|
    ensures r.Ok? ==> !hasKeywords
    ensures ParseExprs(args, defined, sigs).Ok? && !hasKeywords ==> (r.Ok? <==> CallOk(fname, |args|, sigs))
    decreases args, 1
  {
    if fname == "input" then
      if hasKeywords || |args| > 1 then Err(LineMsg(lineno, "input() takes 0 or 1 positional arguments"))
      else
        var es :- ParseExprs(args, defined, sigs);
        Ok(Call("input", es))
    else if fname == "len" || fname == "int" then
      if hasKeywords || |args| != 1 then
        Err(LineMsg(lineno, fname + "() expects exactly 1 positional argument"))
      else
        var a :- ParseExpr(args[0], defined, sigs);
        Ok(Call(fname, [a]))
    else
      if hasKeywords then Err("Keyword arguments are not supported")
      else if !(2 <= |args| <= 3) then
        Err(LineMsg(lineno, "builtin 'pow' expects 2 or 3 args, got " + Decimal.IntToString(|args|)))
      else
        var es :- ParseExprs(args, defined, sigs);
        Ok(Call("pow", es))
  }

  function ParseExprs(args: seq<Ast.Expr>, defined: set<string>, sigs: map<string, int>): (r: Result<seq<Expr>, string>)
    ensures r.Ok? ==> |r.value| == |args| && forall a | a in r.value :: ExprOk(a, defined, sigs)
    decreases args, 0
  {
    if args == [] then Ok([])
    else
      var e :- ParseExpr(args[0], defined, sigs);
      var rest :- ParseExprs(args[1..], defined, sigs);
      Ok([e] + rest)
  }

  // ---------------------------------------------------------------------------------------------
  // Statements

  /** `for x in range(...)` with 1 to 3 arguments; a missing start is 0 and a missing step 1; a
      literal zero step is rejected. */
  function ParseRange(it: Ast.Expr, lineno: int, defined: set<string>, sigs: map<string, int>)
    : (r: Result<(Expr, Expr, Expr), string>)
    ensures r.Ok? ==> it.Call? && !it.hasKeywords && Ast.IsNameCall(it, "range") && 1 <= |it.args| <= 3
    ensures r.Ok? ==> ExprOk(r.value.0, defined, sigs) && ExprOk(r.value.1, defined, sigs) && ExprOk(r.value.2, defined, sigs)
    ensures r.Ok? && |it.args| == 1 ==> r.value.0 == IntConst(0) && r.value.2 == IntConst(1)
    ensures r.Ok? && |it.args| == 2 ==> r.value.2 == IntConst(1)
    ensures r.Ok? ==> r.value.2 != IntConst(0)
  {
    if !it.Call? || it.hasKeywords then Err(LineMsg(lineno, "only for-in-range is supported"))
    else if !it.func.Name? || it.func.id != "range" then Err(LineMsg(lineno, "only for-in-range is supported"))
    else if !(1 <= |it.args| <= 3) then
      Err(LineMsg(lineno, "range() expects 1, 2, or 3 arguments, got " + Decimal.IntToString(|it.args|)))
    else
      var bounds :-
        if |it.args| == 1 then
          var stop :- ParseExpr(it.args[0], defined, sigs);
          Ok((IntConst(0), stop, IntConst(1)))
        else if |it.args| == 2 then
          var start :- ParseExpr(it.args[0], defined, sigs);
          var stop :- ParseExpr(it.args[1], defined, sigs);
          Ok((start, stop, IntConst(1)))
        else
          var start :- ParseExpr(it.args[0], defined, sigs);
          var stop :- ParseExpr(it.args[1], defined, sigs);
          var step :- ParseExpr(it.args[2], defined, sigs);
          Ok((start, stop, step));
      if bounds.2 == IntConst(0) then Err(LineMsg(lineno, "range() step must not be 0"))
      else Ok(bounds)
  }

  /** Lowers a block statement by statement. */
  method ParseBlock(ss: seq<Ast.Stmt>, defined: set<string>, sigs: map<string, int>, depth: int)
    returns (r: Result<(seq<Stmt>, set<string>), string>)
    ensures r.Ok? ==> |r.value.0| == |ss| && BlockOk(r.value.0, defined, depth, sigs) && r.value.1 == DefinedAfterSeq(r.value.0, defined)
    decreases ss, 2
  {
    var body: seq<Stmt> := [];
    var d := defined;
    var i := 0;
    while i < |ss|
      invariant 0 <= i <= |ss| && |body| == i
      invariant BlockOk(body, defined, depth, sigs) && d == DefinedAfterSeq(body, defined)
    {
      var res :- ParseStmt(ss[i], d, sigs, depth);
      BlockOkSnoc(body, res.0, defined, depth, sigs);
      body := body + [res.0];
      d := res.1;
      i := i + 1;
    }
    r := Ok((body, d));
  }

  /** Lowers one statement.  An assignment's value is lowered before its target is defined; if,
      while and for lower their bodies from copies of the incoming set and union the results back. */
  method ParseStmt(stmt: Ast.Stmt, defined: set<string>, sigs: map<string, int>, depth: int)
    returns (r: Result<(Stmt, set<string>), string>)
    ensures r.Ok? ==> StmtOk(r.value.0, defined, depth, sigs) && r.value.1 == DefinedAfter(r.value.0, defined)
    ensures (stmt.Break? || stmt.Continue?) ==> (r.Ok? <==> depth > 0)
    ensures stmt.Return? && stmt.returned.None? ==> r == Ok((Return(IntConst(0)), defined))
    ensures stmt.Global? || stmt.Nonlocal? || stmt.FunctionDef? || stmt.ClassDef? || stmt.OtherStmt? ==> r.Err?
    decreases stmt, 1
  {
    match stmt
    case Assign(targets, value, _) =>
      r := ParseAssign(targets, value, defined, sigs);
    case ExprStmt(call, _) =>
      var e :- ParsePrint(call, defined, sigs);
      r := Ok((e, defined));
    case If(_, _, _, _) =>
      r := ParseIf(stmt, defined, sigs, depth);
    case While(_, _, _, _) =>
      r := ParseWhile(stmt, defined, sigs, depth);
    case For(_, _, _, _, _) =>
      r := ParseFor(stmt, defined, sigs, depth);
    case Return(value, _) =>
      if value.None? {
        r := Ok((Return(IntConst(0)), defined));
      } else {
        var e :- ParseExpr(value.value, defined, sigs);
        r := Ok((Return(e), defined));
      }
    case Break(lineno) =>
      if depth <= 0 {
        return Err(LineMsg(lineno, "Break outside while (node=Break)"));
      }
      r := Ok((Break(lineno), defined));
    case Continue(lineno) =>
      if depth <= 0 {
        return Err(LineMsg(lineno, "Continue outside while (node=Continue)"));
      }
      r := Ok((Continue(lineno), defined));
    case Global(lineno) =>
      r := Err(LineMsg(lineno, "global/nonlocal not supported"));
    case Nonlocal(lineno) =>
      r := Err(LineMsg(lineno, "global/nonlocal not supported"));
    case _ =>
      r := Err("Unsupported top-level statement: " + Ast.StmtKind(stmt));
  }

  /** `x = e`: exactly one target, a plain name; afterwards x is defined. */
  function ParseAssign(targets: seq<Ast.Expr>, value: Ast.Expr, defined: set<string>, sigs: map<string, int>)
    : (r: Result<(Stmt, set<string>), string>)
    ensures r.Ok? ==> |targets| == 1 && targets[0].Name? && targets[0].ctx == Ast.Store
    ensures r.Ok? ==> r.value.0.Assign? && r.value.0.name == targets[0].id && r.value.1 == defined + {targets[0].id}
    ensures r.Ok? ==> StmtOk(r.value.0, defined, 0, sigs)
  {
    if |targets| != 1 then Err("Only single-target assignment is supported")
    else if !targets[0].Name? || targets[0].ctx != Ast.Store then Err("Assignment target must be a variable name")
    else
      var e :- ParseExpr(value, defined, sigs);
      Ok((Assign(targets[0].id, e), defined + {targets[0].id}))
  }

  /** The only expression statement: `print(e)` with one positional argument. */
  function ParsePrint(call: Ast.Expr, defined: set<string>, sigs: map<string, int>): (r: Result<Stmt, string>)
    ensures r.Ok? <==>
      call.Call? && Ast.IsNameCall(call, "print") && |call.args| == 1 && !call.hasKeywords &&
      ParseExpr(call.args[0], defined, sigs).Ok?
    ensures r.Ok? ==> r.value == Print(ParseExpr(call.args[0], defined, sigs).value)
  {
    if !call.Call? then Err("Only function calls are supported as expression statements")
    else if !Ast.IsNameCall(call, "print") then Err("Only print(...) is supported as expression statement")
    else if |call.args| != 1 || call.hasKeywords then
      Err("print(...) must have exactly one positional argument and no keywords")
    else
      var e :- ParseExpr(call.args[0], defined, sigs);
      Ok(Print(e))
  }

  method ParseIf(stmt: Ast.Stmt, defined: set<string>, sigs: map<string, int>, depth: int)
    returns (r: Result<(Stmt, set<string>), string>)
    requires stmt.If?
    ensures r.Ok? ==> StmtOk(r.value.0, defined, depth, sigs) && r.value.1 == DefinedAfter(r.value.0, defined)
    ensures r.Ok? ==> r.value.0.If? && |r.value.0.body| == |stmt.body| && |r.value.0.orelse| == |stmt.orelse|
    decreases stmt, 0
  {
    var t :- ParseExpr(stmt.test, defined, sigs);
    var b :- ParseBlock(stmt.body, defined, sigs, depth);
    var o :- ParseBlock(stmt.orelse, defined, sigs, depth);
    DefinedAfterSeqGrows(b.0, defined);
    r := Ok((If(t, b.0, o.0), defined + (b.1 + o.1)));
  }

  method ParseWhile(stmt: Ast.Stmt, defined: set<string>, sigs: map<string, int>, depth: int)
    returns (r: Result<(Stmt, set<string>), string>)
    requires stmt.While?
    ensures r.Ok? ==> StmtOk(r.value.0, defined, depth, sigs) && r.value.1 == DefinedAfter(r.value.0, defined)
    ensures r.Ok? ==> r.value.0.While? && stmt.orelse == []
    decreases stmt, 0
  {
    if stmt.orelse != [] {
      return Err("while-else is not supported in this MVP");
    }
    var t :- ParseExpr(stmt.test, defined, sigs);
    var b :- ParseBlock(stmt.body, defined, sigs, depth + 1);
    DefinedAfterSeqGrows(b.0, defined);
    r := Ok((While(t, b.0), defined + b.1));
  }

  method ParseFor(stmt: Ast.Stmt, defined: set<string>, sigs: map<string, int>, depth: int)
    returns (r: Result<(Stmt, set<string>), string>)
    requires stmt.For?
    ensures r.Ok? ==> StmtOk(r.value.0, defined, depth, sigs) && r.value.1 == DefinedAfter(r.value.0, defined)
    ensures r.Ok? ==>
      stmt.orelse == [] && stmt.target.Name? && r.value.0.ForRange? &&
      r.value.0.loopVar == stmt.target.id && r.value.0.lineno == stmt.lineno
    decreases stmt, 0
  {
    if stmt.orelse != [] {
      return Err(LineMsg(stmt.lineno, "for-else is not supported in this MVP"));
    }
    if !stmt.target.Name? || stmt.target.ctx != Ast.Store {
      return Err(LineMsg(stmt.lineno, "for target must be a variable name (Name)"));
    }
    var x := stmt.target.id;
    var bounds :- ParseRange(stmt.iter, stmt.lineno, defined, sigs);
    var b :- ParseBlock(stmt.body, defined + {x}, sigs, depth + 1);
    DefinedAfterSeqGrows(b.0, defined + {x});
    r := Ok((ForRange(x, bounds.0, bounds.1, bounds.2, b.0, stmt.lineno), defined + b.1));
  }

  /** Lowers a function: no decorators, return annotation or non-positional parameters; the body
      is lowered from the parameters at loop depth 0. */
  method ParseFunctionDef(fn: Ast.Stmt, sigs: map<string, int>) returns (r: Result<FunctionDef, string>)
    requires fn.FunctionDef?
    ensures r.Ok? ==> r.value.name == fn.name && r.value.params == ParserV1.ArgNames(fn.args.args)
    ensures r.Ok? ==> BlockOk(r.value.body, set p | p in r.value.params, 0, sigs)
    ensures r.Ok? ==> !fn.hasDecorators && !fn.hasReturns && Ast.SimpleArguments(fn.args)
  {
    if fn.hasDecorators {
      return Err(LineMsg(fn.lineno, "decorators are not supported"));
    }
    if fn.hasReturns {
      return Err(LineMsg(fn.lineno, "return annotations are not supported"));
    }
    if !Ast.SimpleArguments(fn.args) {
      return Err(LineMsg(fn.lineno, "only simple positional parameters are supported"));
    }
    var params :- ParserV1.CollectParams(fn.args.args);
    var ps := set p | p in params;
    var blk :- ParseBlock(fn.body, ps, sigs, 0);
    r := Ok(FunctionDef(fn.name, params, blk.0, fn.lineno));
  }

  /** The statement kinds rejected at module level. */
  const ModuleLevelUnsupported: set<string> := {"Import", "ImportFrom", "ClassDef", "Lambda", "Try", "With", "Raise"}

  /** sigs is the table pass 1 builds: one entry per top-level function name, holding the number
      of parameters of the definition by that name. */
  predicate SignaturesOf(mod: Ast.Module, sigs: map<string, int>)
  {
    sigs.Keys == (set n | n in ParserV1.FunctionNames(mod.body)) &&
    forall k | 0 <= k < |mod.body| && mod.body[k].FunctionDef? ::
      mod.body[k].name in sigs && sigs[mod.body[k].name] == |mod.body[k].args.args|
  }

  lemma {:induction false} FunctionNameDefined(body: seq<Ast.Stmt>, n: string)
    requires n in ParserV1.FunctionNames(body)
    ensures exists k :: 0 <= k < |body| && body[k].FunctionDef? && body[k].name == n
    decreases body
  {
    if !(body[0].FunctionDef? && body[0].name == n) {
      FunctionNameDefined(body[1..], n);
      var k :| 0 <= k < |body[1..]| && body[1..][k].FunctionDef? && body[1..][k].name == n;
      assert body[k + 1] == body[1..][k];
    }
  }

  /** The table is determined by the module: there is only one. */
  lemma SignaturesUnique(mod: Ast.Module, s1: map<string, int>, s2: map<string, int>)
    requires SignaturesOf(mod, s1) && SignaturesOf(mod, s2)
    ensures s1 == s2
  {
    forall n | n in s1
      ensures s1[n] == s2[n]
    {
      FunctionNameDefined(mod.body, n);
    }
  }

  /** Lowers a module: pass 1 records the arity of each top-level function and rejects repeats;
      then functions are lowered and every other statement joins the main block, classes, imports,
      try, with and raise excepted. */
  method ParseSourceToIr(mod: Ast.Module) returns (r: Result<ModuleIR, string>)
    ensures r.Ok? ==> IR.Distinct(ParserV1.FunctionNames(mod.body))
    ensures r.Ok? ==> exists sigs :: SignaturesOf(mod, sigs) && ModuleOk(r.value, sigs)
    ensures r.Ok? ==> forall k | 0 <= k < |mod.body| :: Ast.StmtKind(mod.body[k]) !in ModuleLevelUnsupported
    ensures r.Ok? ==> |r.value.functions| == |ParserV1.FunctionNames(mod.body)|
  {
    var sigs :- ParserV1.CollectFunctionSignatures(mod);
    var body := mod.body;
    var functions: seq<FunctionDef> := [];
    var mainStmts: seq<Stmt> := [];
    var definedMain: set<string> := {};
    var i := 0;
    while i < |body|
      invariant 0 <= i <= |body|
      invariant forall f | f in functions :: BlockOk(f.body, set p | p in f.params, 0, sigs)
      invariant BlockOk(mainStmts, {}, 0, sigs) && definedMain == DefinedAfterSeq(mainStmts, {})
      invariant forall k | 0 <= k < i :: Ast.StmtKind(body[k]) !in ModuleLevelUnsupported
      invariant |functions| == |ParserV1.FunctionNames(body[..i])|
    {
      var stmt := body[i];
      assert body[..i + 1] == body[..i] + [stmt];
      ParserV1.FunctionNamesAppend(body[..i], [stmt]);
      assert ParserV1.FunctionNames([stmt]) == if stmt.FunctionDef? then [stmt.name] else [];
      if stmt.FunctionDef? {
        var f :- ParseFunctionDef(stmt, sigs);
        functions := functions + [f];
      } else {
        if Ast.StmtKind(stmt) in ModuleLevelUnsupported {
          return Err(LineMsg(stmt.lineno, "unsupported statement: " + Ast.StmtKind(stmt)));
        }
        var res :- ParseStmt(stmt, definedMain, sigs, 0);
        BlockOkSnoc(mainStmts, res.0, {}, 0, sigs);
        mainStmts := mainStmts + [res.0];
        definedMain := res.1;
      }
      i := i + 1;
    }
    assert body[..i] == body;
    r := Ok(ModuleIR(functions, mainStmts));
    assert SignaturesOf(mod, sigs) && ModuleOk(r.value, sigs);
  }
}
