/** The AST-based parser of pcc (pcc/frontend/parser_v1.py).

    The parser walks the tree Python's `ast.parse` produced (an input here, see PyAst).  It first
    records the arity of every top-level function and the name of every top-level class, then
    lowers functions, classes and the main block to IR while it threads the set of defined names
    and the loop depth.

    Expressions are lowered by pure recursion, so they are functions; blocks are lowered by loops
    that append statements and grow the defined set, so they are methods of `Parser`, which holds
    the pass-1 tables.  Python hands the defined set to callees by reference; here it is passed in
    and the grown set is returned, and each nested block starts from its own copy exactly as in
    the source.

    On success every lowering promises what the IR module calls well formed: only IR-proper nodes,
    every name read already defined, every `break`/`continue` inside a loop, and every call
    resolved builtin first, then class, then a known function with its exact arity.  This parser
    also checks the receiver of a method call used as an expression (`ReceiversDefined`). */
module ParserV1 {
  import opened Wrappers
  import opened IR
  import Ast = PyAst
  import Decimal

  /** A ParseError message that names its line. */
  function At(lineno: int, msg: string): string
  {
    "Line " + Decimal.IntToString(lineno) + ": " + msg
  }

  /** Every method-call receiver in e is defined (this parser checks them, unlike parser v2). */
  predicate ReceiversDefined(e: Expr, d: set<string>)
    decreases e
  {
    match e
    case MethodCall(o, _, args) => o in d && forall a | a in args :: ReceiversDefined(a, d)
    case BinOp(_, l, r) => ReceiversDefined(l, d) && ReceiversDefined(r, d)
    case CmpOp(_, l, r) => ReceiversDefined(l, d) && ReceiversDefined(r, d)
    case Call(_, args) => forall a | a in args :: ReceiversDefined(a, d)
    case ConstructorCall(_, args) => forall a | a in args :: ReceiversDefined(a, d)
    case BuiltinCall(_, args) => forall a | a in args :: ReceiversDefined(a, d)
    case _ => true
  }

  /** What a lowered expression guarantees. */
  predicate Lowered(e: Expr, d: set<string>, sigs: map<string, int>, classes: set<string>)
  {
    ExprWellFormed(e, d, sigs, classes) && ReceiversDefined(e, d)
  }

  // ---------------------------------------------------------------------------------------------
  // Expressions

  function BinOpSymbol(op: Ast.Operator): Option<string>
  {
    match op
    case Add => Some("+")
    case Sub => Some("-")
    case Mult => Some("*")
    case FloorDiv => Some("//")
    case Mod => Some("%")
    case _ => None
  }

  function CmpOpSymbol(op: Ast.CmpOperator): Option<string>
  {
    match op
    case Eq => Some("==")
    case NotEq => Some("!=")
    case Lt => Some("<")
    case LtE => Some("<=")
    case Gt => Some(">")
    case GtE => Some(">=")
    case _ => None
  }

  /** Lowers one expression.  A bool constant is an int constant; unary minus becomes `0 - e`; a
      name must be a defined read; anything else than the listed kinds is unsupported. */
  function ParseExpr(node: Ast.Expr, defined: set<string>, sigs: map<string, int>, classes: set<string>)
    : (r: Result<Expr, string>)
    ensures r.Ok? ==> Lowered(r.value, defined, sigs, classes)
    ensures node.Name? && node.id !in defined ==> r.Err?
    ensures node.Constant? && node.constant.IntValue? ==> r == Ok(IntConst(node.constant.i))
    ensures node.Constant? && node.constant.BoolValue? ==> r == Ok(IntConst(if node.constant.b then 1 else 0))
    ensures node.Constant? && node.constant.StrValue? ==> r == Ok(StrConst(node.constant.s))
    ensures r.Ok? && node.UnaryOp? ==> r.value.BinOp? && r.value.op == "-" && r.value.left == IntConst(0)
    decreases node, 2
  {
    match node
    case Constant(c, _) =>
      (match c
       case IntValue(i) => Ok(IntConst(i))
       case BoolValue(b) => Ok(IntConst(if b then 1 else 0))
       case StrValue(s) => Ok(StrConst(s))
       case OtherValue(_) => Err("Unsupported expression: Constant"))
    case UnaryOp(_, _, _) => ParseUnary(node, defined, sigs, classes)
    case Name(id, ctx, lineno) =>
      if ctx != Ast.Load then Err("Only variable reads are supported in expressions")
      else if id !in defined then Err(At(lineno, "variable used before assignment: " + id))
      else Ok(Var(id))
    case Attribute(value, attr, _, lineno) =>
      if !value.Name? then Err("Only simple variable.attribute access is supported")
      else if value.id !in defined then Err(At(lineno, "variable used before assignment: " + value.id))
      else Ok(AttributeAccess(value.id, attr))
    case BinOp(_, _, _, _) => ParseBinOp(node, defined, sigs, classes)
    case Compare(_, _, _, _) => ParseCompare(node, defined, sigs, classes)
    case Call(func, args, hasKeywords, lineno) => ParseCall(func, args, hasKeywords, lineno, defined, sigs, classes)
    case _ => Err("Unsupported expression: " + Ast.ExprKind(node))
  }

  /** Unary minus becomes `0 - e`; no other unary operator is supported. */
  function ParseUnary(node: Ast.Expr, defined: set<string>, sigs: map<string, int>, classes: set<string>)
    : (r: Result<Expr, string>)
    requires node.UnaryOp?
    ensures r.Ok? ==> Lowered(r.value, defined, sigs, classes)
    ensures r.Ok? ==> r.value.BinOp? && r.value.op == "-" && r.value.left == IntConst(0)
    decreases node, 1
  {
    if node.uop == Ast.USub then
      var e :- ParseExpr(node.operand, defined, sigs, classes);
      assert IsCoreExpr(BinOp("-", IntConst(0), e)) && ExprScoped(BinOp("-", IntConst(0), e), defined);
      assert ExprCallsOk(BinOp("-", IntConst(0), e), sigs, classes) && ReceiversDefined(BinOp("-", IntConst(0), e), defined);
      Ok(BinOp("-", IntConst(0), e))
    else Err("Unsupported expression: UnaryOp")
  }

  /** An arithmetic operator among `+ - * // %`, both operands lowered left first. */
  function ParseBinOp(node: Ast.Expr, defined: set<string>, sigs: map<string, int>, classes: set<string>)
    : (r: Result<Expr, string>)
    requires node.BinOp?
    ensures r.Ok? ==> Lowered(r.value, defined, sigs, classes)
    ensures r.Ok? ==> r.value.BinOp? && BinOpSymbol(node.op) == Some(r.value.op)
    decreases node, 1
  {
    if BinOpSymbol(node.op).None? then Err("Unsupported binary operator: " + Ast.OperatorName(node.op))
    else
      var l :- ParseExpr(node.left, defined, sigs, classes);
      var r :- ParseExpr(node.right, defined, sigs, classes);
      Ok(BinOp(BinOpSymbol(node.op).value, l, r))
  }

  /** A single comparison among `== != < <= > >=`; chains are refused. */
  function ParseCompare(node: Ast.Expr, defined: set<string>, sigs: map<string, int>, classes: set<string>)
    : (r: Result<Expr, string>)
    requires node.Compare?
    ensures r.Ok? ==> Lowered(r.value, defined, sigs, classes)
    ensures |node.ops| != 1 || |node.comparators| != 1 ==> r == Err("Chained comparisons are not supported (e.g., 1 < x < 3)")
    decreases node, 1
  {
    if |node.ops| != 1 || |node.comparators| != 1 then Err("Chained comparisons are not supported (e.g., 1 < x < 3)")
    else if CmpOpSymbol(node.ops[0]).None? then Err("Unsupported comparison operator: " + Ast.CmpOperatorName(node.ops[0]))
    else
      var l :- ParseExpr(node.left, defined, sigs, classes);
      var r :- ParseExpr(node.comparators[0], defined, sigs, classes);
      Ok(CmpOp(CmpOpSymbol(node.ops[0]).value, l, r))
  }

  /** Lowers a list of arguments left to right; the first failure is the result. */
  function ParseExprs(args: seq<Ast.Expr>, defined: set<string>, sigs: map<string, int>, classes: set<string>)
    : (r: Result<seq<Expr>, string>)
    ensures r.Ok? ==> |r.value| == |args| && forall a | a in r.value :: Lowered(a, defined, sigs, classes)
    decreases args, 0
  {
    if args == [] then Ok([])
    else
      var e :- ParseExpr(args[0], defined, sigs, classes);
      var rest :- ParseExprs(args[1..], defined, sigs, classes);
      Ok([e] + rest)
  }

  /** Lowers a call: `obj.m(...)` on a defined receiver is a method call; a plain name resolves as
      a builtin, then as a class constructor, then as a known function with exactly its arity;
      `print` is statement-only. */
  function ParseCall(func: Ast.Expr, args: seq<Ast.Expr>, hasKeywords: bool, lineno: int,
                     defined: set<string>, sigs: map<string, int>, classes: set<string>)
    : (r: Result<Expr, string>)
    ensures r.Ok? ==> Lowered(r.value, defined, sigs, classes)
    ensures r.Ok? && func.Name? && func.id in Builtins ==> r.value.BuiltinCall? && r.value.name == func.id
    ensures r.Ok? && func.Name? && func.id !in Builtins && func.id in classes ==>
      r.value.ConstructorCall? && r.value.className == func.id
    ensures r.Ok? && func.Name? && func.id !in Builtins && func.id !in classes ==>
      r.value.Call? && func.id in sigs && |args| == sigs[func.id]
    ensures func.Attribute? && func.value.Name? && func.value.id !in defined ==> r.Err?
    ensures func.Name? && func.id == "print" ==> r.Err?
    decreases args, 2
  {
    if func.Attribute? then ParseMethodCall(func, args, hasKeywords, lineno, defined, sigs, classes)
    else if !func.Name? then Err("Only simple function calls by name are supported")
    else if func.id == "print" then Err("print(...) is only supported as a statement, not as an expression")
    else if func.id in Builtins then ParseBuiltinCall(func.id, args, hasKeywords, lineno, defined, sigs, classes)
    else if func.id in classes then ParseConstructorCall(func.id, args, hasKeywords, defined, sigs, classes)
    else ParseFunctionCall(func.id, args, hasKeywords, lineno, defined, sigs, classes)
  }

  /** A lowered call node is lowered when its arguments are and its callee resolves. */
  lemma LoweredCallNode(e: Expr, d: set<string>, sigs: map<string, int>, classes: set<string>)
    requires e.Call? || e.MethodCall? || e.ConstructorCall? || e.BuiltinCall?
    requires forall a | a in e.args :: Lowered(a, d, sigs, classes)
    requires e.MethodCall? ==> e.obj in d
    requires e.Call? ==> e.func !in Builtins && e.func !in classes && e.func in sigs && |e.args| == sigs[e.func]
    requires e.ConstructorCall? ==> e.className !in Builtins && e.className in classes
    requires e.BuiltinCall? ==> e.name in Builtins && BuiltinArityOk(e.name, |e.args|)
    ensures Lowered(e, d, sigs, classes)
  {
    assert forall a | a in e.args :: IsCoreExpr(a) && ExprScoped(a, d) && ExprCallsOk(a, sigs, classes) && ReceiversDefined(a, d);
  }

  /** A builtin: no keywords, the arguments lowered, then the arity checked. */
  function ParseBuiltinCall(f: string, args: seq<Ast.Expr>, hasKeywords: bool, lineno: int,
                            defined: set<string>, sigs: map<string, int>, classes: set<string>)
    : (r: Result<Expr, string>)
    requires f in Builtins
    ensures r.Ok? ==> Lowered(r.value, defined, sigs, classes)
    ensures r.Ok? ==> r.value.BuiltinCall? && r.value.name == f
    decreases args, 1
  {
    if hasKeywords then Err("Keyword arguments are not supported in builtin calls")
    else
      var es :- ParseExprs(args, defined, sigs, classes);
      var b := ParseBuiltin(f, es, lineno);
      if b.Ok? then LoweredCallNode(b.value, defined, sigs, classes); b else b
  }

  /** A constructor: no keywords, the arguments lowered. */
  function ParseConstructorCall(c: string, args: seq<Ast.Expr>, hasKeywords: bool,
                                defined: set<string>, sigs: map<string, int>, classes: set<string>)
    : (r: Result<Expr, string>)
    requires c !in Builtins && c in classes
    ensures r.Ok? ==> Lowered(r.value, defined, sigs, classes)
    ensures r.Ok? ==> r.value.ConstructorCall? && r.value.className == c
    decreases args, 1
  {
    if hasKeywords then Err("Keyword arguments are not supported in constructor calls")
    else
      var es :- ParseExprs(args, defined, sigs, classes);
      LoweredCallNode(ConstructorCall(c, es), defined, sigs, classes);
      Ok(ConstructorCall(c, es))
  }

  /** `obj.m(...)`: the receiver must be a defined name, and no keywords are allowed. */
  function ParseMethodCall(func: Ast.Expr, args: seq<Ast.Expr>, hasKeywords: bool, lineno: int,
                           defined: set<string>, sigs: map<string, int>, classes: set<string>)
    : (r: Result<Expr, string>)
    requires func.Attribute?
    ensures r.Ok? ==> Lowered(r.value, defined, sigs, classes)
    ensures func.value.Name? && func.value.id !in defined ==> r.Err?
    ensures r.Ok? ==> func.value.Name? && r.value.MethodCall? && r.value.obj == func.value.id && r.value.methodName == func.attr
    decreases args, 1
  {
    if !func.value.Name? then Err("Only simple variable.method() calls are supported")
    else if func.value.id !in defined then Err(At(lineno, "variable used before assignment: " + func.value.id))
    else if hasKeywords then Err("Keyword arguments are not supported")
    else
      var es :- ParseExprs(args, defined, sigs, classes);
      LoweredCallNode(MethodCall(func.value.id, func.attr, es), defined, sigs, classes);
      Ok(MethodCall(func.value.id, func.attr, es))
  }

  /** A call of a user function: known, without keywords, and with exactly its arity. */
  function ParseFunctionCall(f: string, args: seq<Ast.Expr>, hasKeywords: bool, lineno: int,
                             defined: set<string>, sigs: map<string, int>, classes: set<string>)
    : (r: Result<Expr, string>)
    requires f !in Builtins && f !in classes
    ensures r.Ok? ==> Lowered(r.value, defined, sigs, classes)
    ensures r.Ok? ==> r.value.Call? && r.value.func == f && f in sigs && |args| == sigs[f]
    decreases args, 1
  {
    if f !in sigs then Err(At(lineno, "call to unknown function or class: " + f))
    else if hasKeywords then Err("Keyword arguments are not supported")
    else if |args| != sigs[f] then
      Err(At(lineno, "function '" + f + "' expects " + Decimal.IntToString(sigs[f]) + " args, got " +
                     Decimal.IntToString(|args|)))
    else
      var es :- ParseExprs(args, defined, sigs, classes);
      LoweredCallNode(Call(f, es), defined, sigs, classes);
      Ok(Call(f, es))
  }

  /** Checks a builtin call's argument count against the arity table. */
  function ParseBuiltin(name: string, args: seq<Expr>, lineno: int): (r: Result<Expr, string>)
    ensures r.Ok? <==> BuiltinArityOk(name, |args|)
    ensures r.Ok? ==> r.value == BuiltinCall(name, args)
  {
    match BuiltinArity(name)
    case None => Ok(BuiltinCall(name, args))
    case Some(Exactly(n)) =>
      if |args| != n then
        Err(At(lineno, "builtin '" + name + "' expects " + Decimal.IntToString(n) + " argument(s), got " +
                       Decimal.IntToString(|args|)))
      else Ok(BuiltinCall(name, args))
    case Some(AtLeast(lo, hi)) =>
      if |args| < lo then
        Err(At(lineno, "builtin '" + name + "' expects at least " + Decimal.IntToString(lo) + " argument(s), got " +
                       Decimal.IntToString(|args|)))
      else if hi.Some? && |args| > hi.value then
        Err(At(lineno, "builtin '" + name + "' expects at most " + Decimal.IntToString(hi.value) + " argument(s), got " +
                       Decimal.IntToString(|args|)))
      else Ok(BuiltinCall(name, args))
  }

  // ---------------------------------------------------------------------------------------------
  // Parameters and signatures

  /** The names of positional parameters, in order. */
  function ArgNames(args: seq<Ast.Arg>): (r: seq<string>)
    ensures |r| == |args| && forall i :: 0 <= i < |args| ==> r[i] == args[i].arg
  {
    if args == [] then [] else [args[0].arg] + ArgNames(args[1..])
  }

  /** Collects parameter names, rejecting the first annotated one. */
  method CollectParams(args: seq<Ast.Arg>) returns (r: Result<seq<string>, string>)
    ensures r.Ok? <==> forall i :: 0 <= i < |args| ==> !args[i].hasAnnotation
    ensures r.Ok? ==> r.value == ArgNames(args)
  {
    var params: seq<string> := [];
    var i := 0;
    while i < |args|
      invariant 0 <= i <= |args|
      invariant params == ArgNames(args[..i])
      invariant forall k :: 0 <= k < i ==> !args[k].hasAnnotation
    {
      if args[i].hasAnnotation {
        return Err(At(args[i].lineno, "parameter annotations are not supported"));
      }
      assert args[..i + 1] == args[..i] + [args[i]];
      ArgNamesSnoc(args[..i], args[i]);
      params := params + [args[i].arg];
      i := i + 1;
    }
    assert args[..i] == args;
    r := Ok(params);
  }

  lemma {:induction false} ArgNamesSnoc(args: seq<Ast.Arg>, a: Ast.Arg)
    ensures ArgNames(args + [a]) == ArgNames(args) + [a.arg]
  {
  }

  /** The names of the top-level function definitions, in order. */
  function FunctionNames(body: seq<Ast.Stmt>): seq<string>
  {
    if body == [] then [] else (if body[0].FunctionDef? then [body[0].name] else []) + FunctionNames(body[1..])
  }

  /** The names of the top-level class definitions, in order. */
  function ClassNames(body: seq<Ast.Stmt>): seq<string>
  {
    if body == [] then [] else (if body[0].ClassDef? then [body[0].name] else []) + ClassNames(body[1..])
  }

  lemma {:induction false} FunctionNamesAppend(a: seq<Ast.Stmt>, b: seq<Ast.Stmt>)
    ensures FunctionNames(a + b) == FunctionNames(a) + FunctionNames(b)
    decreases a
  {
    if a == [] {
      assert [] + b == b;
    } else {
      assert (a + b)[0] == a[0];
      assert (a + b)[1..] == a[1..] + b;
      FunctionNamesAppend(a[1..], b);
    }
  }

  lemma {:induction false} ClassNamesAppend(a: seq<Ast.Stmt>, b: seq<Ast.Stmt>)
    ensures ClassNames(a + b) == ClassNames(a) + ClassNames(b)
    decreases a
  {
    if a == [] {
      assert [] + b == b;
    } else {
      assert (a + b)[0] == a[0];
      assert (a + b)[1..] == a[1..] + b;
      ClassNamesAppend(a[1..], b);
    }
  }

  /** Extending a prefix of a module body by one statement extends both name lists by its name
      when it defines one. */
  lemma PrefixNamesStep(body: seq<Ast.Stmt>, i: int)
    requires 0 <= i < |body|
    ensures FunctionNames(body[..i + 1]) == FunctionNames(body[..i]) + (if body[i].FunctionDef? then [body[i].name] else [])
    ensures ClassNames(body[..i + 1]) == ClassNames(body[..i]) + (if body[i].ClassDef? then [body[i].name] else [])
  {
    assert body[..i + 1] == body[..i] + [body[i]];
    FunctionNamesAppend(body[..i], [body[i]]);
    ClassNamesAppend(body[..i], [body[i]]);
    assert FunctionNames([body[i]]) == if body[i].FunctionDef? then [body[i].name] else [];
    assert ClassNames([body[i]]) == if body[i].ClassDef? then [body[i].name] else [];
  }

  /** Both name lists of a module body split around any prefix. */
  lemma PrefixNamesSplit(body: seq<Ast.Stmt>, i: int)
    requires 0 <= i < |body|
    ensures FunctionNames(body) == FunctionNames(body[..i + 1]) + FunctionNames(body[i + 1..])
    ensures ClassNames(body) == ClassNames(body[..i + 1]) + ClassNames(body[i + 1..])
  {
    assert body == body[..i + 1] + body[i + 1..];
    FunctionNamesAppend(body[..i + 1], body[i + 1..]);
    ClassNamesAppend(body[..i + 1], body[i + 1..]);
  }

  /** A name that occurs before it is repeated makes the whole list non-distinct. */
  lemma RepeatNotDistinct<T>(pre: seq<T>, x: T, rest: seq<T>)
    requires x in pre
    ensures !Distinct(pre + [x] + rest)
  {
    var j :| 0 <= j < |pre| && pre[j] == x;
    assert (pre + [x] + rest)[j] == (pre + [x] + rest)[|pre|];
  }

  /** The arities of the top-level functions (pass 1), in statement order. */
  method CollectFunctionSignatures(mod: Ast.Module) returns (r: Result<map<string, int>, string>)
    ensures r.Ok? <==> Distinct(FunctionNames(mod.body))
    ensures r.Ok? ==> r.value.Keys == set n | n in FunctionNames(mod.body)
    ensures r.Ok? ==> forall k | 0 <= k < |mod.body| && mod.body[k].FunctionDef? ::
      mod.body[k].name in r.value && r.value[mod.body[k].name] == |mod.body[k].args.args|
  {
    var body := mod.body;
    var sigs: map<string, int> := map[];
    var i := 0;
    while i < |body|
      invariant 0 <= i <= |body|
      invariant Distinct(FunctionNames(body[..i]))
      invariant sigs.Keys == set n | n in FunctionNames(body[..i])
      invariant forall k | 0 <= k < i && body[k].FunctionDef? :: body[k].name in sigs && sigs[body[k].name] == |body[k].args.args|
    {
      var stmt := body[i];
      PrefixNamesStep(body, i);
      if stmt.FunctionDef? {
        if stmt.name in sigs {
          PrefixNamesSplit(body, i);
          RepeatNotDistinct(FunctionNames(body[..i]), stmt.name, FunctionNames(body[i + 1..]));
          return Err(At(stmt.lineno, "duplicate function name: " + stmt.name));
        }
        DistinctSnoc(FunctionNames(body[..i]), stmt.name);
        sigs := sigs[stmt.name := |stmt.args.args|];
      }
      i := i + 1;
    }
    assert body[..i] == body;
    r := Ok(sigs);
  }

  /** A class header the parser accepts: no bases, no keywords, no decorators. */
  predicate PlainClassHeader(s: Ast.Stmt)
  {
    s.ClassDef? ==> !s.hasBases && !s.hasKeywords && !s.hasDecorators
  }

  /** The top-level class names (pass 1), rejecting repeats and class headers with bases,
      keywords or decorators. */
  method CollectClassSignatures(mod: Ast.Module) returns (r: Result<set<string>, string>)
    ensures r.Ok? <==> Distinct(ClassNames(mod.body)) && forall k :: 0 <= k < |mod.body| ==> PlainClassHeader(mod.body[k])
    ensures r.Ok? ==> r.value == set n | n in ClassNames(mod.body)
  {
    var body := mod.body;
    var classes: set<string> := {};
    var i := 0;
    while i < |body|
      invariant 0 <= i <= |body|
      invariant Distinct(ClassNames(body[..i])) && forall k :: 0 <= k < i ==> PlainClassHeader(body[k])
      invariant classes == set n | n in ClassNames(body[..i])
    {
      var stmt := body[i];
      PrefixNamesStep(body, i);
      if stmt.ClassDef? {
        if stmt.name in classes {
          PrefixNamesSplit(body, i);
          RepeatNotDistinct(ClassNames(body[..i]), stmt.name, ClassNames(body[i + 1..]));
          return Err(At(stmt.lineno, "duplicate class name: " + stmt.name));
        }
        if stmt.hasBases {
          return Err(At(stmt.lineno, "class inheritance is not supported"));
        }
        if stmt.hasKeywords {
          return Err(At(stmt.lineno, "class keywords are not supported"));
        }
        if stmt.hasDecorators {
          return Err(At(stmt.lineno, "class decorators are not supported"));
        }
        DistinctSnoc(ClassNames(body[..i]), stmt.name);
        classes := classes + {stmt.name};
      }
      i := i + 1;
    }
    assert body[..i] == body;
    r := Ok(classes);
  }

  /** The statement kinds rejected at module level before lowering. */
  const ModuleLevelUnsupported: set<string> := {"Import", "ImportFrom", "Lambda", "Try", "With", "Raise"}

  function ValidateModuleLevelStmt(s: Ast.Stmt): (r: Result<(), string>)
    ensures r.Err? <==> Ast.StmtKind(s) in ModuleLevelUnsupported
  {
    if Ast.StmtKind(s) in ModuleLevelUnsupported then Err(At(s.lineno, "unsupported statement: " + Ast.StmtKind(s)))
    else Ok(())
  }

  /** A `for` statement's iterator, checked and lowered to its (start, stop, step). */
  function ParseRange(it: Ast.Expr, lineno: int, defined: set<string>, sigs: map<string, int>, classes: set<string>)
    : (r: Result<(Expr, Expr, Expr), string>)
    ensures r.Ok? ==> it.Call? && !it.hasKeywords && Ast.IsNameCall(it, "range") && 1 <= |it.args| <= 3
    ensures r.Ok? ==> forall e | e in [r.value.0, r.value.1, r.value.2] :: Lowered(e, defined, sigs, classes)
    ensures r.Ok? && |it.args| == 1 ==> r.value.0 == IntConst(0) && r.value.2 == IntConst(1)
    ensures r.Ok? && |it.args| == 2 ==> r.value.2 == IntConst(1)
    ensures r.Ok? ==> r.value.2 != IntConst(0)
    ensures it.Call? && it.func.Name? && it.func.id == "range" && !it.hasKeywords && !(1 <= |it.args| <= 3) ==> r.Err?
  {
    if !it.Call? || it.hasKeywords then Err(At(lineno, "only for-in-range is supported"))
    else if !it.func.Name? || it.func.id != "range" then Err(At(lineno, "only for-in-range is supported"))
    else if !(1 <= |it.args| <= 3) then
      Err(At(lineno, "range() expects 1, 2, or 3 arguments, got " + Decimal.IntToString(|it.args|)))
    else
      var bounds :-
        if |it.args| == 1 then
          var stop :- ParseExpr(it.args[0], defined, sigs, classes);
          Ok((IntConst(0), stop, IntConst(1)))
        else if |it.args| == 2 then
          var start :- ParseExpr(it.args[0], defined, sigs, classes);
          var stop :- ParseExpr(it.args[1], defined, sigs, classes);
          Ok((start, stop, IntConst(1)))
        else
          var start :- ParseExpr(it.args[0], defined, sigs, classes);
          var stop :- ParseExpr(it.args[1], defined, sigs, classes);
          var step :- ParseExpr(it.args[2], defined, sigs, classes);
          Ok((start, stop, step));
      if bounds.2 == IntConst(0) then Err(At(lineno, "range() step must not be 0"))
      else Ok(bounds)
  }

  // ---------------------------------------------------------------------------------------------
  // Statements

  /** Lowers `x = e` or `o.a = e`: the value is lowered before x becomes defined. */
  function ParseAssign(targets: seq<Ast.Expr>, value: Ast.Expr, lineno: int, defined: set<string>,
                       sigs: map<string, int>, classes: set<string>)
    : (r: Result<(Stmt, set<string>), string>)
    ensures r.Ok? ==> StmtWellFormed(r.value.0, defined, 0, sigs, classes) && r.value.1 == DefinedAfter(r.value.0, defined)
    ensures r.Ok? ==> r.value.0.Assign? || r.value.0.AttrAssign?
    ensures r.Ok? && r.value.0.Assign? ==> r.value.1 == defined + {r.value.0.name}
    ensures |targets| != 1 ==> r.Err?
  {
    if |targets| != 1 then Err("Only single-target assignment is supported")
    else
      var t0 := targets[0];
      if t0.Name? && t0.ctx == Ast.Store then
        var e :- ParseExpr(value, defined, sigs, classes);
        Ok((Assign(t0.id, e), defined + {t0.id}))
      else if t0.Attribute? && t0.ctx == Ast.Store then
        if !t0.value.Name? then Err("Only simple variable.attribute assignment is supported")
        else if t0.value.id !in defined then Err(At(lineno, "variable used before assignment: " + t0.value.id))
        else
          var e :- ParseExpr(value, defined, sigs, classes);
          Ok((AttrAssign(t0.value.id, t0.attr, e), defined))
      else Err("Assignment target must be a variable name or attribute access")
  }

  /** Lowers an expression statement: `print(e)` with one positional argument, or a method call on
      a defined receiver; nothing else. */
  function ParseExprStmt(call: Ast.Expr, defined: set<string>, sigs: map<string, int>, classes: set<string>)
    : (r: Result<Stmt, string>)
    ensures r.Ok? ==> StmtWellFormed(r.value, defined, 0, sigs, classes) && DefinedAfter(r.value, defined) == defined
    ensures r.Ok? ==> (r.value.Print? && Ast.IsNameCall(call, "print") && |call.args| == 1 && !call.hasKeywords) ||
                      (r.value.MethodCallStmt? && call.Call? && call.func.Attribute? && r.value.obj in defined)
  {
    if !call.Call? then Err("Only function calls are supported as expression statements")
    else if Ast.IsNameCall(call, "print") then ParsePrint(call, defined, sigs, classes)
    else if call.func.Attribute? then ParseMethodStmt(call, defined, sigs, classes)
    else Err("Only print(...) or method calls are supported as expression statements")
  }

  /** `print(e)`: exactly one positional argument. */
  function ParsePrint(call: Ast.Expr, defined: set<string>, sigs: map<string, int>, classes: set<string>)
    : (r: Result<Stmt, string>)
    requires call.Call?
    ensures r.Ok? ==> StmtWellFormed(r.value, defined, 0, sigs, classes) && DefinedAfter(r.value, defined) == defined
    ensures r.Ok? ==> r.value.Print? && |call.args| == 1 && !call.hasKeywords
  {
    if |call.args| != 1 || call.hasKeywords then Err("print(...) must have exactly one positional argument")
    else
      var e :- ParseExpr(call.args[0], defined, sigs, classes);
      SimpleStmtWellFormed(Print(e), defined, 0, sigs, classes);
      Ok(Print(e))
  }

  /** `obj.m(...)` as a statement: the receiver a defined name, no keywords. */
  function ParseMethodStmt(call: Ast.Expr, defined: set<string>, sigs: map<string, int>, classes: set<string>)
    : (r: Result<Stmt, string>)
    requires call.Call? && call.func.Attribute?
    ensures r.Ok? ==> StmtWellFormed(r.value, defined, 0, sigs, classes) && DefinedAfter(r.value, defined) == defined
    ensures r.Ok? ==> r.value.MethodCallStmt? && r.value.obj in defined
  {
    if !call.func.value.Name? then Err("Only simple variable.method() calls are supported")
    else if call.func.value.id !in defined then
      Err(At(call.lineno, "variable used before assignment: " + call.func.value.id))
    else if call.hasKeywords then Err("Keyword arguments are not supported")
    else
      var es :- ParseExprs(call.args, defined, sigs, classes);
      SimpleStmtWellFormed(MethodCallStmt(call.func.value.id, call.func.attr, es), defined, 0, sigs, classes);
      Ok(MethodCallStmt(call.func.value.id, call.func.attr, es))
  }

  /** A `print` or `return` of a lowered expression, a method call on a defined receiver with
      lowered arguments, or a `break`/`continue` inside a loop, is well formed and defines nothing. */
  lemma SimpleStmtWellFormed(s: Stmt, d: set<string>, depth: int, sigs: map<string, int>, classes: set<string>)
    requires s.Print? || s.Return? ==> Lowered(s.expr, d, sigs, classes)
    requires s.MethodCallStmt? ==> s.obj in d && forall a | a in s.args :: Lowered(a, d, sigs, classes)
    requires s.Break? || s.Continue? ==> depth > 0
    requires s.Print? || s.MethodCallStmt? || s.Return? || s.Break? || s.Continue?
    ensures StmtWellFormed(s, d, depth, sigs, classes) && DefinedAfter(s, d) == d
  {
    if s.MethodCallStmt? {
      assert forall a | a in s.args :: IsCoreExpr(a) && ExprScoped(a, d) && ExprCallsOk(a, sigs, classes);
    }
  }

  /** Class-body statement s declares field f: `f = ...` with a single name target. */
  predicate DeclaresField(s: Ast.Stmt, f: string)
  {
    s.Assign? && |s.targets| == 1 && s.targets[0].Name? && s.targets[0].id == f
  }

  /** The pass-2 lowering with the pass-1 tables it resolves calls against. */
  class Parser {
    var fnSigs: map<string, int>
    var classDefs: set<string>
    /** The class whose body is being lowered; set on entry to a class and cleared on success. */
    var currentClass: string

    constructor ()
      ensures fnSigs == map[] && classDefs == {} && currentClass == ""
    {
      fnSigs := map[];
      classDefs := {};
      currentClass := "";
    }

    /** Parses a whole module: pass 1 fills the tables, then each top-level function, class and
        main-block statement is lowered in order. */
    method Parse(mod: Ast.Module) returns (r: Result<ModuleIR, string>)
      modifies this
      ensures r.Ok? ==>
        Distinct(FunctionNames(mod.body)) && fnSigs.Keys == (set n | n in FunctionNames(mod.body)) &&
        Distinct(ClassNames(mod.body)) && classDefs == (set n | n in ClassNames(mod.body)) &&
        ModuleWellFormed(r.value, fnSigs, classDefs)
      ensures r.Ok? ==> |r.value.functions| == |FunctionNames(mod.body)| && |r.value.classes| == |ClassNames(mod.body)|
    {
      var sigs :- CollectFunctionSignatures(mod);
      fnSigs := sigs;
      var classes :- CollectClassSignatures(mod);
      classDefs := classes;
      var body := mod.body;
      var functions: seq<FunctionDef> := [];
      var classIRs: seq<ClassDef> := [];
      var mainStmts: seq<Stmt> := [];
      var definedMain: set<string> := {};
      var i := 0;
      while i < |body|
        invariant 0 <= i <= |body|
        invariant fnSigs == sigs && classDefs == classes
        invariant forall f | f in functions :: WellFormedBlock(f.body, set p | p in f.params, 0, fnSigs, classDefs)
        invariant forall c | c in classIRs :: MethodsOk(c.methods)
        invariant WellFormedBlock(mainStmts, {}, 0, fnSigs, classDefs) && definedMain == DefinedAfterSeq(mainStmts, {})
        invariant |functions| == |FunctionNames(body[..i])| && |classIRs| == |ClassNames(body[..i])|
      {
        var stmt := body[i];
        PrefixNamesStep(body, i);
        if stmt.FunctionDef? {
          var f :- ParseFunctionDef(stmt);
          functions := functions + [f];
        } else if stmt.ClassDef? {
          var c :- ParseClassDef(stmt);
          classIRs := classIRs + [c];
        } else {
          var main :- ParseMainStmt(stmt, mainStmts, definedMain);
          mainStmts, definedMain := main.0, main.1;
        }
        i := i + 1;
      }
      assert body[..i] == body;
      r := Ok(ModuleIR(functions, classIRs, mainStmts));
    }

    /** Appends one validated main-block statement, lowered at depth 0 from what the block
        defines so far. */
    method ParseMainStmt(stmt: Ast.Stmt, mainStmts: seq<Stmt>, definedMain: set<string>)
      returns (r: Result<(seq<Stmt>, set<string>), string>)
      requires WellFormedBlock(mainStmts, {}, 0, fnSigs, classDefs) && definedMain == DefinedAfterSeq(mainStmts, {})
      ensures r.Ok? ==> WellFormedBlock(r.value.0, {}, 0, fnSigs, classDefs) && r.value.1 == DefinedAfterSeq(r.value.0, {})
      ensures r.Ok? ==> |r.value.0| == |mainStmts| + 1 && r.value.0[..|mainStmts|] == mainStmts
    {
      var _ :- ValidateModuleLevelStmt(stmt);
      var res :- ParseStmt(stmt, definedMain, 0);
      WellFormedBlockSnoc(mainStmts, res.0, {}, 0, fnSigs, classDefs);
      r := Ok((mainStmts + [res.0], res.1));
    }

    /** Every method body is well formed from its parameters and `self`. */
    predicate MethodsOk(methods: seq<FunctionDef>)
      reads this
    {
      forall f | f in methods :: WellFormedBlock(f.body, (set p | p in f.params) + {"self"}, 0, fnSigs, classDefs)
    }

    /** Lowers a top-level function: no decorators, return annotation or non-positional parameters;
        the body is lowered from the parameters at loop depth 0. */
    method ParseFunctionDef(fn: Ast.Stmt) returns (r: Result<FunctionDef, string>)
      requires fn.FunctionDef?
      ensures r.Ok? ==> r.value.name == fn.name && r.value.params == ArgNames(fn.args.args) && r.value.lineno == fn.lineno
      ensures r.Ok? ==> WellFormedBlock(r.value.body, set p | p in r.value.params, 0, fnSigs, classDefs)
      ensures r.Ok? ==> !fn.hasDecorators && !fn.hasReturns && Ast.SimpleArguments(fn.args)
    {
      if fn.hasDecorators {
        return Err(At(fn.lineno, "decorators are not supported"));
      }
      if fn.hasReturns {
        return Err(At(fn.lineno, "return annotations are not supported"));
      }
      if !Ast.SimpleArguments(fn.args) {
        return Err(At(fn.lineno, "only simple positional parameters are supported"));
      }
      var params :- CollectParams(fn.args.args);
      var blk :- ParseBlock(fn.body, set p | p in params, 0);
      r := Ok(FunctionDef(fn.name, params, blk.0, fn.lineno));
    }

    /** Lowers a method: as a function, and the first parameter must be `self`, which is dropped
        from the parameters and defined in the body. */
    method ParseMethodDef(fn: Ast.Stmt) returns (r: Result<FunctionDef, string>)
      requires fn.FunctionDef?
      ensures r.Ok? ==> |fn.args.args| >= 1 && fn.args.args[0].arg == "self"
      ensures r.Ok? ==> r.value.name == fn.name && r.value.params == ArgNames(fn.args.args[1..])
      ensures r.Ok? ==> WellFormedBlock(r.value.body, (set p | p in r.value.params) + {"self"}, 0, fnSigs, classDefs)
      ensures r.Ok? ==> !fn.hasDecorators && !fn.hasReturns && Ast.SimpleArguments(fn.args)
    {
      if fn.hasDecorators {
        return Err(At(fn.lineno, "decorators are not supported"));
      }
      if fn.hasReturns {
        return Err(At(fn.lineno, "return annotations are not supported"));
      }
      if !Ast.SimpleArguments(fn.args) {
        return Err(At(fn.lineno, "only simple positional parameters are supported"));
      }
      if |fn.args.args| == 0 || fn.args.args[0].arg != "self" {
        return Err(At(fn.lineno, "method first parameter must be 'self'"));
      }
      var params :- CollectParams(fn.args.args[1..]);
      var blk :- ParseBlock(fn.body, (set p | p in params) + {"self"}, 0);
      r := Ok(FunctionDef(fn.name, params, blk.0, fn.lineno));
    }

    /** Lowers a class: methods are lowered, single-name assignments declare fields (their values
        are not lowered), and anything else is rejected. */
    method ParseClassDef(node: Ast.Stmt) returns (r: Result<ClassDef, string>)
      requires node.ClassDef?
      modifies this`currentClass
      ensures r.Ok? ==> r.value.name == node.name && r.value.lineno == node.lineno && currentClass == ""
      ensures r.Err? ==> currentClass == node.name
      ensures r.Ok? ==> MethodsOk(r.value.methods) && Distinct(r.value.fields)
      ensures r.Ok? ==> forall f | f in r.value.fields :: exists k :: 0 <= k < |node.body| && DeclaresField(node.body[k], f)
      ensures r.Ok? ==> forall k, f | 0 <= k < |node.body| && DeclaresField(node.body[k], f) :: f in r.value.fields
    {
      currentClass := node.name;
      var methods: seq<FunctionDef> := [];
      var fields: seq<string> := [];
      var i := 0;
      while i < |node.body|
        invariant 0 <= i <= |node.body| && currentClass == node.name
        invariant MethodsOk(methods) && Distinct(fields)
        invariant forall f | f in fields :: exists k :: 0 <= k < i && DeclaresField(node.body[k], f)
        invariant forall k, f | 0 <= k < i && DeclaresField(node.body[k], f) :: f in fields
      {
        var item := node.body[i];
        if item.FunctionDef? {
          var m :- ParseMethodDef(item);
          methods := methods + [m];
        } else if item.Assign? {
          if |item.targets| != 1 {
            return Err(At(node.lineno, "only single-target assignment is supported in class"));
          }
          var target := item.targets[0];
          if !target.Name? {
            return Err(At(node.lineno, "class field must be a simple name"));
          }
          assert DeclaresField(node.body[i], target.id);
          if target.id !in fields {
            DistinctSnoc(fields, target.id);
            fields := fields + [target.id];
          }
        } else {
          return Err(At(node.lineno, "only methods and field assignments allowed in class"));
        }
        i := i + 1;
      }
      currentClass := "";
      r := Ok(ClassDef(node.name, methods, fields, node.lineno));
    }

    /** Lowers a block statement by statement, threading the defined set. */
    method ParseBlock(ss: seq<Ast.Stmt>, defined: set<string>, depth: int) returns (r: Result<(seq<Stmt>, set<string>), string>)
      ensures r.Ok? ==> |r.value.0| == |ss|
      ensures r.Ok? ==> WellFormedBlock(r.value.0, defined, depth, fnSigs, classDefs) && r.value.1 == DefinedAfterSeq(r.value.0, defined)
      decreases ss
    {
      var body: seq<Stmt> := [];
      var d := defined;
      var i := 0;
      while i < |ss|
        invariant 0 <= i <= |ss| && |body| == i
        invariant WellFormedBlock(body, defined, depth, fnSigs, classDefs) && d == DefinedAfterSeq(body, defined)
      {
        var res :- ParseStmt(ss[i], d, depth);
        WellFormedBlockSnoc(body, res.0, defined, depth, fnSigs, classDefs);
        body := body + [res.0];
        d := res.1;
        i := i + 1;
      }
      r := Ok((body, d));
    }

    /** Lowers one statement, dispatching on its kind. */
    method ParseStmt(stmt: Ast.Stmt, defined: set<string>, depth: int) returns (r: Result<(Stmt, set<string>), string>)
      ensures r.Ok? ==> StmtWellFormed(r.value.0, defined, depth, fnSigs, classDefs) && r.value.1 == DefinedAfter(r.value.0, defined)
      ensures (stmt.Break? || stmt.Continue?) ==> (r.Ok? <==> depth > 0)
      ensures stmt.Return? && stmt.returned.None? ==> r == Ok((Return(IntConst(0)), defined))
      ensures stmt.Global? || stmt.Nonlocal? || stmt.FunctionDef? || stmt.ClassDef? || stmt.OtherStmt? ==> r.Err?
      decreases stmt, 1
    {
      match stmt
      case Assign(targets, value, lineno) =>
        var res :- ParseAssign(targets, value, lineno, defined, fnSigs, classDefs);
        r := Ok(res);
      case ExprStmt(value, _) =>
        var s :- ParseExprStmt(value, defined, fnSigs, classDefs);
        r := Ok((s, defined));
      case If(_, _, _, _) =>
        r := ParseIf(stmt, defined, depth);
      case While(_, _, _, _) =>
        r := ParseWhile(stmt, defined, depth);
      case For(_, _, _, _, _) =>
        r := ParseFor(stmt, defined, depth);
      case _ =>
        r := ParseSimpleStmt(stmt, defined, depth);
    }

    /** Lowers the statements without sub-blocks: `return`, `break`, `continue`, and the rejected
        kinds. */
    method ParseSimpleStmt(stmt: Ast.Stmt, defined: set<string>, depth: int) returns (r: Result<(Stmt, set<string>), string>)
      requires !stmt.Assign? && !stmt.ExprStmt? && !stmt.If? && !stmt.While? && !stmt.For?
      ensures r.Ok? ==> StmtWellFormed(r.value.0, defined, depth, fnSigs, classDefs) && r.value.1 == defined
      ensures r.Ok? ==> DefinedAfter(r.value.0, defined) == defined
      ensures (stmt.Break? || stmt.Continue?) ==> (r.Ok? <==> depth > 0)
      ensures stmt.Return? && stmt.returned.None? ==> r == Ok((Return(IntConst(0)), defined))
      ensures stmt.Global? || stmt.Nonlocal? || stmt.FunctionDef? || stmt.ClassDef? || stmt.OtherStmt? ==> r.Err?
    {
      match stmt
      case Return(value, _) =>
        if value.None? {
          r := Ok((Return(IntConst(0)), defined));
        } else {
          var e :- ParseExpr(value.value, defined, fnSigs, classDefs);
          SimpleStmtWellFormed(Return(e), defined, depth, fnSigs, classDefs);
          r := Ok((Return(e), defined));
        }
      case Break(lineno) =>
        if depth <= 0 {
          return Err(At(lineno, "break outside loop"));
        }
        SimpleStmtWellFormed(Break(lineno), defined, depth, fnSigs, classDefs);
        r := Ok((Break(lineno), defined));
      case Continue(lineno) =>
        if depth <= 0 {
          return Err(At(lineno, "continue outside loop"));
        }
        SimpleStmtWellFormed(Continue(lineno), defined, depth, fnSigs, classDefs);
        r := Ok((Continue(lineno), defined));
      case Global(lineno) =>
        r := Err(At(lineno, "global/nonlocal not supported"));
      case Nonlocal(lineno) =>
        r := Err(At(lineno, "global/nonlocal not supported"));
      case _ =>
        r := Err("Unsupported statement: " + Ast.StmtKind(stmt));
    }

    /** Both branches are lowered from copies of the incoming set, at the same depth, and what
        either defines is defined afterwards. */
    method ParseIf(stmt: Ast.Stmt, defined: set<string>, depth: int) returns (r: Result<(Stmt, set<string>), string>)
      requires stmt.If?
      ensures r.Ok? ==> StmtWellFormed(r.value.0, defined, depth, fnSigs, classDefs) && r.value.1 == DefinedAfter(r.value.0, defined)
      ensures r.Ok? ==> r.value.0.If? && |r.value.0.body| == |stmt.body| && |r.value.0.orelse| == |stmt.orelse|
      decreases stmt, 0
    {
      var test :- ParseExpr(stmt.test, defined, fnSigs, classDefs);
      var b :- ParseBlock(stmt.body, defined, depth);
      var o :- ParseBlock(stmt.orelse, defined, depth);
      IfWellFormed(test, b.0, o.0, defined, depth, fnSigs, classDefs);
      r := Ok((If(test, b.0, o.0), defined + (b.1 + o.1)));
    }

    /** A while body is lowered one loop deeper; `while ... else` is rejected. */
    method ParseWhile(stmt: Ast.Stmt, defined: set<string>, depth: int) returns (r: Result<(Stmt, set<string>), string>)
      requires stmt.While?
      ensures r.Ok? ==> StmtWellFormed(r.value.0, defined, depth, fnSigs, classDefs) && r.value.1 == DefinedAfter(r.value.0, defined)
      ensures r.Ok? ==> r.value.0.While? && stmt.orelse == []
      decreases stmt, 0
    {
      if stmt.orelse != [] {
        return Err("while-else is not supported");
      }
      var test :- ParseExpr(stmt.test, defined, fnSigs, classDefs);
      var b :- ParseBlock(stmt.body, defined, depth + 1);
      WhileWellFormed(test, b.0, defined, depth, fnSigs, classDefs);
      r := Ok((While(test, b.0), defined + b.1));
    }

    /** `for x in range(...)`: the body is lowered one loop deeper from a copy that already holds
        x; for-else, other targets and other iterators are rejected. */
    method ParseFor(stmt: Ast.Stmt, defined: set<string>, depth: int) returns (r: Result<(Stmt, set<string>), string>)
      requires stmt.For?
      ensures r.Ok? ==> StmtWellFormed(r.value.0, defined, depth, fnSigs, classDefs) && r.value.1 == DefinedAfter(r.value.0, defined)
      ensures r.Ok? ==>
        stmt.orelse == [] && stmt.target.Name? && r.value.0.ForRange? &&
        r.value.0.loopVar == stmt.target.id && r.value.0.lineno == stmt.lineno && r.value.0.step != IntConst(0)
      decreases stmt, 0
    {
      if stmt.orelse != [] {
        return Err(At(stmt.lineno, "for-else is not supported"));
      }
      if !stmt.target.Name? || stmt.target.ctx != Ast.Store {
        return Err(At(stmt.lineno, "for target must be a variable name"));
      }
      var x := stmt.target.id;
      var bounds :- ParseRange(stmt.iter, stmt.lineno, defined, fnSigs, classDefs);
      var b :- ParseBlock(stmt.body, defined + {x}, depth + 1);
      assert Lowered(bounds.0, defined, fnSigs, classDefs) && Lowered(bounds.1, defined, fnSigs, classDefs) &&
        Lowered(bounds.2, defined, fnSigs, classDefs);
      ForWellFormed(x, bounds.0, bounds.1, bounds.2, b.0, stmt.lineno, defined, depth, fnSigs, classDefs);
      r := Ok((ForRange(x, bounds.0, bounds.1, bounds.2, b.0, stmt.lineno), defined + b.1));
    }
  }
}
