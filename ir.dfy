/** The intermediate representation shared by the front ends and the back ends (pcc/ir/nodes.py).

    Every node class of the IR is a frozen dataclass: it is built once and never updated, so each
    family becomes a Dafny datatype.  Besides the eleven expression kinds and ten statement kinds of
    the IR proper, the back ends handle five more nodes (list and dict displays, subscripts,
    try/except and raise) that the IR package itself does not provide; they are declared here too,
    with the fields the back ends read, and `IsCoreExpr`/`IsCoreStmt` say which nodes belong to the
    IR proper.

    The module also holds the reference definitions the parsers are proved against: which names a
    statement leaves defined, when every name read is already defined, when every `break` and
    `continue` sits inside a loop, and when every call resolves. */
module IR {
  import opened Wrappers

  datatype Expr =
    | IntConst(ival: int)                    // unbounded, like a Python int
    | FloatConst(literal: string)            // a float literal, kept as its source text
    | StrConst(sval: string)
    | Var(name: string)
    | BinOp(op: string, left: Expr, right: Expr)
    | CmpOp(op: string, left: Expr, right: Expr)
    | Call(func: string, args: seq<Expr>)
    | AttributeAccess(obj: string, attr: string)
    | MethodCall(obj: string, methodName: string, args: seq<Expr>)
    | ConstructorCall(className: string, args: seq<Expr>)
    | BuiltinCall(name: string, args: seq<Expr>)
    // nodes only the back ends know
    | ListConst(elements: seq<Expr>)
    | DictConst(keys: seq<Expr>, values: seq<Expr>)
    | Subscript(target: string, index: Expr)

  datatype Stmt =
    | Assign(name: string, expr: Expr)
    | AttrAssign(obj: string, attr: string, expr: Expr)
    | MethodCallStmt(obj: string, methodName: string, args: seq<Expr>)
    | Print(expr: Expr)
    | If(test: Expr, body: seq<Stmt>, orelse: seq<Stmt>)
    | While(test: Expr, body: seq<Stmt>)
    | ForRange(loopVar: string, start: Expr, stop: Expr, step: Expr, body: seq<Stmt>, lineno: int)
    | Return(expr: Expr)
    | Break(lineno: int)
    | Continue(lineno: int)
    // nodes only the back ends know
    | TryExcept(body: seq<Stmt>, excName: Option<string>, handler: seq<Stmt>)
    | Raise(excName: Option<string>, message: Option<string>, lineno: int)

  datatype FunctionDef = FunctionDef(name: string, params: seq<string>, body: seq<Stmt>, lineno: int)

  datatype ClassDef = ClassDef(name: string, methods: seq<FunctionDef>, fields: seq<string>, lineno: int)

  datatype ModuleIR = ModuleIR(functions: seq<FunctionDef>, classes: seq<ClassDef>, main: seq<Stmt>)

  /** The seven builtins every front end resolves before user functions. */
  const Builtins: set<string> := {"len", "abs", "min", "max", "pow", "str", "int"}

  /** The operators the IR documents for BinOp and CmpOp. */
  const BinOps: set<string> := {"+", "-", "*", "//", "%"}
  const CmpOps: set<string> := {"==", "!=", "<", "<=", ">", ">="}

  // ---------------------------------------------------------------------------------------------
  // Membership in the IR proper: the node kinds and operators the IR documents

  predicate IsCoreExpr(e: Expr)
    decreases e
  {
    match e
    case ListConst(_) => false
    case DictConst(_, _) => false
    case Subscript(_, _) => false
    case BinOp(op, l, r) => op in BinOps && IsCoreExpr(l) && IsCoreExpr(r)
    case CmpOp(op, l, r) => op in CmpOps && IsCoreExpr(l) && IsCoreExpr(r)
    case Call(_, args) => forall a | a in args :: IsCoreExpr(a)
    case MethodCall(_, _, args) => forall a | a in args :: IsCoreExpr(a)
    case ConstructorCall(_, args) => forall a | a in args :: IsCoreExpr(a)
    case BuiltinCall(_, args) => forall a | a in args :: IsCoreExpr(a)
    case _ => true
  }

  predicate IsCoreStmt(s: Stmt)
    decreases s
  {
    match s
    case Assign(_, e) => IsCoreExpr(e)
    case AttrAssign(_, _, e) => IsCoreExpr(e)
    case MethodCallStmt(_, _, args) => forall a | a in args :: IsCoreExpr(a)
    case Print(e) => IsCoreExpr(e)
    case If(t, b, o) => IsCoreExpr(t) && IsCoreSeq(b) && IsCoreSeq(o)
    case While(t, b) => IsCoreExpr(t) && IsCoreSeq(b)
    case ForRange(_, a, z, st, b, _) => IsCoreExpr(a) && IsCoreExpr(z) && IsCoreExpr(st) && IsCoreSeq(b)
    case Return(e) => IsCoreExpr(e)
    case Break(_) => true
    case Continue(_) => true
    case TryExcept(_, _, _) => false
    case Raise(_, _, _) => false
  }

  predicate IsCoreSeq(ss: seq<Stmt>)
    decreases ss
  {
    forall s | s in ss :: IsCoreStmt(s)
  }

  // ---------------------------------------------------------------------------------------------
  // Scoping: which names a statement defines, and which it reads before they are defined

  /** The names defined after running s with d defined: an assignment adds its target, an if adds
      what either branch defines, a loop adds what its body defines, and a for loop also its
      variable. */
  function DefinedAfter(s: Stmt, d: set<string>): set<string>
    decreases s
  {
    match s
    case Assign(x, _) => d + {x}
    case If(_, b, o) => DefinedAfterSeq(b, d) + DefinedAfterSeq(o, d)
    case While(_, b) => DefinedAfterSeq(b, d)
    case ForRange(x, _, _, _, b, _) => DefinedAfterSeq(b, d + {x})
    case _ => d
  }

  function DefinedAfterSeq(ss: seq<Stmt>, d: set<string>): set<string>
    decreases ss
  {
    if ss == [] then d else DefinedAfterSeq(ss[1..], DefinedAfter(ss[0], d))
  }

  /** Every variable read and every attribute read names a defined object.  A method call used as
      an expression does not check its receiver. */
  predicate ExprScoped(e: Expr, d: set<string>)
    decreases e
  {
    match e
    case Var(x) => x in d
    case AttributeAccess(o, _) => o in d
    case BinOp(_, l, r) => ExprScoped(l, d) && ExprScoped(r, d)
    case CmpOp(_, l, r) => ExprScoped(l, d) && ExprScoped(r, d)
    case Call(_, args) => forall a | a in args :: ExprScoped(a, d)
    case MethodCall(_, _, args) => forall a | a in args :: ExprScoped(a, d)
    case ConstructorCall(_, args) => forall a | a in args :: ExprScoped(a, d)
    case BuiltinCall(_, args) => forall a | a in args :: ExprScoped(a, d)
    case ListConst(es) => forall a | a in es :: ExprScoped(a, d)
    case DictConst(ks, vs) => (forall a | a in ks :: ExprScoped(a, d)) && (forall a | a in vs :: ExprScoped(a, d))
    case Subscript(o, i) => o in d && ExprScoped(i, d)
    case _ => true
  }

  /** Statement s reads only names defined in d (sequentially through blocks).  The receivers of
      attribute assignments and method-call statements must be defined. */
  predicate StmtScoped(s: Stmt, d: set<string>)
    decreases s
  {
    match s
    case Assign(_, e) => ExprScoped(e, d)
    case AttrAssign(o, _, e) => o in d && ExprScoped(e, d)
    case MethodCallStmt(o, _, args) => o in d && forall a | a in args :: ExprScoped(a, d)
    case Print(e) => ExprScoped(e, d)
    case If(t, b, o) => ExprScoped(t, d) && SeqScoped(b, d) && SeqScoped(o, d)
    case While(t, b) => ExprScoped(t, d) && SeqScoped(b, d)
    case ForRange(x, a, z, st, b, _) =>
      ExprScoped(a, d) && ExprScoped(z, d) && ExprScoped(st, d) && SeqScoped(b, d + {x})
    case Return(e) => ExprScoped(e, d)
    case TryExcept(b, _, h) => SeqScoped(b, d) && SeqScoped(h, d)
    case _ => true
  }

  predicate SeqScoped(ss: seq<Stmt>, d: set<string>)
    decreases ss
  {
    ss == [] || (StmtScoped(ss[0], d) && SeqScoped(ss[1..], DefinedAfter(ss[0], d)))
  }

  /** Definitions only accumulate. */
  lemma {:induction false} DefinedAfterGrows(s: Stmt, d: set<string>)
    ensures d <= DefinedAfter(s, d)
    decreases s
  {
    match s
    case If(_, b, o) => DefinedAfterSeqGrows(b, d);
    case While(_, b) => DefinedAfterSeqGrows(b, d);
    case ForRange(x, _, _, _, b, _) => DefinedAfterSeqGrows(b, d + {x});
    case _ =>
  }

  lemma {:induction false} DefinedAfterSeqGrows(ss: seq<Stmt>, d: set<string>)
    ensures d <= DefinedAfterSeq(ss, d)
    decreases ss
  {
    if ss != [] {
      DefinedAfterGrows(ss[0], d);
      DefinedAfterSeqGrows(ss[1..], DefinedAfter(ss[0], d));
    }
  }

  /** Appending one statement to a block: the block's definitions thread through it. */
  lemma {:induction false} DefinedAfterSeqSnoc(ss: seq<Stmt>, s: Stmt, d: set<string>)
    ensures DefinedAfterSeq(ss + [s], d) == DefinedAfter(s, DefinedAfterSeq(ss, d))
    decreases ss
  {
    if ss == [] {
      assert ([] + [s])[1..] == [];
    } else {
      assert (ss + [s])[0] == ss[0];
      assert (ss + [s])[1..] == ss[1..] + [s];
      DefinedAfterSeqSnoc(ss[1..], s, DefinedAfter(ss[0], d));
    }
  }

  /** A block stays well scoped when a statement that is scoped after it is appended. */
  lemma {:induction false} SeqScopedSnoc(ss: seq<Stmt>, s: Stmt, d: set<string>)
    requires SeqScoped(ss, d) && StmtScoped(s, DefinedAfterSeq(ss, d))
    ensures SeqScoped(ss + [s], d)
    decreases ss
  {
    if ss == [] {
      assert [] + [s] == [s];
      assert [s][1..] == [];
    } else {
      assert (ss + [s])[0] == ss[0];
      assert (ss + [s])[1..] == ss[1..] + [s];
      SeqScopedSnoc(ss[1..], s, DefinedAfter(ss[0], d));
    }
  }

  // ---------------------------------------------------------------------------------------------
  // Loop discipline

  /** Every `break`/`continue` of s is inside a loop, given that s itself sits `depth` loops deep. */
  predicate StmtLoopSafe(s: Stmt, depth: int)
    decreases s
  {
    match s
    case Break(_) => depth > 0
    case Continue(_) => depth > 0
    case If(_, b, o) => SeqLoopSafe(b, depth) && SeqLoopSafe(o, depth)
    case While(_, b) => SeqLoopSafe(b, depth + 1)
    case ForRange(_, _, _, _, b, _) => SeqLoopSafe(b, depth + 1)
    case TryExcept(b, _, h) => SeqLoopSafe(b, depth) && SeqLoopSafe(h, depth)
    case _ => true
  }

  predicate SeqLoopSafe(ss: seq<Stmt>, depth: int)
    decreases ss
  {
    forall s | s in ss :: StmtLoopSafe(s, depth)
  }

  // ---------------------------------------------------------------------------------------------
  // Call resolution

  /** The argument counts the parsers accept for each builtin: one for len/abs/str/int, two or
      three for pow, at least one for min/max. */
  predicate BuiltinArityOk(name: string, n: nat)
  {
    if name in {"len", "abs", "str", "int"} then n == 1
    else if name == "pow" then 2 <= n <= 3
    else if name in {"min", "max"} then n >= 1
    else true
  }

  datatype Arity = Exactly(n: nat) | AtLeast(lo: nat, hi: Option<nat>)

  /** The arity table both parsers check builtin calls against: the same counts as
      `BuiltinArityOk`, with the bounds the error messages name. */
  function BuiltinArity(name: string): Option<Arity>
  {
    if name in {"len", "abs", "str", "int"} then Some(Exactly(1))
    else if name == "pow" then Some(AtLeast(2, Some(3)))
    else if name in {"min", "max"} then Some(AtLeast(1, None))
    else None
  }

  /** Every call in e resolves: builtins first (with an accepted arity), then classes, then a known
      function called with exactly its arity. */
  predicate ExprCallsOk(e: Expr, sigs: map<string, int>, classes: set<string>)
    decreases e
  {
    match e
    case BinOp(_, l, r) => ExprCallsOk(l, sigs, classes) && ExprCallsOk(r, sigs, classes)
    case CmpOp(_, l, r) => ExprCallsOk(l, sigs, classes) && ExprCallsOk(r, sigs, classes)
    case Call(f, args) =>
      f !in Builtins && f !in classes && f in sigs && |args| == sigs[f] &&
      forall a | a in args :: ExprCallsOk(a, sigs, classes)
    case MethodCall(_, _, args) => forall a | a in args :: ExprCallsOk(a, sigs, classes)
    case ConstructorCall(c, args) =>
      c !in Builtins && c in classes && forall a | a in args :: ExprCallsOk(a, sigs, classes)
    case BuiltinCall(n, args) =>
      n in Builtins && BuiltinArityOk(n, |args|) && forall a | a in args :: ExprCallsOk(a, sigs, classes)
    case ListConst(es) => forall a | a in es :: ExprCallsOk(a, sigs, classes)
    case DictConst(ks, vs) =>
      (forall a | a in ks :: ExprCallsOk(a, sigs, classes)) && (forall a | a in vs :: ExprCallsOk(a, sigs, classes))
    case Subscript(_, i) => ExprCallsOk(i, sigs, classes)
    case _ => true
  }

  predicate StmtCallsOk(s: Stmt, sigs: map<string, int>, classes: set<string>)
    decreases s
  {
    match s
    case Assign(_, e) => ExprCallsOk(e, sigs, classes)
    case AttrAssign(_, _, e) => ExprCallsOk(e, sigs, classes)
    case MethodCallStmt(_, _, args) => forall a | a in args :: ExprCallsOk(a, sigs, classes)
    case Print(e) => ExprCallsOk(e, sigs, classes)
    case If(t, b, o) => ExprCallsOk(t, sigs, classes) && SeqCallsOk(b, sigs, classes) && SeqCallsOk(o, sigs, classes)
    case While(t, b) => ExprCallsOk(t, sigs, classes) && SeqCallsOk(b, sigs, classes)
    case ForRange(_, a, z, st, b, _) =>
      ExprCallsOk(a, sigs, classes) && ExprCallsOk(z, sigs, classes) && ExprCallsOk(st, sigs, classes) &&
      SeqCallsOk(b, sigs, classes)
    case Return(e) => ExprCallsOk(e, sigs, classes)
    case TryExcept(b, _, h) => SeqCallsOk(b, sigs, classes) && SeqCallsOk(h, sigs, classes)
    case _ => true
  }

  predicate SeqCallsOk(ss: seq<Stmt>, sigs: map<string, int>, classes: set<string>)
    decreases ss
  {
    forall s | s in ss :: StmtCallsOk(s, sigs, classes)
  }

  /** The well-formedness a parser establishes for an expression read with names d defined. */
  predicate ExprWellFormed(e: Expr, d: set<string>, sigs: map<string, int>, classes: set<string>)
  {
    IsCoreExpr(e) && ExprScoped(e, d) && ExprCallsOk(e, sigs, classes)
  }

  /** The well-formedness a parser establishes for a statement parsed with names d defined at loop
      depth `depth`. */
  predicate StmtWellFormed(s: Stmt, d: set<string>, depth: int, sigs: map<string, int>, classes: set<string>)
  {
    IsCoreStmt(s) && StmtScoped(s, d) && StmtLoopSafe(s, depth) && StmtCallsOk(s, sigs, classes)
  }

  /** The whole well-formedness a parser establishes for a block parsed with names d defined at
      loop depth `depth`. */
  predicate WellFormedBlock(ss: seq<Stmt>, d: set<string>, depth: int, sigs: map<string, int>, classes: set<string>)
  {
    IsCoreSeq(ss) && SeqScoped(ss, d) && SeqLoopSafe(ss, depth) && SeqCallsOk(ss, sigs, classes)
  }

  /** Appending a statement that is well formed where the block ends keeps the block well formed. */
  lemma WellFormedBlockSnoc(ss: seq<Stmt>, s: Stmt, d: set<string>, depth: int, sigs: map<string, int>, classes: set<string>)
    requires WellFormedBlock(ss, d, depth, sigs, classes)
    requires StmtWellFormed(s, DefinedAfterSeq(ss, d), depth, sigs, classes)
    ensures WellFormedBlock(ss + [s], d, depth, sigs, classes)
    ensures DefinedAfterSeq(ss + [s], d) == DefinedAfter(s, DefinedAfterSeq(ss, d))
  {
    SeqScopedSnoc(ss, s, d);
    DefinedAfterSeqSnoc(ss, s, d);
  }

  /** An `if` of a well-formed test and blocks each well formed where it starts is well formed,
      and defines what either block defines. */
  lemma IfWellFormed(t: Expr, b: seq<Stmt>, o: seq<Stmt>, d: set<string>, depth: int, sigs: map<string, int>, classes: set<string>)
    requires ExprWellFormed(t, d, sigs, classes)
    requires WellFormedBlock(b, d, depth, sigs, classes) && WellFormedBlock(o, d, depth, sigs, classes)
    ensures StmtWellFormed(If(t, b, o), d, depth, sigs, classes)
    ensures DefinedAfter(If(t, b, o), d) == d + (DefinedAfterSeq(b, d) + DefinedAfterSeq(o, d))
  {
    DefinedAfterSeqGrows(b, d);
  }

  /** A `while` of a well-formed test and a body well formed one loop deeper. */
  lemma WhileWellFormed(t: Expr, b: seq<Stmt>, d: set<string>, depth: int, sigs: map<string, int>, classes: set<string>)
    requires ExprWellFormed(t, d, sigs, classes) && WellFormedBlock(b, d, depth + 1, sigs, classes)
    ensures StmtWellFormed(While(t, b), d, depth, sigs, classes)
    ensures DefinedAfter(While(t, b), d) == d + DefinedAfterSeq(b, d)
  {
    DefinedAfterSeqGrows(b, d);
  }

  /** A range loop of well-formed bounds and a body well formed one loop deeper with its variable
      defined. */
  lemma ForWellFormed(x: string, a: Expr, z: Expr, st: Expr, b: seq<Stmt>, lineno: int, d: set<string>, depth: int,
                      sigs: map<string, int>, classes: set<string>)
    requires ExprWellFormed(a, d, sigs, classes) && ExprWellFormed(z, d, sigs, classes) && ExprWellFormed(st, d, sigs, classes)
    requires WellFormedBlock(b, d + {x}, depth + 1, sigs, classes)
    ensures StmtWellFormed(ForRange(x, a, z, st, b, lineno), d, depth, sigs, classes)
    ensures DefinedAfter(ForRange(x, a, z, st, b, lineno), d) == d + DefinedAfterSeq(b, d + {x})
  {
    DefinedAfterSeqGrows(b, d + {x});
  }

  /** What a parser guarantees of a whole module: every function body is well formed from its
      parameters, every method body from its parameters and `self`, and the main block from
      nothing, each at loop depth 0. */
  predicate ModuleWellFormed(m: ModuleIR, sigs: map<string, int>, classes: set<string>)
  {
    (forall f | f in m.functions :: WellFormedBlock(f.body, set p | p in f.params, 0, sigs, classes)) &&
    (forall c | c in m.classes :: forall f | f in c.methods ::
       WellFormedBlock(f.body, (set p | p in f.params) + {"self"}, 0, sigs, classes)) &&
    WellFormedBlock(m.main, {}, 0, sigs, classes)
  }


  /** No element occurs twice (class fields are kept in first-occurrence order, without repeats). */
  predicate Distinct<T(==)>(xs: seq<T>)
  {
    forall i, j :: 0 <= i < j < |xs| ==> xs[i] != xs[j]
  }

  lemma DistinctSnoc<T>(xs: seq<T>, x: T)
    requires Distinct(xs) && x !in xs
    ensures Distinct(xs + [x])
  {
    forall i, j | 0 <= i < j < |xs| + 1
      ensures (xs + [x])[i] != (xs + [x])[j]
    {
      if j == |xs| {
        assert xs[i] in xs;
      }
    }
  }
}
