/** The Python syntax trees the AST-based front ends consume (pcc/frontend/parser_v1.py and
    pcc/frontend.py).

    Python's own `ast.parse` builds these trees; it is foreign, so a tree is an input here.  Only
    the node kinds and fields the front ends inspect are kept: every other kind of expression or
    statement is `OtherExpr`/`OtherStmt` with its class name, and the optional parts the front
    ends only test for presence (decorators, annotations, defaults, keyword arguments, bases) are
    booleans. */
module PyAst {
  import opened Wrappers

  datatype ExprContext = Load | Store | Del

  /** The value of an `ast.Constant`.  A bool is an int in Python, so it is kept apart from other
      constants (None, floats, bytes, complex numbers). */
  datatype ConstValue = IntValue(i: int) | BoolValue(b: bool) | StrValue(s: string) | OtherValue(kind: string)

  datatype UnaryOperator = USub | UAdd | Not | Invert

  datatype Operator =
    | Add | Sub | Mult | Div | FloorDiv | Mod | Pow | MatMult
    | LShift | RShift | BitOr | BitXor | BitAnd

  datatype BoolOperator = And | Or

  datatype CmpOperator = Eq | NotEq | Lt | LtE | Gt | GtE | Is | IsNot | In | NotIn

  datatype Expr =
    | Constant(constant: ConstValue, lineno: int)
    | Name(id: string, ctx: ExprContext, lineno: int)
    | UnaryOp(uop: UnaryOperator, operand: Expr, lineno: int)
    | BinOp(left: Expr, op: Operator, right: Expr, lineno: int)
    | BoolOp(bop: BoolOperator, values: seq<Expr>, lineno: int)
    | Compare(left: Expr, ops: seq<CmpOperator>, comparators: seq<Expr>, lineno: int)
    | Call(func: Expr, args: seq<Expr>, hasKeywords: bool, lineno: int)
    | Attribute(value: Expr, attr: string, ctx: ExprContext, lineno: int)
    | OtherExpr(kind: string, lineno: int)

  /** One positional parameter. */
  datatype Arg = Arg(arg: string, hasAnnotation: bool, lineno: int)

  /** A parameter list: the positional parameters, and whether each non-simple part is present. */
  datatype Arguments = Arguments(
    args: seq<Arg>, hasVararg: bool, hasKwarg: bool, hasKwonlyargs: bool, hasDefaults: bool, hasKwDefaults: bool)

  datatype Stmt =
    | Assign(targets: seq<Expr>, value: Expr, lineno: int)
    | ExprStmt(value: Expr, lineno: int)
    | If(test: Expr, body: seq<Stmt>, orelse: seq<Stmt>, lineno: int)
    | While(test: Expr, body: seq<Stmt>, orelse: seq<Stmt>, lineno: int)
    | For(target: Expr, iter: Expr, body: seq<Stmt>, orelse: seq<Stmt>, lineno: int)
    | Return(returned: Option<Expr>, lineno: int)
    | Break(lineno: int)
    | Continue(lineno: int)
    | Global(lineno: int)
    | Nonlocal(lineno: int)
    | FunctionDef(name: string, args: Arguments, body: seq<Stmt>, hasDecorators: bool, hasReturns: bool, lineno: int)
    | ClassDef(name: string, hasBases: bool, hasKeywords: bool, hasDecorators: bool, body: seq<Stmt>, lineno: int)
    | OtherStmt(kind: string, lineno: int)

  datatype Module = Module(body: seq<Stmt>)

  /** The class name of an expression node, as error messages show it. */
  function ExprKind(e: Expr): string
  {
    match e
    case Constant(_, _) => "Constant"
    case Name(_, _, _) => "Name"
    case UnaryOp(_, _, _) => "UnaryOp"
    case BinOp(_, _, _, _) => "BinOp"
    case BoolOp(_, _, _) => "BoolOp"
    case Compare(_, _, _, _) => "Compare"
    case Call(_, _, _, _) => "Call"
    case Attribute(_, _, _, _) => "Attribute"
    case OtherExpr(k, _) => k
  }

  /** The class name of a statement node. */
  function StmtKind(s: Stmt): string
  {
    match s
    case Assign(_, _, _) => "Assign"
    case ExprStmt(_, _) => "Expr"
    case If(_, _, _, _) => "If"
    case While(_, _, _, _) => "While"
    case For(_, _, _, _, _) => "For"
    case Return(_, _) => "Return"
    case Break(_) => "Break"
    case Continue(_) => "Continue"
    case Global(_) => "Global"
    case Nonlocal(_) => "Nonlocal"
    case FunctionDef(_, _, _, _, _, _) => "FunctionDef"
    case ClassDef(_, _, _, _, _, _) => "ClassDef"
    case OtherStmt(k, _) => k
  }

  function UnaryOperatorName(op: UnaryOperator): string
  {
    match op
    case USub => "USub"
    case UAdd => "UAdd"
    case Not => "Not"
    case Invert => "Invert"
  }

  function OperatorName(op: Operator): string
  {
    match op
    case Add => "Add"
    case Sub => "Sub"
    case Mult => "Mult"
    case Div => "Div"
    case FloorDiv => "FloorDiv"
    case Mod => "Mod"
    case Pow => "Pow"
    case MatMult => "MatMult"
    case LShift => "LShift"
    case RShift => "RShift"
    case BitOr => "BitOr"
    case BitXor => "BitXor"
    case BitAnd => "BitAnd"
  }

  function CmpOperatorName(op: CmpOperator): string
  {
    match op
    case Eq => "Eq"
    case NotEq => "NotEq"
    case Lt => "Lt"
    case LtE => "LtE"
    case Gt => "Gt"
    case GtE => "GtE"
    case Is => "Is"
    case IsNot => "IsNot"
    case In => "In"
    case NotIn => "NotIn"
  }

  /** A parameter list with only plain positional parameters (annotations are checked apart). */
  predicate SimpleArguments(a: Arguments)
  {
    !(a.hasVararg || a.hasKwarg || a.hasKwonlyargs || a.hasDefaults || a.hasKwDefaults)
  }

  /** `node.func` is the plain name n. */
  predicate IsNameCall(e: Expr, n: string)
  {
    e.Call? && e.func.Name? && e.func.id == n
  }
}
