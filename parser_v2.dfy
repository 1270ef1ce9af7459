/** The two-pass recursive-descent parser of pcc (pcc/frontend/parser_v2.py).

    The parser works on the token list the lexer produced.  Pass 1 scans every token for `def` and
    `class` headers and records function arities and class names; pass 2 walks the tokens with a
    cursor, building IR while it threads the set of defined names and the loop depth.

    `Parser` keeps the parser's own state: the token list, the cursor `pos`, and the pass-1 tables.
    Python passes the defined-names set by reference and the callees grow it in place; every parse
    method here takes the incoming set and returns the grown one next to its result.  Each block
    is parsed from a fresh copy of its incoming set, so no two live references to one set exist and
    value passing is the same behaviour.

    Every parse method promises, on success, that the cursor moved forward and that what it built
    is well formed in the sense of the IR module: only IR-proper nodes, every name read already
    defined, every `break`/`continue` inside a loop, and every call resolved against pass 1. */
module ParserV2 {
  import opened Wrappers
  import opened Lexer
  import opened IR
  import Decimal

  /** A parse failure: a ParseError with its message and position, or the IndexError Python raises
      for `range()` with no arguments (the only non-ParseError failure pass 2 can produce). */
  datatype Failure =
    | ParseError(message: string, lineno: int, colOffset: int)
    | RangeIndexError

  /** The rendered ParseError message: "Line L: msg" when the line is known. */
  function FailureText(f: Failure): string
  {
    match f
    case ParseError(m, l, _) => if l > 0 then "Line " + Decimal.IntToString(l) + ": " + m else m
    case RangeIndexError => "list index out of range"
  }

  // ---------------------------------------------------------------------------------------------
  // Number literals

  /** A NUMBER token Python's `int()` accepts: decimal digits, single underscores between them. */
  predicate IsIntLiteral(raw: string)
  {
    |raw| > 0 && Decimal.IsDigit(raw[0]) && Decimal.IsDigit(raw[|raw| - 1]) &&
    (forall i :: 0 <= i < |raw| ==> Decimal.IsDigit(raw[i]) || raw[i] == '_') &&
    (forall i :: 0 <= i < |raw| - 1 ==> !(raw[i] == '_' && raw[i + 1] == '_'))
  }

  function StripUnderscores(s: string): (r: string)
    ensures |r| <= |s|
    ensures (forall i :: 0 <= i < |s| ==> Decimal.IsDigit(s[i]) || s[i] == '_') ==> Decimal.AllDigits(r)
    ensures Decimal.AllDigits(s) ==> r == s
  {
    if s == [] then [] else (if s[0] == '_' then [] else [s[0]]) + StripUnderscores(s[1..])
  }

  function IntLiteralValue(raw: string): nat
    requires IsIntLiteral(raw)
  {
    Decimal.ParseDigits(StripUnderscores(raw))
  }

  /** A NUMBER token with a point or an exponent is a float literal. */
  predicate LooksLikeFloat(raw: string)
  {
    '.' in raw || 'e' in raw || 'E' in raw
  }

  /** Python's `float()` on a float-looking NUMBER token from the tokenizer fails only for hex and
      imaginary literals. */
  predicate FloatAccepted(raw: string)
  {
    !('x' in raw || 'X' in raw || 'j' in raw || 'J' in raw)
  }

  /** The decimal text of every natural number is an integer literal denoting it. */
  lemma IntLiteralRoundTrip(n: nat)
    ensures IsIntLiteral(Decimal.NatToString(n)) && IntLiteralValue(Decimal.NatToString(n)) == n
  {
    Decimal.NatToStringShape(n);
    Decimal.NatToStringRoundTrip(n);
  }

  /** A string token loses one pair of matching outer quotes. */
  function StripQuotes(v: string): (r: string)
    ensures |v| >= 2 && v[0] == v[|v| - 1] && (v[0] == '"' || v[0] == '\'') ==> r == v[1..|v| - 1]
    ensures !(|v| >= 1 && v[0] == v[|v| - 1] && (v[0] == '"' || v[0] == '\'')) ==> r == v
  {
    if |v| >= 1 && ((v[0] == '"' && v[|v| - 1] == '"') || (v[0] == '\'' && v[|v| - 1] == '\'')) then
      (if |v| >= 2 then v[1..|v| - 1] else "")
    else v
  }

  /** The (start, stop, step) of `range(args)`: a missing start is 0 and a missing step is 1;
      arguments past the third are ignored, and no argument at all is Python's IndexError. */
  function RangeBounds(args: seq<Expr>): (r: Result<(Expr, Expr, Expr), Failure>)
    ensures r.Err? <==> |args| == 0
    ensures r.Err? ==> r.error == RangeIndexError
    ensures |args| == 1 ==> r.value == (IntConst(0), args[0], IntConst(1))
    ensures |args| == 2 ==> r.value == (args[0], args[1], IntConst(1))
    ensures |args| >= 3 ==> r.value == (args[0], args[1], args[2])
    ensures r.Ok? ==> forall e | e in [r.value.0, r.value.1, r.value.2] :: e in args || e == IntConst(0) || e == IntConst(1)
  {
    if |args| == 1 then Ok((IntConst(0), args[0], IntConst(1)))
    else if |args| == 2 then Ok((args[0], args[1], IntConst(1)))
    else if |args| == 0 then Err(RangeIndexError)
    else Ok((args[0], args[1], args[2]))
  }

  // ---------------------------------------------------------------------------------------------
  // Builtin arities

  /** Checks a builtin call's argument count against the table. */
  function ParseBuiltin(name: string, args: seq<Expr>): (r: Result<Expr, Failure>)
    ensures r.Ok? <==> BuiltinArityOk(name, |args|)
    ensures r.Ok? ==> r.value == BuiltinCall(name, args)
    ensures r.Err? ==> r.error.ParseError? && r.error.lineno == 0
  {
    match BuiltinArity(name)
    case None => Ok(BuiltinCall(name, args))
    case Some(Exactly(n)) =>
      if |args| != n then
        Err(ParseError("Builtin '" + name + "' expects " + Decimal.IntToString(n) + " argument(s), got " +
                       Decimal.IntToString(|args|), 0, 0))
      else Ok(BuiltinCall(name, args))
    case Some(AtLeast(lo, hi)) =>
      if |args| < lo then
        Err(ParseError("Builtin '" + name + "' expects at least " + Decimal.IntToString(lo) + " argument(s), got " +
                       Decimal.IntToString(|args|), 0, 0))
      else if hi.Some? && |args| > hi.value then
        Err(ParseError("Builtin '" + name + "' expects at most " + Decimal.IntToString(hi.value) + " argument(s), got " +
                       Decimal.IntToString(|args|), 0, 0))
      else Ok(BuiltinCall(name, args))
  }

  /** The comparison a token stands for: `<`, `>`, `<=`, `>=`, `==` or `!=`, and "" for any
      other token. */
  function ComparisonOp(tt: TokenType): (op: string)
    ensures op == "" || op in CmpOps
  {
    if tt == LESS then "<"
    else if tt == GREATER then ">"
    else if tt == LESSEQUAL then "<="
    else if tt == GREATEREQUAL then ">="
    else if tt == EQEQUAL then "=="
    else if tt == NOTEQUAL then "!="
    else ""
  }

  /** The additive operator a token stands for: `+` or `-`, and "" for any other token. */
  function AdditiveOp(tt: TokenType): (op: string)
    ensures op == "" || op in BinOps
  {
    if tt == PLUS then "+" else if tt == MINUS then "-" else ""
  }

  /** The multiplicative operator a token stands for: `*`, `//` or `%`, and "" for any other
      token. */
  function MultiplicativeOp(tt: TokenType): (op: string)
    ensures op == "" || op in BinOps
  {
    if tt == STAR then "*" else if tt == DOUBLESLASH then "//" else if tt == PERCENT then "%" else ""
  }

  // ---------------------------------------------------------------------------------------------
  // Pass 1: signatures

  /** Where the parameter scan after `def NAME` stops (the first `)` at or after j, or the end),
      and how many NAME tokens it passed. */
  function ParamScan(toks: seq<Token>, j: nat): (res: (nat, nat))
    requires j <= |toks|
    ensures j <= res.0 <= |toks|
    decreases |toks| - j
  {
    if j == |toks| || toks[j].ttype == RPAR then (j, 0)
    else
      var rest := ParamScan(toks, j + 1);
      (rest.0, rest.1 + (if toks[j].ttype == NAME then 1 else 0))
  }

  /** The scan stops at the first `)` from j on (or the end), and what it counts are the NAME
      tokens it passed. */
  lemma {:induction false} ParamScanSpec(toks: seq<Token>, j: nat)
    requires j <= |toks|
    ensures var res := ParamScan(toks, j);
      (res.0 < |toks| ==> toks[res.0].ttype == RPAR) &&
      (forall k :: j <= k < res.0 ==> toks[k].ttype != RPAR) &&
      res.1 == NameCount(toks[j..res.0])
    decreases |toks| - j
  {
    if j < |toks| && toks[j].ttype != RPAR {
      ParamScanSpec(toks, j + 1);
      var rest := ParamScan(toks, j + 1);
      var passed := toks[j..rest.0];
      assert passed != [] && passed[0] == toks[j] && passed[1..] == toks[j + 1..rest.0];
    }
  }

  /** The number of NAME tokens in ts. */
  function NameCount(ts: seq<Token>): nat
  {
    if ts == [] then 0 else (if ts[0].ttype == NAME then 1 else 0) + NameCount(ts[1..])
  }

  predicate IsKeywordToken(t: Token, kw: string) { t.ttype == NAME && t.value == kw }

  /** Pass 1 from token i on, with the tables found so far: a `def NAME` header records the number
      of NAME tokens up to the next `)` and resumes after it; `class NAME` records the class, and
      `class NAME(` is the inheritance error. */
  function ScanSignatures(toks: seq<Token>, i: nat, sigs: map<string, int>, classes: set<string>)
    : Result<(map<string, int>, set<string>), Failure>
    decreases |toks| - i
  {
    if i >= |toks| then Ok((sigs, classes))
    else if IsKeywordToken(toks[i], "def") then
      if i + 1 < |toks| && toks[i + 1].ttype == NAME then
        var (j, n) := ParamScan(toks, i + 2);
        ScanSignatures(toks, j + 1, sigs[toks[i + 1].value := n], classes)
      else ScanSignatures(toks, i + 1, sigs, classes)
    else if IsKeywordToken(toks[i], "class") && i + 1 < |toks| && toks[i + 1].ttype == NAME then
      if i + 2 < |toks| && toks[i + 2].ttype == LPAR then
        Err(ParseError("Class inheritance is not supported", toks[i].lineno, 0))
      else ScanSignatures(toks, i + 1, sigs, classes + {toks[i + 1].value})
    else ScanSignatures(toks, i + 1, sigs, classes)
  }

  /** `def NAME` starts at k. */
  predicate DefAt(toks: seq<Token>, k: int, name: string)
  {
    0 <= k && k + 1 < |toks| && IsKeywordToken(toks[k], "def") && toks[k + 1].ttype == NAME && toks[k + 1].value == name
  }

  /** `class NAME` starts at k. */
  predicate ClassAt(toks: seq<Token>, k: int, name: string)
  {
    0 <= k && k + 1 < |toks| && IsKeywordToken(toks[k], "class") && toks[k + 1].ttype == NAME && toks[k + 1].value == name
  }

  /** Pass 1 records only names that some header declares, and its arities are counts. */
  lemma {:induction false} ScanSignaturesSound(toks: seq<Token>, i: nat, sigs: map<string, int>, classes: set<string>)
    requires forall f | f in sigs :: sigs[f] >= 0 && exists k :: DefAt(toks, k, f)
    requires forall c | c in classes :: exists k :: ClassAt(toks, k, c)
    requires ScanSignatures(toks, i, sigs, classes).Ok?
    ensures var (s, c) := ScanSignatures(toks, i, sigs, classes).value;
      (forall f | f in s :: s[f] >= 0 && exists k :: DefAt(toks, k, f)) &&
      (forall n | n in c :: exists k :: ClassAt(toks, k, n)) &&
      sigs.Keys <= s.Keys && classes <= c
    decreases |toks| - i
  {
    if i >= |toks| {
    } else if IsKeywordToken(toks[i], "def") {
      if i + 1 < |toks| && toks[i + 1].ttype == NAME {
        var (j, n) := ParamScan(toks, i + 2);
        assert DefAt(toks, i, toks[i + 1].value);
        ScanSignaturesSound(toks, j + 1, sigs[toks[i + 1].value := n], classes);
      } else {
        ScanSignaturesSound(toks, i + 1, sigs, classes);
      }
    } else if IsKeywordToken(toks[i], "class") && i + 1 < |toks| && toks[i + 1].ttype == NAME {
      assert ClassAt(toks, i, toks[i + 1].value);
      ScanSignaturesSound(toks, i + 1, sigs, classes + {toks[i + 1].value});
    } else {
      ScanSignaturesSound(toks, i + 1, sigs, classes);
    }
  }

  // ---------------------------------------------------------------------------------------------
  // Pass 2

  /** The parameter loop of pass 1: counts NAME tokens from j up to the next `)`. */
  method CountParams(tokens: seq<Token>, start: nat) returns (j: nat, count: nat)
    requires start <= |tokens|
    ensures (j, count) == ParamScan(tokens, start)
  {
    count := 0;
    j := start;
    ghost var total := ParamScan(tokens, start);
    while j < |tokens| && tokens[j].ttype != RPAR
      invariant start <= j <= |tokens|
      invariant total.0 == ParamScan(tokens, j).0 && total.1 == count + ParamScan(tokens, j).1
      decreases |tokens| - j
    {
      ghost var next := ParamScan(tokens, j + 1);
      assert ParamScan(tokens, j) == (next.0, next.1 + if tokens[j].ttype == NAME then 1 else 0);
      if tokens[j].ttype == NAME {
        count := count + 1;
      }
      j := j + 1;
    }
    assert ParamScan(tokens, j) == (j, 0);
  }

  /** Pass 1 as the parser runs it: one scan over every token, class bodies included. */
  method CollectSignatures(tokens: seq<Token>) returns (r: Result<(map<string, int>, set<string>), Failure>)
    ensures r == ScanSignatures(tokens, 0, map[], {})
  {
    var sigs: map<string, int> := map[];
    var classes: set<string> := {};
    var i: nat := 0;
    while i < |tokens|
      invariant ScanSignatures(tokens, i, sigs, classes) == ScanSignatures(tokens, 0, map[], {})
      decreases |tokens| - i
    {
      var token := tokens[i];
      if token.ttype == NAME && token.value == "def" {
        if i + 1 < |tokens| && tokens[i + 1].ttype == NAME {
          var funcName := tokens[i + 1].value;
          var j, paramCount := CountParams(tokens, i + 2);
          sigs := sigs[funcName := paramCount];
          i := j;
        }
      } else if token.ttype == NAME && token.value == "class" {
        if i + 1 < |tokens| && tokens[i + 1].ttype == NAME {
          var className := tokens[i + 1].value;
          var j := i + 2;
          if j < |tokens| && tokens[j].ttype == LPAR {
            return Err(ParseError("Class inheritance is not supported", token.lineno, 0));
          }
          classes := classes + {className};
        }
      }
      i := i + 1;
    }
    r := Ok((sigs, classes));
  }

  /** Parses a module from its token list with a fresh parser: pass 1 fills the tables, pass 2
      builds the IR. */
  method ParseSource(toks: seq<Token>) returns (r: Result<ModuleIR, Failure>)
    ensures ScanSignatures(toks, 0, map[], {}).Err? ==> r == Err(ScanSignatures(toks, 0, map[], {}).error)
    ensures r.Ok? ==>
      ScanSignatures(toks, 0, map[], {}).Ok? &&
      ModuleWellFormed(r.value, ScanSignatures(toks, 0, map[], {}).value.0, ScanSignatures(toks, 0, map[], {}).value.1)
  {
    var tables :- CollectSignatures(toks);
    var parser := new Parser(toks, tables.0, tables.1);
    r := parser.ParseModule();
  }

  /** What one line of a class body contributes. */
  datatype ClassMember = Blank | MethodMember(def: FunctionDef) | FieldMember(name: string)

  /** The pass-2 parser over one token list; only the cursor changes. */
  class Parser {
    const tokens: seq<Token>
    const fnSigs: map<string, int>
    const classDefs: set<string>
    var pos: nat

    constructor (toks: seq<Token>, sigs: map<string, int>, classes: set<string>)
      ensures tokens == toks && fnSigs == sigs && classDefs == classes && pos == 0
    {
      tokens := toks;
      fnSigs := sigs;
      classDefs := classes;
      pos := 0;
    }

    predicate Valid()
      reads this
    {
      pos <= |tokens|
    }

    function Current(): Option<Token>
      reads this
    {
      if pos < |tokens| then Some(tokens[pos]) else None
    }

    predicate Match(tt: TokenType)
      reads this
    {
      pos < |tokens| && tokens[pos].ttype == tt
    }

    predicate MatchValue(tt: TokenType, v: string)
      reads this
    {
      Match(tt) && tokens[pos].value == v
    }

    /** Well formed under the pass-1 tables. */
    predicate ExprOk(e: Expr, d: set<string>)
    {
      ExprWellFormed(e, d, fnSigs, classDefs)
    }

    predicate StmtOk(s: Stmt, d: set<string>, depth: int)
    {
      StmtWellFormed(s, d, depth, fnSigs, classDefs)
    }

    predicate BlockOk(ss: seq<Stmt>, d: set<string>, depth: int)
    {
      WellFormedBlock(ss, d, depth, fnSigs, classDefs)
    }

    /** Every method body is well formed from its parameters and `self`. */
    predicate MethodsOk(methods: seq<FunctionDef>)
    {
      forall f | f in methods :: BlockOk(f.body, (set p | p in f.params) + {"self"}, 0)
    }

    method Advance() returns (r: Result<Token, Failure>)
      requires Valid()
      modifies this`pos
      ensures Valid()
      ensures r.Ok? <==> old(pos) < |tokens|
      ensures r.Ok? ==> pos == old(pos) + 1 && r.value == tokens[old(pos)]
      ensures r.Err? ==> pos == old(pos) && r.error == ParseError("Unexpected end of input", 0, 0)
    {
      if pos < |tokens| {
        r := Ok(tokens[pos]);
        pos := pos + 1;
      } else {
        r := Err(ParseError("Unexpected end of input", 0, 0));
      }
    }

    method Expect(tt: TokenType) returns (r: Result<Token, Failure>)
      requires Valid()
      modifies this`pos
      ensures Valid()
      ensures r.Ok? <==> old(Match(tt))
      ensures r.Ok? ==> pos == old(pos) + 1 && r.value == tokens[old(pos)]
      ensures r.Err? ==> pos == old(pos) && r.error.ParseError?
    {
      if pos >= |tokens| {
        r := Err(ParseError("Expected " + TypeName(tt) + ", got end of input", 0, 0));
      } else if tokens[pos].ttype != tt {
        r := Err(ParseError("Expected " + TypeName(tt) + ", got " + TypeName(tokens[pos].ttype),
                            tokens[pos].lineno, tokens[pos].colOffset));
      } else {
        r := Ok(tokens[pos]);
        pos := pos + 1;
      }
    }

    method ExpectValue(tt: TokenType, v: string) returns (r: Result<Token, Failure>)
      requires Valid()
      modifies this`pos
      ensures Valid()
      ensures r.Ok? <==> old(MatchValue(tt, v))
      ensures r.Ok? ==> pos == old(pos) + 1 && r.value == tokens[old(pos)]
      ensures r.Err? ==> pos == old(pos) && r.error.ParseError?
    {
      if pos >= |tokens| {
        r := Err(ParseError("Expected " + TypeName(tt) + ", got end of input", 0, 0));
      } else if tokens[pos].ttype != tt {
        r := Err(ParseError("Expected " + TypeName(tt) + ", got " + TypeName(tokens[pos].ttype),
                            tokens[pos].lineno, tokens[pos].colOffset));
      } else if tokens[pos].value != v {
        r := Err(ParseError("Expected '" + v + "', got '" + tokens[pos].value + "'",
                            tokens[pos].lineno, tokens[pos].colOffset));
      } else {
        r := Ok(tokens[pos]);
        pos := pos + 1;
      }
    }

    predicate ModuleOk(m: ModuleIR)
    {
      ModuleWellFormed(m, fnSigs, classDefs)
    }

    method ParseModule() returns (r: Result<ModuleIR, Failure>)
      requires Valid()
      modifies this`pos
      ensures Valid()
      ensures r.Ok? ==> ModuleOk(r.value)
    {
      var functions: seq<FunctionDef> := [];
      var classes: seq<ClassDef> := [];
      var mainStmts: seq<Stmt> := [];
      var definedMain: set<string> := {};
      while pos < |tokens| && !Match(ENDMARKER)
        invariant Valid()
        invariant forall f | f in functions :: BlockOk(f.body, set p | p in f.params, 0)
        invariant forall c | c in classes :: forall f | f in c.methods :: BlockOk(f.body, (set p | p in f.params) + {"self"}, 0)
        invariant BlockOk(mainStmts, {}, 0) && definedMain == DefinedAfterSeq(mainStmts, {})
        decreases |tokens| - pos
      {
        if Match(NEWLINE) || Match(NL) || Match(INDENT) || Match(DEDENT) {
          var _ := Advance();
        } else if MatchValue(NAME, "def") {
          var func :- ParseFunctionDef();
          functions := functions + [func];
        } else if MatchValue(NAME, "class") {
          var parsed;
          ghost var starts, bodyEnd;
          parsed, starts, bodyEnd := ParseClassDef();
          var cls :- parsed;
          classes := classes + [cls];
        } else {
          var res :- ParseStmt(definedMain, 0);
          WellFormedBlockSnoc(mainStmts, res.0, {}, 0, fnSigs, classDefs);
          mainStmts := mainStmts + [res.0];
          definedMain := res.1;
        }
      }
      r := Ok(ModuleIR(functions, classes, mainStmts));
    }

    /** The statement loop every indented block runs: blank lines are skipped, statements are
        parsed until DEDENT or ENDMARKER, and a closing DEDENT is consumed. */
    method ParseBlockBody(defined: set<string>, depth: int) returns (r: Result<(seq<Stmt>, set<string>), Failure>)
      requires Valid()
      modifies this`pos
      ensures Valid() && old(pos) <= pos
      ensures r.Ok? ==> BlockOk(r.value.0, defined, depth) && r.value.1 == DefinedAfterSeq(r.value.0, defined)
      decreases |tokens| - pos, 11
    {
      var body: seq<Stmt> := [];
      var d := defined;
      var start := pos;
      while !Match(DEDENT) && !Match(ENDMARKER)
        invariant Valid() && start <= pos
        invariant BlockOk(body, defined, depth) && d == DefinedAfterSeq(body, defined)
        decreases |tokens| - pos
      {
        if Match(NEWLINE) || Match(NL) {
          var _ := Advance();
        } else {
          var res :- ParseStmt(d, depth);
          WellFormedBlockSnoc(body, res.0, defined, depth, fnSigs, classDefs);
          body := body + [res.0];
          d := res.1;
        }
      }
      if Match(DEDENT) {
        var _ := Advance();
      }
      r := Ok((body, d));
    }

    /** The block after a header's `:`: NEWLINE, INDENT, then the statements. */
    method ParseSuite(defined: set<string>, depth: int) returns (r: Result<(seq<Stmt>, set<string>), Failure>)
      requires Valid()
      modifies this`pos
      ensures Valid() && old(pos) <= pos
      ensures r.Ok? ==> BlockOk(r.value.0, defined, depth) && r.value.1 == DefinedAfterSeq(r.value.0, defined)
      decreases |tokens| - pos, 12
    {
      var _ :- Expect(COLON);
      var _ :- Expect(NEWLINE);
      var _ :- Expect(INDENT);
      r := ParseBlockBody(defined, depth);
    }

    method ParseFunctionDef() returns (r: Result<FunctionDef, Failure>)
      requires Valid()
      modifies this`pos
      ensures Valid() && old(pos) <= pos
      ensures r.Ok? ==> old(pos) < pos && BlockOk(r.value.body, set p | p in r.value.params, 0)
      ensures r.Ok? ==> old(pos) < |tokens| && r.value.lineno == tokens[old(pos)].lineno
    {
      var defToken :- ExpectValue(NAME, "def");
      var nameToken :- Expect(NAME);
      var _ :- Expect(LPAR);
      var params: seq<string> := [];
      while !Match(RPAR)
        invariant Valid()
        decreases |tokens| - pos
      {
        if params != [] {
          var _ :- Expect(COMMA);
        }
        var paramToken :- Expect(NAME);
        params := params + [paramToken.value];
      }
      var _ := Expect(RPAR);  // the loop stopped at the `)`, so this cannot fail
      var blk :- ParseSuite(set p | p in params, 0);
      r := Ok(FunctionDef(nameToken.value, params, blk.0, defToken.lineno));
    }

    method ParseMethodDef() returns (r: Result<FunctionDef, Failure>)
      requires Valid()
      modifies this`pos
      ensures Valid() && old(pos) <= pos
      ensures r.Ok? ==> old(pos) < pos && BlockOk(r.value.body, (set p | p in r.value.params) + {"self"}, 0)
    {
      var defToken :- ExpectValue(NAME, "def");
      var nameToken :- Expect(NAME);
      var _ :- Expect(LPAR);
      var selfToken :- Expect(NAME);
      if selfToken.value != "self" {
        return Err(ParseError("Method first parameter must be 'self'", selfToken.lineno, selfToken.colOffset));
      }
      var params: seq<string> := [];
      while !Match(RPAR)
        invariant Valid()
        decreases |tokens| - pos
      {
        var _ :- Expect(COMMA);
        var paramToken :- Expect(NAME);
        params := params + [paramToken.value];
      }
      var _ := Expect(RPAR);  // the loop stopped at the `)`, so this cannot fail
      var blk :- ParseSuite((set p | p in params) + {"self"}, 0);
      r := Ok(FunctionDef(nameToken.value, params, blk.0, defToken.lineno));
    }

    /** Skips a class field's value: everything up to the end of its line. */
    method SkipToLineEnd() returns (r: Result<(), Failure>)
      requires Valid()
      modifies this`pos
      ensures Valid() && old(pos) <= pos
      ensures r.Ok? ==> pos < |tokens| && tokens[pos].ttype in {NEWLINE, NL}
      ensures r.Ok? ==> forall k :: old(pos) <= k < pos ==> tokens[k].ttype !in {NEWLINE, NL}
    {
      while !Match(NEWLINE) && !Match(NL)
        invariant Valid() && old(pos) <= pos
        invariant forall k :: old(pos) <= k < pos ==> tokens[k].ttype !in {NEWLINE, NL}
        decreases |tokens| - pos
      {
        var _ :- Advance();
      }
      r := Ok(());
    }

    /** One line of a class body: a blank line, a method, or a field `NAME = ...` whose value is
        skipped. */
    method ParseClassMember() returns (r: Result<ClassMember, Failure>)
      requires Valid()
      modifies this`pos
      ensures Valid() && old(pos) <= pos
      ensures r.Ok? ==> old(pos) < pos
      ensures r.Ok? && r.value.MethodMember? ==>
        BlockOk(r.value.def.body, (set p | p in r.value.def.params) + {"self"}, 0)
      ensures r.Ok? ==> tokens[old(pos)].ttype in {NEWLINE, NL, NAME}
      ensures r.Ok? ==> (r.value.Blank? <==> tokens[old(pos)].ttype in {NEWLINE, NL})
      ensures r.Ok? ==> (r.value.MethodMember? <==> tokens[old(pos)].ttype == NAME && tokens[old(pos)].value == "def")
      ensures r.Ok? && r.value.FieldMember? ==>
        tokens[old(pos)].ttype == NAME && tokens[old(pos)].value != "def" && r.value.name == tokens[old(pos)].value &&
        old(pos) + 1 < |tokens| && tokens[old(pos) + 1].ttype == EQUAL
    {
      if Match(NEWLINE) || Match(NL) {
        var _ := Advance();
        r := Ok(Blank);
      } else if MatchValue(NAME, "def") {
        var m :- ParseMethodDef();
        r := Ok(MethodMember(m));
      } else if Match(NAME) {
        var fieldName := tokens[pos].value;
        var _ := Advance();
        var _ :- Expect(EQUAL);
        var _ :- SkipToLineEnd();
        r := Ok(FieldMember(fieldName));
      } else {
        var msg := if pos < |tokens| then TokenRepr(tokens[pos]) else "None";
        var line := if pos < |tokens| then tokens[pos].lineno else 0;
        r := Err(ParseError("Unexpected token in class body: " + msg, line, 0));
      }
    }

    /** The class-body line starting at token k is a field line: a NAME other than `def`. */
    ghost predicate FieldHeadAt(k: int)
      reads this
    {
      0 <= k < |tokens| && tokens[k].ttype == NAME && tokens[k].value != "def"
    }

    /** Some line starting at one of the positions in `starts` is a field line for `f`. */
    ghost predicate DeclaresField(starts: seq<int>, f: string)
      reads this
    {
      exists i :: 0 <= i < |starts| && FieldHeadAt(starts[i]) && tokens[starts[i]].value == f
    }

    lemma DeclaresFieldSnoc(starts: seq<int>, p: int, f: string)
      ensures DeclaresField(starts + [p], f) <==> DeclaresField(starts, f) || (FieldHeadAt(p) && tokens[p].value == f)
    {
      var ss := starts + [p];
      if DeclaresField(ss, f) {
        var i :| 0 <= i < |ss| && FieldHeadAt(ss[i]) && tokens[ss[i]].value == f;
        if i < |starts| {
          assert starts[i] == ss[i];
        }
      }
      if DeclaresField(starts, f) {
        var i :| 0 <= i < |starts| && FieldHeadAt(starts[i]) && tokens[starts[i]].value == f;
        assert ss[i] == starts[i];
      }
      if FieldHeadAt(p) && tokens[p].value == f {
        assert ss[|starts|] == p;
      }
    }

    /** Recording a line start keeps the fields equal to the names heading the recorded field lines. */
    lemma FieldsSnoc(fields: seq<string>, fields': seq<string>, starts: seq<int>, here: int)
      requires forall f :: f in fields <==> DeclaresField(starts, f)
      requires fields' == (if FieldHeadAt(here) && tokens[here].value !in fields then fields + [tokens[here].value] else fields)
      ensures forall f :: f in fields' <==> DeclaresField(starts + [here], f)
    {
      forall f
        ensures f in fields' <==> DeclaresField(starts + [here], f)
      {
        DeclaresFieldSnoc(starts, here, f);
      }
    }

    /** Lowers a class. `starts` are the positions where the body's lines start, one after the
        other from the token after the INDENT up to the DEDENT or ENDMARKER at `bodyEnd`; the fields
        are the names heading the field lines among them, each once. */
    method ParseClassDef() returns (r: Result<ClassDef, Failure>, ghost starts: seq<int>, ghost bodyEnd: int)
      requires Valid()
      modifies this`pos
      ensures Valid() && old(pos) <= pos
      ensures r.Ok? ==> old(pos) < pos
      ensures r.Ok? ==> MethodsOk(r.value.methods) && Distinct(r.value.fields)
      ensures r.Ok? ==> old(pos) + 1 < |tokens| && tokens[old(pos)].value == "class" && r.value.name == tokens[old(pos) + 1].value
      ensures r.Ok? ==> forall f :: f in r.value.fields <==> DeclaresField(starts, f)
      ensures r.Ok? ==> BodyLines(starts, old(pos) + 5, bodyEnd)
      ensures r.Ok? ==> pos == (if tokens[bodyEnd].ttype == DEDENT then bodyEnd + 1 else bodyEnd)
    {
      starts, bodyEnd := [], pos;
      var head :- ParseClassHead();
      var body;
      body, starts, bodyEnd := ParseClassBody();
      var members :- body;
      if Match(DEDENT) {
        var _ := Advance();
      }
      r := Ok(ClassDef(head.1.value, members.0, members.1, head.0.lineno));
    }

    /** `class NAME : NEWLINE INDENT`, giving the `class` and name tokens. */
    method ParseClassHead() returns (r: Result<(Token, Token), Failure>)
      requires Valid()
      modifies this`pos
      ensures Valid() && old(pos) <= pos
      ensures r.Ok? ==> pos == old(pos) + 5 && r.value == (tokens[old(pos)], tokens[old(pos) + 1])
      ensures r.Ok? ==> tokens[old(pos)].ttype == NAME && tokens[old(pos)].value == "class" && tokens[old(pos) + 1].ttype == NAME
      ensures r.Ok? ==> tokens[old(pos) + 2].ttype == COLON && tokens[old(pos) + 3].ttype == NEWLINE && tokens[old(pos) + 4].ttype == INDENT
    {
      var classToken :- ExpectValue(NAME, "class");
      var nameToken :- Expect(NAME);
      var _ :- Expect(COLON);
      var _ :- Expect(NEWLINE);
      var _ :- Expect(INDENT);
      r := Ok((classToken, nameToken));
    }

    /** `starts` are the starts of consecutive body lines from `first`, none at a DEDENT or
        ENDMARKER, and `end` is the DEDENT or ENDMARKER after the last of them. */
    ghost predicate BodyLines(starts: seq<int>, first: int, end: int)
      reads this
    {
      LinesFrom(starts, first, end) && 0 <= end < |tokens| && tokens[end].ttype in {DEDENT, ENDMARKER}
    }

    /** `starts` are the starts of consecutive lines from `first`, none at a DEDENT or ENDMARKER,
        the last of them before `upto`. */
    ghost predicate LinesFrom(starts: seq<int>, first: int, upto: int)
      reads this
    {
      (if starts == [] then upto == first else starts[0] == first && starts[|starts| - 1] < upto) &&
      (forall i | 0 <= i < |starts| - 1 :: starts[i] < starts[i + 1]) &&
      (forall i | 0 <= i < |starts| :: 0 <= starts[i] < |tokens| && tokens[starts[i]].ttype !in {DEDENT, ENDMARKER})
    }

    lemma LinesFromSnoc(starts: seq<int>, first: int, here: int, next: int)
      requires LinesFrom(starts, first, here) && here < next
      requires 0 <= here < |tokens| && tokens[here].ttype !in {DEDENT, ENDMARKER}
      ensures LinesFrom(starts + [here], first, next)
    {
      var ss := starts + [here];
      forall i | 0 <= i < |ss| - 1
        ensures ss[i] < ss[i + 1]
      {
        if i + 1 < |starts| {
          assert ss[i] == starts[i] && ss[i + 1] == starts[i + 1];
        }
      }
    }

    /** The class body loop: lines up to the first DEDENT or ENDMARKER. */
    method ParseClassBody() returns (r: Result<(seq<FunctionDef>, seq<string>), Failure>, ghost starts: seq<int>, ghost bodyEnd: int)
      requires Valid()
      modifies this`pos
      ensures Valid() && old(pos) <= pos
      ensures r.Ok? ==> MethodsOk(r.value.0) && Distinct(r.value.1)
      ensures r.Ok? ==> forall f :: f in r.value.1 <==> DeclaresField(starts, f)
      ensures r.Ok? ==> BodyLines(starts, old(pos), bodyEnd) && pos == bodyEnd
    {
      starts, bodyEnd := [], pos;
      var methods: seq<FunctionDef> := [];
      var fields: seq<string> := [];
      while !Match(DEDENT) && !Match(ENDMARKER)
        invariant Valid() && old(pos) <= pos
        invariant MethodsOk(methods) && Distinct(fields)
        invariant forall f :: f in fields <==> DeclaresField(starts, f)
        invariant LinesFrom(starts, old(pos), pos)
        decreases |tokens| - pos
      {
        var step;
        step, starts := ParseClassStep(methods, fields, starts, old(pos));
        var next :- step;
        methods, fields := next.0, next.1;
      }
      bodyEnd := pos;
      r := Ok((methods, fields));
    }

    /** One turn of the class body loop: the line at `pos` parsed, its start recorded. */
    method ParseClassStep(methods: seq<FunctionDef>, fields: seq<string>, ghost starts: seq<int>, ghost first: int)
      returns (r: Result<(seq<FunctionDef>, seq<string>), Failure>, ghost starts': seq<int>)
      requires Valid() && MethodsOk(methods) && Distinct(fields)
      requires forall f :: f in fields <==> DeclaresField(starts, f)
      requires LinesFrom(starts, first, pos) && !Match(DEDENT) && !Match(ENDMARKER)
      modifies this`pos
      ensures Valid() && old(pos) <= pos
      ensures r.Ok? ==> old(pos) < pos && MethodsOk(r.value.0) && Distinct(r.value.1)
      ensures r.Ok? ==> forall f :: f in r.value.1 <==> DeclaresField(starts', f)
      ensures r.Ok? ==> LinesFrom(starts', first, pos)
    {
      starts' := starts + [pos];
      ghost var here := pos;
      var next :- ParseClassLine(methods, fields);
      LinesFromSnoc(starts, first, here, pos);
      FieldsSnoc(fields, next.1, starts, here);
      r := Ok(next);
    }

    /** One line of the class body added to the methods and fields so far: a method line adds one
        method, a field line adds its name unless it is already a field, a blank line adds nothing. */
    method ParseClassLine(methods: seq<FunctionDef>, fields: seq<string>)
      returns (r: Result<(seq<FunctionDef>, seq<string>), Failure>)
      requires Valid() && MethodsOk(methods) && Distinct(fields)
      modifies this`pos
      ensures Valid() && old(pos) <= pos
      ensures r.Ok? ==> old(pos) < pos && MethodsOk(r.value.0) && Distinct(r.value.1)
      ensures r.Ok? ==> tokens[old(pos)].ttype in {NEWLINE, NL, NAME}
      ensures r.Ok? ==>
        r.value.1 == (if FieldHeadAt(old(pos)) && tokens[old(pos)].value !in fields then fields + [tokens[old(pos)].value] else fields)
      ensures r.Ok? && FieldHeadAt(old(pos)) ==> old(pos) + 1 < |tokens| && tokens[old(pos) + 1].ttype == EQUAL
      ensures r.Ok? ==> if tokens[old(pos)].ttype == NAME && tokens[old(pos)].value == "def"
        then |r.value.0| == |methods| + 1 && r.value.0[..|methods|] == methods
        else r.value.0 == methods
    {
      var member :- ParseClassMember();
      match member {
        case Blank =>
          r := Ok((methods, fields));
        case MethodMember(m) =>
          assert (methods + [m])[..|methods|] == methods;
          r := Ok((methods + [m], fields));
        case FieldMember(fieldName) =>
          if fieldName !in fields {
            DistinctSnoc(fields, fieldName);
            r := Ok((methods, fields + [fieldName]));
          } else {
            r := Ok((methods, fields));
          }
      }
    }

    // -------------------------------------------------------------------------------------------
    // Statements

    method ParseStmt(defined: set<string>, depth: int) returns (r: Result<(Stmt, set<string>), Failure>)
      requires Valid()
      modifies this`pos
      ensures Valid() && old(pos) <= pos
      ensures r.Ok? ==> old(pos) < pos && StmtOk(r.value.0, defined, depth) && r.value.1 == DefinedAfter(r.value.0, defined)
      decreases |tokens| - pos, 10
    {
      if pos >= |tokens| {
        return Err(ParseError("Unexpected end of input", 0, 0));
      }
      var token := tokens[pos];
      if token.ttype == NAME {
        if token.value == "if" {
          r := ParseIf(defined, depth);
        } else if token.value == "while" {
          r := ParseWhile(defined, depth);
        } else if token.value == "for" {
          r := ParseFor(defined, depth);
        } else if token.value == "return" {
          var s :- ParseReturn(defined);
          r := Ok((s, defined));
        } else if token.value == "break" {
          var s :- ParseBreak(depth);
          r := Ok((s, defined));
        } else if token.value == "continue" {
          var s :- ParseContinue(depth);
          r := Ok((s, defined));
        } else if token.value == "print" {
          var s :- ParsePrint(defined);
          r := Ok((s, defined));
        } else if token.value == "pass" {
          var _ := Advance();
          r := Ok((Print(IntConst(0)), defined));
        } else {
          r := ParseAssignmentOrExpr(defined);
        }
      } else {
        r := Err(ParseError("Unexpected token: " + TokenRepr(token), token.lineno, token.colOffset));
      }
    }

    /** `x = e` or `o.a = e`; when that attempt fails the cursor goes back and the statement is
        tried as an expression statement.  Whenever the attempt got as far as `=`, the retry fails
        too, so a bad right-hand side is always an error. */
    method ParseAssignmentOrExpr(defined: set<string>) returns (r: Result<(Stmt, set<string>), Failure>)
      requires Valid()
      modifies this`pos
      ensures Valid() && old(pos) <= pos
      ensures r.Ok? ==> old(pos) < pos && StmtOk(r.value.0, defined, 0) && r.value.1 == DefinedAfter(r.value.0, defined)
      ensures r.Ok? ==> r.value.0.Assign? || r.value.0.AttrAssign? || r.value.0.MethodCallStmt? || r.value.0 == Print(IntConst(0))
      ensures r.Ok? && old(pos) + 1 < |tokens| && tokens[old(pos) + 1].ttype == EQUAL ==> r.value.0.Assign?
      ensures (r.Ok? && old(pos) + 3 < |tokens| && tokens[old(pos) + 1].ttype == DOT &&
               tokens[old(pos) + 2].ttype == NAME && tokens[old(pos) + 3].ttype == EQUAL) ==> r.value.0.AttrAssign?
      decreases |tokens| - pos, 9
    {
      var startPos := pos;
      var attempt := ParseAssignment(defined);
      if attempt.Ok? {
        return attempt;
      }
      pos := startPos;
      var s :- ParseExprStmt(defined);
      r := Ok((s, defined));
    }

    /** The assignment attempt: a target, `=`, and the right-hand side, which is read with the
        names defined before the target is added. */
    method ParseAssignment(defined: set<string>) returns (r: Result<(Stmt, set<string>), Failure>)
      requires Valid()
      modifies this`pos
      ensures Valid() && old(pos) <= pos
      ensures r.Ok? ==> old(pos) < pos && StmtOk(r.value.0, defined, 0) && r.value.1 == DefinedAfter(r.value.0, defined)
      ensures r.Ok? ==> (old(pos) + 1 < |tokens| &&
        ((r.value.0.Assign? && tokens[old(pos) + 1].ttype == EQUAL && r.value.0.name == tokens[old(pos)].value) ||
         (r.value.0.AttrAssign? && old(pos) + 3 < |tokens| && tokens[old(pos) + 1].ttype == DOT &&
          tokens[old(pos) + 3].ttype == EQUAL)))
      decreases |tokens| - pos, 8
    {
      var token :- Expect(NAME);
      if Match(DOT) {
        r := ParseAttrAssign(token, defined);
      } else {
        r := ParseNameAssign(token, defined);
      }
    }

    /** `NAME.attr = expr` from the `.`: the object must already be defined, and nothing new is. */
    method ParseAttrAssign(token: Token, defined: set<string>) returns (r: Result<(Stmt, set<string>), Failure>)
      requires Valid() && Match(DOT)
      modifies this`pos
      ensures Valid() && old(pos) < pos
      ensures r.Ok? ==> StmtOk(r.value.0, defined, 0) && r.value.1 == DefinedAfter(r.value.0, defined)
      ensures r.Ok? ==> r.value.0.AttrAssign? && old(pos) + 2 < |tokens| && tokens[old(pos) + 2].ttype == EQUAL
      decreases |tokens| - pos, 8
    {
      var _ := Advance();
      var attrToken :- Expect(NAME);
      if token.value !in defined {
        return Err(ParseError("Variable used before assignment: " + token.value, token.lineno, token.colOffset));
      }
      var _ :- Expect(EQUAL);
      var e :- ParseExpr(defined);
      r := Ok((AttrAssign(token.value, attrToken.value, e), defined));
    }

    /** `NAME = expr` from the `=`: the name is defined afterwards. */
    method ParseNameAssign(token: Token, defined: set<string>) returns (r: Result<(Stmt, set<string>), Failure>)
      requires Valid()
      modifies this`pos
      ensures Valid() && old(pos) <= pos
      ensures r.Ok? ==> StmtOk(r.value.0, defined, 0) && r.value.1 == DefinedAfter(r.value.0, defined)
      ensures r.Ok? ==> old(Match(EQUAL)) && r.value.0.Assign? && r.value.0.name == token.value
      decreases |tokens| - pos, 8
    {
      var _ :- Expect(EQUAL);
      var e :- ParseExpr(defined);
      r := Ok((Assign(token.value, e), defined + {token.value}));
    }

    /** The function-call branch of an expression statement, at the `(` after the NAME token:
        back to the name, a primary expression, and a call becomes the no-op `print(0)`. */
    method ParseCallStmt(token: Token, defined: set<string>) returns (r: Result<Stmt, Failure>)
      requires Valid() && 0 < pos && Match(LPAR) && tokens[pos - 1] == token
      modifies this`pos
      ensures Valid() && old(pos) - 1 <= pos
      ensures r.Ok? ==> old(pos) <= pos && r.value == Print(IntConst(0))
      decreases |tokens| - pos + 1, 6
    {
      pos := pos - 1;
      var e :- ParsePrimary(defined);
      if e.Call? {
        return Ok(Print(IntConst(0)));
      }
      r := Err(ParseError("Invalid statement: " + token.value, token.lineno, token.colOffset));
    }

    /** The method-call branch of an expression statement, from the `.` after a defined
        receiver: `.NAME(args)`. */
    method ParseMethodCallStmt(receiver: string, defined: set<string>) returns (r: Result<Stmt, Failure>)
      requires Valid() && Match(DOT) && receiver in defined
      modifies this`pos
      ensures Valid() && old(pos) < pos
      ensures r.Ok? ==> r.value.MethodCallStmt? && StmtOk(r.value, defined, 0)
      ensures r.Ok? ==> old(pos) + 2 < |tokens| && tokens[old(pos) + 2].ttype == LPAR
      decreases |tokens| - pos + 1, 5
    {
      var _ := Advance();
      var methodToken :- Expect(NAME);
      var _ :- Expect(LPAR);
      var args :- ParseArgs(defined);
      r := Ok(MethodCallStmt(receiver, methodToken.value, args));
    }

    /** A method-call statement, or a bare function call, which is kept as the no-op
        `Print(IntConst(0))`; anything else is "Invalid statement". */
    method ParseExprStmt(defined: set<string>) returns (r: Result<Stmt, Failure>)
      requires Valid()
      modifies this`pos
      ensures Valid() && old(pos) <= pos
      ensures r.Ok? ==> old(pos) < pos && StmtOk(r.value, defined, 0)
      ensures r.Ok? ==> r.value.MethodCallStmt? || r.value == Print(IntConst(0))
      ensures r.Ok? ==> old(pos) + 1 < |tokens| && tokens[old(pos) + 1].ttype in {DOT, LPAR}
      ensures r.Ok? && old(pos) + 1 < |tokens| && tokens[old(pos) + 1].ttype == DOT ==>
        old(pos) + 3 < |tokens| && tokens[old(pos) + 3].ttype == LPAR
      decreases |tokens| - pos, 7
    {
      if pos < |tokens| && tokens[pos].ttype == NAME {
        var token := tokens[pos];
        var name := token.value;
        var _ := Advance();
        if Match(DOT) {
          if name !in defined {
            return Err(ParseError("Variable used before assignment: " + name, token.lineno, token.colOffset));
          }
          r := ParseMethodCallStmt(name, defined);
          return;
        } else if Match(LPAR) {
          r := ParseCallStmt(token, defined);
          return;
        }
        r := Err(ParseError("Invalid statement: " + name, token.lineno, token.colOffset));
      } else {
        r := Err(ParseError("Expected expression statement", if pos < |tokens| then tokens[pos].lineno else 0, 0));
      }
    }

    method ParseIf(defined: set<string>, depth: int) returns (r: Result<(Stmt, set<string>), Failure>)
      requires Valid()
      modifies this`pos
      ensures Valid() && old(pos) <= pos
      ensures r.Ok? ==> old(pos) < pos && StmtOk(r.value.0, defined, depth) && r.value.1 == DefinedAfter(r.value.0, defined)
      ensures r.Ok? ==> r.value.0.If?
      decreases |tokens| - pos, 9
    {
      var _ :- ExpectValue(NAME, "if");
      var test :- ParseExpr(defined);
      var blk :- ParseSuite(defined, depth);
      var orelse: seq<Stmt> := [];
      var definedElse: set<string> := {};
      if MatchValue(NAME, "else") {
        var _ := Advance();
        var eb :- ParseSuite(defined, depth);
        orelse := eb.0;
        definedElse := eb.1;
      }
      DefinedAfterSeqGrows(blk.0, defined);
      var s := If(test, blk.0, orelse);
      assert IsCoreStmt(s) && StmtScoped(s, defined) && StmtLoopSafe(s, depth) && StmtCallsOk(s, fnSigs, classDefs);
      r := Ok((s, defined + blk.1 + definedElse));
    }

    method ParseWhile(defined: set<string>, depth: int) returns (r: Result<(Stmt, set<string>), Failure>)
      requires Valid()
      modifies this`pos
      ensures Valid() && old(pos) <= pos
      ensures r.Ok? ==> old(pos) < pos && StmtOk(r.value.0, defined, depth) && r.value.1 == DefinedAfter(r.value.0, defined)
      ensures r.Ok? ==> r.value.0.While?
      decreases |tokens| - pos, 9
    {
      var _ :- ExpectValue(NAME, "while");
      var test :- ParseExpr(defined);
      var blk :- ParseSuite(defined, depth + 1);
      DefinedAfterSeqGrows(blk.0, defined);
      r := Ok((While(test, blk.0), defined + blk.1));
    }

    /** `for v in range(args):` with one, two or three arguments filled out to start, stop and
        step; the loop variable is defined in the body and after the loop. */
    method ParseFor(defined: set<string>, depth: int) returns (r: Result<(Stmt, set<string>), Failure>)
      requires Valid()
      modifies this`pos
      ensures Valid() && old(pos) <= pos
      ensures r.Ok? ==> old(pos) < pos && StmtOk(r.value.0, defined, depth) && r.value.1 == DefinedAfter(r.value.0, defined)
      ensures r.Ok? ==> old(pos) < |tokens| && r.value.0.ForRange? && r.value.0.lineno == tokens[old(pos)].lineno &&
                        r.value.0.loopVar in r.value.1
      decreases |tokens| - pos, 9
    {
      var header :- ParseForHeader(defined);
      var (lineno, v, args) := header;
      var bounds :- RangeBounds(args);
      assert ExprOk(bounds.0, defined) && ExprOk(bounds.1, defined) && ExprOk(bounds.2, defined) by {
        assert forall e | e in [bounds.0, bounds.1, bounds.2] :: ExprOk(e, defined);
      }
      var blk :- ParseBlockBody(defined + {v}, depth + 1);
      DefinedAfterSeqGrows(blk.0, defined + {v});
      var s := ForRange(v, bounds.0, bounds.1, bounds.2, blk.0, lineno);
      assert StmtOk(s, defined, depth);
      r := Ok((s, defined + blk.1));
    }

    /** The header `for v in range(args):` up to the INDENT of its body: the line of `for`, the
        loop variable and the range arguments, which are read before v is defined. */
    method ParseForHeader(defined: set<string>) returns (r: Result<(int, string, seq<Expr>), Failure>)
      requires Valid()
      modifies this`pos
      ensures Valid() && old(pos) <= pos
      ensures r.Ok? ==> old(pos) < pos && old(pos) < |tokens| && r.value.0 == tokens[old(pos)].lineno &&
                        forall a | a in r.value.2 :: ExprOk(a, defined)
      decreases |tokens| - pos, 8
    {
      var forToken :- ExpectValue(NAME, "for");
      var varToken :- Expect(NAME);
      var _ :- ExpectValue(NAME, "in");
      var _ :- ExpectValue(NAME, "range");
      var _ :- Expect(LPAR);
      var args :- ParseArgs(defined);
      var _ :- Expect(COLON);
      var _ :- Expect(NEWLINE);
      var _ :- Expect(INDENT);
      r := Ok((forToken.lineno, varToken.value, args));
    }

    method ParseReturn(defined: set<string>) returns (r: Result<Stmt, Failure>)
      requires Valid()
      modifies this`pos
      ensures Valid() && old(pos) <= pos
      ensures r.Ok? ==> old(pos) < pos && StmtOk(r.value, defined, 0) && r.value.Return?
      decreases |tokens| - pos, 9
    {
      var _ :- ExpectValue(NAME, "return");
      if Match(NEWLINE) || Match(NL) {
        return Ok(Return(IntConst(0)));
      }
      var e :- ParseExpr(defined);
      r := Ok(Return(e));
    }

    method ParseBreak(depth: int) returns (r: Result<Stmt, Failure>)
      requires Valid()
      modifies this`pos
      ensures Valid() && old(pos) <= pos
      ensures r.Ok? <==> old(MatchValue(NAME, "break")) && depth > 0
      ensures r.Ok? ==> old(pos) < pos <= |tokens| && r.value == Break(tokens[old(pos)].lineno)
    {
      var token :- ExpectValue(NAME, "break");
      if depth <= 0 {
        return Err(ParseError("break outside loop", token.lineno, token.colOffset));
      }
      r := Ok(Break(token.lineno));
    }

    method ParseContinue(depth: int) returns (r: Result<Stmt, Failure>)
      requires Valid()
      modifies this`pos
      ensures Valid() && old(pos) <= pos
      ensures r.Ok? <==> old(MatchValue(NAME, "continue")) && depth > 0
      ensures r.Ok? ==> old(pos) < pos <= |tokens| && r.value == Continue(tokens[old(pos)].lineno)
    {
      var token :- ExpectValue(NAME, "continue");
      if depth <= 0 {
        return Err(ParseError("continue outside loop", token.lineno, token.colOffset));
      }
      r := Ok(Continue(token.lineno));
    }

    method ParsePrint(defined: set<string>) returns (r: Result<Stmt, Failure>)
      requires Valid()
      modifies this`pos
      ensures Valid() && old(pos) <= pos
      ensures r.Ok? ==> old(pos) < pos && StmtOk(r.value, defined, 0) && r.value.Print?
      decreases |tokens| - pos, 9
    {
      var _ :- ExpectValue(NAME, "print");
      var _ :- Expect(LPAR);
      var e :- ParseExpr(defined);
      var _ :- Expect(RPAR);
      r := Ok(Print(e));
    }

    // -------------------------------------------------------------------------------------------
    // Expressions

    /** A parenthesised, comma-separated argument list whose `(` has been consumed. */
    method ParseArgs(defined: set<string>) returns (r: Result<seq<Expr>, Failure>)
      requires Valid()
      modifies this`pos
      ensures Valid() && old(pos) <= pos
      ensures r.Ok? ==> old(pos) < pos && forall a | a in r.value :: ExprOk(a, defined)
      decreases |tokens| - pos, 8
    {
      var args: seq<Expr> := [];
      var start := pos;
      while !Match(RPAR)
        invariant Valid() && start <= pos
        invariant forall a | a in args :: ExprOk(a, defined)
        decreases |tokens| - pos
      {
        if args != [] {
          var _ :- Expect(COMMA);
        }
        var arg :- ParseExpr(defined);
        args := args + [arg];
      }
      var _ := Expect(RPAR);  // the loop stopped at the `)`, so this cannot fail
      r := Ok(args);
    }

    method ParseExpr(defined: set<string>) returns (r: Result<Expr, Failure>)
      requires Valid()
      modifies this`pos
      ensures Valid() && old(pos) <= pos
      ensures r.Ok? ==> old(pos) < pos && ExprOk(r.value, defined)
      decreases |tokens| - pos, 7
    {
      r := ParseComparison(defined);
    }

    /** One optional, non-chained comparison between two additive expressions. */
    method ParseComparison(defined: set<string>) returns (r: Result<Expr, Failure>)
      requires Valid()
      modifies this`pos
      ensures Valid() && old(pos) <= pos
      ensures r.Ok? ==> old(pos) < pos && ExprOk(r.value, defined)
      decreases |tokens| - pos, 6
    {
      var left :- ParseAdditive(defined);
      var op := if pos < |tokens| then ComparisonOp(tokens[pos].ttype) else "";
      if op == "" {
        return Ok(left);
      }
      var _ := Advance();
      var right :- ParseAdditive(defined);
      r := Ok(CmpOp(op, left, right));
    }

    /** Left-associative `+` and `-`. */
    method ParseAdditive(defined: set<string>) returns (r: Result<Expr, Failure>)
      requires Valid()
      modifies this`pos
      ensures Valid() && old(pos) <= pos
      ensures r.Ok? ==> old(pos) < pos && ExprOk(r.value, defined)
      decreases |tokens| - pos, 5
    {
      var left :- ParseMultiplicative(defined);
      var start := pos;
      while pos < |tokens| && AdditiveOp(tokens[pos].ttype) != ""
        invariant Valid() && start <= pos
        invariant ExprOk(left, defined)
        decreases |tokens| - pos
      {
        var op := AdditiveOp(tokens[pos].ttype);
        var _ := Advance();
        var right :- ParseMultiplicative(defined);
        left := BinOp(op, left, right);
      }
      r := Ok(left);
    }

    /** Left-associative `*`, `//` and `%`. */
    method ParseMultiplicative(defined: set<string>) returns (r: Result<Expr, Failure>)
      requires Valid()
      modifies this`pos
      ensures Valid() && old(pos) <= pos
      ensures r.Ok? ==> old(pos) < pos && ExprOk(r.value, defined)
      decreases |tokens| - pos, 4
    {
      var left :- ParseUnary(defined);
      var start := pos;
      while pos < |tokens| && MultiplicativeOp(tokens[pos].ttype) != ""
        invariant Valid() && start <= pos
        invariant ExprOk(left, defined)
        decreases |tokens| - pos
      {
        var op := MultiplicativeOp(tokens[pos].ttype);
        var _ := Advance();
        var right :- ParseUnary(defined);
        left := BinOp(op, left, right);
      }
      r := Ok(left);
    }

    /** A NUMBER token: a float literal (when the lexer accepts it) or an integer literal. */
    method ParseNumber(defined: set<string>) returns (r: Result<Expr, Failure>)
      requires Valid() && Match(NUMBER)
      modifies this`pos
      ensures Valid() && pos == old(pos) + 1
      ensures r.Ok? ==> ExprOk(r.value, defined)
      ensures r.Ok? ==>
        (if LooksLikeFloat(tokens[old(pos)].value) then r.value == FloatConst(tokens[old(pos)].value)
         else IsIntLiteral(tokens[old(pos)].value) && r.value == IntConst(IntLiteralValue(tokens[old(pos)].value)))
    {
      var token := tokens[pos];
      var _ := Advance();
      var raw := token.value;
      if LooksLikeFloat(raw) {
        if !FloatAccepted(raw) {
          return Err(ParseError("Invalid float: " + raw, token.lineno, token.colOffset));
        }
        return Ok(FloatConst(raw));
      }
      if !IsIntLiteral(raw) {
        return Err(ParseError("Invalid integer: " + raw, token.lineno, token.colOffset));
      }
      return Ok(IntConst(IntLiteralValue(raw)));
    }

    /** A NAME token in an expression: True and False, a call, a method call, an attribute
        access or a variable, the last two only when the name is defined. */
    method ParseNamePrimary(defined: set<string>) returns (r: Result<Expr, Failure>)
      requires Valid() && Match(NAME)
      modifies this`pos
      ensures Valid() && old(pos) < pos
      ensures r.Ok? ==> ExprOk(r.value, defined)
      ensures r.Ok? && old(MatchValue(NAME, "True")) ==> r.value == IntConst(1)
      ensures r.Ok? && old(MatchValue(NAME, "False")) ==> r.value == IntConst(0)
      decreases |tokens| - pos, 1
    {
      var token := tokens[pos];
      var name := token.value;
      var _ := Advance();
      if name == "True" {
        return Ok(IntConst(1));
      }
      if name == "False" {
        return Ok(IntConst(0));
      }
      if Match(LPAR) {
        r := ParseCall(name, defined);
        return;
      }
      if Match(DOT) {
        var _ := Advance();
        var attrToken :- Expect(NAME);
        if Match(LPAR) {
          r := ParseMethodCall(name, attrToken.value, defined);
          return;
        }
        if name !in defined {
          return Err(ParseError("Variable used before assignment: " + name, token.lineno, token.colOffset));
        }
        return Ok(AttributeAccess(name, attrToken.value));
      }
      if name !in defined {
        return Err(ParseError("Variable used before assignment: " + name, token.lineno, token.colOffset));
      }
      return Ok(Var(name));
    }

    /** Unary minus is `0 - e`. */
    method ParseUnary(defined: set<string>) returns (r: Result<Expr, Failure>)
      requires Valid()
      modifies this`pos
      ensures Valid() && old(pos) <= pos
      ensures r.Ok? ==> old(pos) < pos && ExprOk(r.value, defined)
      ensures r.Ok? && old(Match(MINUS)) ==> r.value.BinOp? && r.value.op == "-" && r.value.left == IntConst(0)
      decreases |tokens| - pos, 3
    {
      if Match(MINUS) {
        var _ := Advance();
        var operand :- ParseUnary(defined);
        assert IsCoreExpr(BinOp("-", IntConst(0), operand));
        assert ExprScoped(BinOp("-", IntConst(0), operand), defined);
        assert ExprCallsOk(BinOp("-", IntConst(0), operand), fnSigs, classDefs);
        return Ok(BinOp("-", IntConst(0), operand));
      }
      r := ParsePrimary(defined);
    }

    method ParsePrimary(defined: set<string>) returns (r: Result<Expr, Failure>)
      requires Valid()
      modifies this`pos
      ensures Valid() && old(pos) <= pos
      ensures r.Ok? ==> old(pos) < pos && ExprOk(r.value, defined)
      ensures r.Ok? && old(MatchValue(NAME, "True")) ==> r.value == IntConst(1)
      ensures r.Ok? && old(MatchValue(NAME, "False")) ==> r.value == IntConst(0)
      ensures r.Ok? && old(Match(NUMBER)) ==>
        (if LooksLikeFloat(tokens[old(pos)].value) then r.value == FloatConst(tokens[old(pos)].value)
         else IsIntLiteral(tokens[old(pos)].value) && r.value == IntConst(IntLiteralValue(tokens[old(pos)].value)))
      ensures r.Ok? && old(Match(STRING)) ==> r.value == StrConst(StripQuotes(tokens[old(pos)].value))
      decreases |tokens| - pos, 2
    {
      if pos >= |tokens| {
        return Err(ParseError("Unexpected end of input", 0, 0));
      }
      var token := tokens[pos];
      if token.ttype == NUMBER {
        r := ParseNumber(defined);
        return;
      }
      if token.ttype == STRING {
        var _ := Advance();
        return Ok(StrConst(StripQuotes(token.value)));
      }
      if token.ttype == NAME {
        r := ParseNamePrimary(defined);
        return;
      }
      if token.ttype == LPAR {
        var _ := Advance();
        var e :- ParseExpr(defined);
        var _ :- Expect(RPAR);
        return Ok(e);
      }
      r := Err(ParseError("Unexpected token: " + TokenRepr(token), token.lineno, token.colOffset));
    }

    /** A call resolves as a builtin, else a constructor, else a pass-1 function called with
        exactly its recorded arity; anything else is "Unknown function or class". */
    method ParseCall(name: string, defined: set<string>) returns (r: Result<Expr, Failure>)
      requires Valid()
      modifies this`pos
      ensures Valid() && old(pos) <= pos
      ensures r.Ok? ==> old(pos) < pos && ExprOk(r.value, defined)
      ensures r.Ok? ==> (name in Builtins ==> r.value.BuiltinCall?) &&
                        (name !in Builtins && name in classDefs ==> r.value.ConstructorCall?) &&
                        (name !in Builtins && name !in classDefs ==> r.value.Call?)
      ensures name !in Builtins && name !in classDefs && name !in fnSigs ==> r.Err?
      decreases |tokens| - pos, 1
    {
      var _ :- Expect(LPAR);
      var args :- ParseArgs(defined);
      if name in Builtins {
        r := ParseBuiltin(name, args);
        return;
      }
      if name in classDefs {
        return Ok(ConstructorCall(name, args));
      }
      if name !in fnSigs {
        return Err(ParseError("Unknown function or class: " + name, 0, 0));
      }
      var expected := fnSigs[name];
      if |args| != expected {
        return Err(ParseError("Function '" + name + "' expects " + Decimal.IntToString(expected) + " args, got " +
                              Decimal.IntToString(|args|), 0, 0));
      }
      r := Ok(Call(name, args));
    }

    /** A method call in an expression; its receiver is not checked against the defined names. */
    method ParseMethodCall(obj: string, methodName: string, defined: set<string>) returns (r: Result<Expr, Failure>)
      requires Valid()
      modifies this`pos
      ensures Valid() && old(pos) <= pos
      ensures r.Ok? ==> old(pos) < pos && ExprOk(r.value, defined) && r.value.MethodCall? && r.value.obj == obj
      decreases |tokens| - pos, 1
    {
      var _ :- Expect(LPAR);
      var args :- ParseArgs(defined);
      r := Ok(MethodCall(obj, methodName, args));
    }
  }
}
