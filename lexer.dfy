/** Token conversion of the pcc lexer (pcc/frontend/lexer.py).

    The lexer drives Python's own `tokenize` module and converts each tuple it yields into a pcc
    token.  The tokenizer is foreign, so its output is an input here (`RawToken`); what is modelled
    is the conversion table `ConvertToken`, the keyword test and the error-message format. */
module Lexer {
  import opened Wrappers
  import Decimal

  /** The pcc token kinds. */
  datatype TokenType =
    | NUMBER | STRING | NAME
    | PLUS | MINUS | STAR | SLASH | PERCENT | DOUBLESLASH
    | LESS | GREATER | LESSEQUAL | GREATEREQUAL | EQEQUAL | NOTEQUAL
    | EQUAL
    | LPAR | RPAR | LBRACE | RBRACE | LBRACKET | RBRACKET | COLON | COMMA | DOT
    | NEWLINE | INDENT | DEDENT
    | ENDMARKER | COMMENT | NL | ENCODING

  datatype Token = Token(ttype: TokenType, value: string, lineno: int, colOffset: int, line: string)

  /** The kinds of the foreign tokenizer's tuples; every kind the table does not list is `Other`,
      carrying the tokenizer's numeric code. */
  datatype RawKind =
    | RNumber | RString | RName | ROp | RNewline | RNl | RComment | REncoding | REndmarker
    | RIndent | RDedent | RErrorToken | ROther(code: int)

  datatype RawToken = RawToken(kind: RawKind, value: string, lineno: int, colOffset: int, line: string)

  datatype LexErrorKind =
    | InvalidCharacter(text: string)
    | UnsupportedOperator(text: string)
    | UnknownTokenType(code: int)

  datatype LexError = LexError(kind: LexErrorKind, lineno: int, colOffset: int, line: string)

  /** The operator table: the only operators the subset knows. */
  const OpMap: map<string, TokenType> := map[
    "+" := PLUS, "-" := MINUS, "*" := STAR, "/" := SLASH, "%" := PERCENT, "//" := DOUBLESLASH,
    "<" := LESS, ">" := GREATER, "<=" := LESSEQUAL, ">=" := GREATEREQUAL, "==" := EQEQUAL,
    "!=" := NOTEQUAL, "=" := EQUAL,
    "(" := LPAR, ")" := RPAR, "{" := LBRACE, "}" := RBRACE, "[" := LBRACKET, "]" := RBRACKET,
    ":" := COLON, "," := COMMA, "." := DOT]

  /** The keywords of the subset. */
  const Keywords: set<string> := {
    "def", "class", "if", "else", "elif", "while", "for", "in",
    "return", "pass", "break", "continue", "print", "range",
    "True", "False", "None", "and", "or", "not", "is"}

  /** The tokenizer kinds the table maps one to one (operators and error tokens are handled
      separately). */
  function MappedKind(k: RawKind): (r: Option<TokenType>)
    ensures r.Some? <==> !(k.ROp? || k.RErrorToken? || k.ROther?)
  {
    match k
    case RNumber => Some(NUMBER)
    case RString => Some(STRING)
    case RName => Some(NAME)
    case RNewline => Some(NEWLINE)
    case RNl => Some(NL)
    case RComment => Some(COMMENT)
    case REncoding => Some(ENCODING)
    case REndmarker => Some(ENDMARKER)
    case RIndent => Some(INDENT)
    case RDedent => Some(DEDENT)
    case _ => None
  }

  /** Python's `str.isspace` on one character. */
  predicate IsPySpace(c: char)
  {
    c == ' ' || ('\t' <= c <= '\r') || ('\U{1c}' <= c <= '\U{1f}') || c == '\U{85}' || c == '\U{a0}' ||
    c == '\U{1680}' || ('\U{2000}' <= c <= '\U{200a}') || c == '\U{2028}' || c == '\U{2029}' ||
    c == '\U{202f}' || c == '\U{205f}' || c == '\U{3000}'
  }

  /** `s.strip()` is empty. */
  predicate BlankText(s: string)
  {
    forall i :: 0 <= i < |s| ==> IsPySpace(s[i])
  }

  /** Converts one tokenizer tuple: `Ok(None)` means the tuple is skipped. */
  function ConvertToken(t: RawToken): (r: Result<Option<Token>, LexError>)
    // a converted token keeps its text and position
    ensures r.Ok? && r.value.Some? ==>
      r.value.value.value == t.value && r.value.value.lineno == t.lineno &&
      r.value.value.colOffset == t.colOffset && r.value.value.line == t.line
    // errors carry the tuple's position
    ensures r.Err? ==> r.error.lineno == t.lineno && r.error.colOffset == t.colOffset && r.error.line == t.line
  {
    match t.kind
    case RErrorToken =>
      if BlankText(t.value) then Ok(None)
      else Err(LexError(InvalidCharacter(t.value), t.lineno, t.colOffset, t.line))
    case ROp =>
      if t.value in OpMap then Ok(Some(Token(OpMap[t.value], t.value, t.lineno, t.colOffset, t.line)))
      else Err(LexError(UnsupportedOperator(t.value), t.lineno, t.colOffset, t.line))
    case ROther(code) => Err(LexError(UnknownTokenType(code), t.lineno, t.colOffset, t.line))
    case _ => Ok(Some(Token(MappedKind(t.kind).value, t.value, t.lineno, t.colOffset, t.line)))
  }

  /** The enum member name of a token kind, as error messages show it. */
  function TypeName(tt: TokenType): string
  {
    match tt
    case NUMBER => "NUMBER"
    case STRING => "STRING"
    case NAME => "NAME"
    case PLUS => "PLUS"
    case MINUS => "MINUS"
    case STAR => "STAR"
    case SLASH => "SLASH"
    case PERCENT => "PERCENT"
    case DOUBLESLASH => "DOUBLESLASH"
    case LESS => "LESS"
    case GREATER => "GREATER"
    case LESSEQUAL => "LESSEQUAL"
    case GREATEREQUAL => "GREATEREQUAL"
    case EQEQUAL => "EQEQUAL"
    case NOTEQUAL => "NOTEQUAL"
    case EQUAL => "EQUAL"
    case LPAR => "LPAR"
    case RPAR => "RPAR"
    case LBRACE => "LBRACE"
    case RBRACE => "RBRACE"
    case LBRACKET => "LBRACKET"
    case RBRACKET => "RBRACKET"
    case COLON => "COLON"
    case COMMA => "COMMA"
    case DOT => "DOT"
    case NEWLINE => "NEWLINE"
    case INDENT => "INDENT"
    case DEDENT => "DEDENT"
    case ENDMARKER => "ENDMARKER"
    case COMMENT => "COMMENT"
    case NL => "NL"
    case ENCODING => "ENCODING"
  }

  /** The repr of a token: `Token(NAME, 'x', line=3)`. */
  function TokenRepr(t: Token): string
  {
    "Token(" + TypeName(t.ttype) + ", " + Repr(t.value) + ", line=" + Decimal.IntToString(t.lineno) + ")"
  }

  predicate IsKeyword(name: string)
  {
    name in Keywords
  }

  /** Python's `repr` of a text, in the single-quoted form it takes for text without quotes,
      backslashes or unprintable characters. */
  function Repr(s: string): string
  {
    "'" + s + "'"
  }

  function ErrorText(k: LexErrorKind): string
  {
    match k
    case InvalidCharacter(v) => "Invalid character: " + Repr(v)
    case UnsupportedOperator(v) => "Unsupported operator: " + Repr(v)
    case UnknownTokenType(c) => "Unknown token type: " + Decimal.IntToString(c)
  }

  /** The rendered message of a lexer error. */
  function Message(e: LexError): string
  {
    if e.lineno > 0 then
      "Line " + Decimal.IntToString(e.lineno) + ", col " + Decimal.IntToString(e.colOffset) + ": " + ErrorText(e.kind)
    else ErrorText(e.kind)
  }

  // ---------------------------------------------------------------------------------------------
  // Properties of the table

  /** The text of an operator token type: the inverse of the operator table. */
  function OpText(tt: TokenType): Option<string>
  {
    match tt
    case PLUS => Some("+")
    case MINUS => Some("-")
    case STAR => Some("*")
    case SLASH => Some("/")
    case PERCENT => Some("%")
    case DOUBLESLASH => Some("//")
    case LESS => Some("<")
    case GREATER => Some(">")
    case LESSEQUAL => Some("<=")
    case GREATEREQUAL => Some(">=")
    case EQEQUAL => Some("==")
    case NOTEQUAL => Some("!=")
    case EQUAL => Some("=")
    case LPAR => Some("(")
    case RPAR => Some(")")
    case LBRACE => Some("{")
    case RBRACE => Some("}")
    case LBRACKET => Some("[")
    case RBRACKET => Some("]")
    case COLON => Some(":")
    case COMMA => Some(",")
    case DOT => Some(".")
    case _ => None
  }

  /** The operator table is one to one: each operator text maps to a kind whose text it is. */
  lemma OpMapRoundTrip(v: string)
    requires v in OpMap
    ensures OpText(OpMap[v]) == Some(v)
  {
  }

  /** An operator converts exactly when it is in the table, to that kind with its text unchanged;
      any other operator is "Unsupported operator". */
  lemma ConvertOperator(t: RawToken)
    requires t.kind == ROp
    ensures t.value in OpMap <==> ConvertToken(t).Ok?
    ensures t.value in OpMap ==> ConvertToken(t) == Ok(Some(Token(OpMap[t.value], t.value, t.lineno, t.colOffset, t.line)))
    ensures t.value !in OpMap ==> ConvertToken(t).error.kind == UnsupportedOperator(t.value)
  {
  }

  /** `**` and `@` are not in the subset. */
  lemma PowerAndMatmulUnsupported(t: RawToken)
    requires t.kind == ROp && (t.value == "**" || t.value == "@")
    ensures ConvertToken(t).Err? && ConvertToken(t).error.kind == UnsupportedOperator(t.value)
  {
    assert "**" !in OpMap && "@" !in OpMap;
  }

  /** An error token is dropped iff it is all whitespace; otherwise it is an error naming it. */
  lemma ConvertErrorToken(t: RawToken)
    requires t.kind == RErrorToken
    ensures ConvertToken(t) == Ok(None) <==> BlankText(t.value)
    ensures !BlankText(t.value) ==> ConvertToken(t).Err? && ConvertToken(t).error.kind == InvalidCharacter(t.value)
  {
  }

  /** Only error tokens are ever dropped; comments, in particular, are kept. */
  lemma OnlyErrorTokensSkipped(t: RawToken)
    requires ConvertToken(t) == Ok(None)
    ensures t.kind == RErrorToken
  {
  }

  lemma CommentsKept(t: RawToken)
    requires t.kind == RComment
    ensures ConvertToken(t) == Ok(Some(Token(COMMENT, t.value, t.lineno, t.colOffset, t.line)))
  {
  }

  /** A kind outside the table is always an error naming its code. */
  lemma UnknownKindRejected(t: RawToken)
    requires t.kind.ROther?
    ensures ConvertToken(t) == Err(LexError(UnknownTokenType(t.kind.code), t.lineno, t.colOffset, t.line))
  {
  }

  /** The keyword test covers the control words the parsers dispatch on, and not ordinary
      identifiers such as `self`, `len` or `x`. */
  lemma KeywordExamples()
    ensures IsKeyword("elif") && IsKeyword("range") && IsKeyword("print") && IsKeyword("None")
    ensures !IsKeyword("self") && !IsKeyword("len") && !IsKeyword("x")
  {
  }

  /** A message carries a "Line L, col C: " prefix exactly when the line is positive, and always
      ends with the error's own text. */
  lemma MessageShape(e: LexError)
    ensures var m := Message(e); var t := ErrorText(e.kind);
      |t| <= |m| && m[|m| - |t|..] == t &&
      (e.lineno > 0 <==> (|m| >= 5 && m[..5] == "Line "))
  {
    var t := ErrorText(e.kind);
    assert t[0] != 'L';
    if e.lineno > 0 {
      var m := Message(e);
      assert m == "Line " + (Decimal.IntToString(e.lineno) + ", col " + Decimal.IntToString(e.colOffset) + ": ") + t;
    }
  }
}
