/**
 * The Pratt parser (ts/src/parser/index.ts) as functions over the token
 * stream. The parser's mutable state (which token is current, and the
 * errors pushed so far) is a `Cursor`; every rule takes the cursor it
 * starts at and gives back the node it built, if any, with the cursor it
 * leaves. The stream is the lexer's output: it ends with EOF and the lexer
 * keeps answering EOF, so `nextToken` stops moving at the last token.
 * The class `Parser` (parser_object.dfy) runs the rules' loops in place.
 */
module Parsing {
  import opened Wrappers
  import opened Tokens
  import opened Ast
  import opened Numerals

  const LOWEST := 1
  const EQUALS := 2
  const LESSGREATER := 3
  const SUM := 4
  const PRODUCT := 5
  const PREFIX := 6
  const ASSIGN := 7
  const CALL := 8
  const INDEX := 9

  /** The binding power of a token as an infix operator; LOWEST for every token not in the table. */
  function Precedence(k: Kind): nat
  {
    match k
    case Eq => EQUALS
    case NotEq => EQUALS
    case Lt => LESSGREATER
    case Gt => LESSGREATER
    case Lte => LESSGREATER
    case Gte => LESSGREATER
    case Plus => SUM
    case Minus => SUM
    case Slash => PRODUCT
    case Asterisk => PRODUCT
    case Assign => ASSIGN
    case LParen => CALL
    case LBracket => INDEX
    case _ => LOWEST
  }

  /** The token kinds a prefix rule is registered for. */
  predicate HasPrefixRule(k: Kind)
  {
    k in {True, False, Ident, Int, Float, Bang, Minus, LParen, If, Function, Str, LBracket, LBrace, Illegal, Macro}
  }

  /** The token kinds an infix rule is registered for. */
  predicate HasInfixRule(k: Kind)
  {
    k in {LBracket, Plus, Minus, Slash, Asterisk, Eq, NotEq, Lte, Gte, Lt, Gt, LParen, Assign}
  }

  /** An error as the parser records it: a message and a line. */
  datatype ParseError = ParseError(message: string, line: int)

  /** The parser's state: the index of the current token, and the errors so far. */
  datatype Cursor = Cursor(pos: nat, errors: seq<ParseError>)

  /** A rule's outcome: the node it built (none when it gave up) and where it left the parser. */
  datatype Parsed = Parsed(node: Option<Node>, c: Cursor)

  /** The outcome of a check such as `expectPeek`: its boolean answer and the state after it. */
  datatype Checked = Checked(flag: bool, c: Cursor)

  /** The outcome of a list rule: the items, or none when the list failed. */
  datatype ParsedList = ParsedList(items: Option<seq<Node>>, c: Cursor)

  /** The outcome of `parseFunctionParameters`. */
  datatype ParsedParams = ParsedParams(params: Option<seq<Node>>, c: Cursor)

  /** A stream as the lexer yields it: it ends with EOF. */
  predicate WellFormed(toks: seq<Token>)
  {
    |toks| > 0 && toks[|toks| - 1].kind == EOF
  }

  predicate Valid(toks: seq<Token>, c: Cursor)
  {
    WellFormed(toks) && c.pos < |toks|
  }

  /** `curToken`. */
  function Cur(toks: seq<Token>, c: Cursor): Token
    requires c.pos < |toks|
  {
    toks[c.pos]
  }

  /** `peekToken`: the token after the current one; EOF once the stream is exhausted. */
  function Peek(toks: seq<Token>, c: Cursor): Token
    requires Valid(toks, c)
  {
    if c.pos + 1 < |toks| then toks[c.pos + 1] else toks[|toks| - 1]
  }

  /** The parser only moves forward and only adds errors. */
  predicate Advanced(toks: seq<Token>, c: Cursor, d: Cursor)
  {
    c.pos <= d.pos < |toks| && c.errors <= d.errors
  }

  /** `nextToken`: the peek token becomes current. */
  function Next(toks: seq<Token>, c: Cursor): (d: Cursor)
    requires Valid(toks, c)
    ensures Advanced(toks, c, d) && d.errors == c.errors
    ensures Cur(toks, d) == Peek(toks, c)
    ensures Cur(toks, c).kind != EOF ==> d.pos == c.pos + 1
  {
    if c.pos + 1 < |toks| then Cursor(c.pos + 1, c.errors) else c
  }

  /**
   * `peekError`: records that `expected` should have come next. The line is
   * the lexer's line counter, which has just read the peek token.
   */
  function PeekError(toks: seq<Token>, c: Cursor, expected: string): (d: Cursor)
    requires Valid(toks, c)
  {
    var p := Peek(toks, c);
    Cursor(c.pos, c.errors + [ParseError("expected next token to be " + expected + ", got " + Spelling(p.kind) + " instead", p.line)])
  }

  /** `expectPeek`: advances exactly one token iff the peek token has kind `k`; otherwise records an error and stays. */
  function ExpectPeek(toks: seq<Token>, c: Cursor, k: Kind): (r: Checked)
    requires Valid(toks, c)
    ensures Advanced(toks, c, r.c)
    ensures r.flag <==> Peek(toks, c).kind == k
    ensures r.flag ==> r.c == Next(toks, c) && Cur(toks, r.c).kind == k
    ensures r.flag && k != EOF ==> r.c.pos == c.pos + 1
    ensures !r.flag ==> r.c.pos == c.pos && r.c.errors == c.errors + [ParseError(
      "expected next token to be " + Spelling(k) + ", got " + Spelling(Peek(toks, c).kind) + " instead", Peek(toks, c).line)]
  {
    if Peek(toks, c).kind == k then Checked(true, Next(toks, c)) else Checked(false, PeekError(toks, c, Spelling(k)))
  }

  /** `skipSemicolon`: moves past every `;` that follows. */
  function SkipSemicolon(toks: seq<Token>, c: Cursor): (d: Cursor)
    requires Valid(toks, c)
    ensures Advanced(toks, c, d) && d.errors == c.errors
    ensures Peek(toks, d).kind != Semicolon
    ensures Peek(toks, c).kind == Semicolon ==> Cur(toks, d).kind == Semicolon
    ensures Peek(toks, c).kind != Semicolon ==> d == c
    decreases |toks| - c.pos
  {
    if Peek(toks, c).kind == Semicolon then SkipSemicolon(toks, Next(toks, c)) else c
  }

  /**
   * `checkSemicolonError`: true (and an error recorded) iff no `;` follows;
   * the `;`s that do follow are skipped.
   */
  function CheckSemicolonError(toks: seq<Token>, c: Cursor): (r: Checked)
    requires Valid(toks, c)
    ensures Advanced(toks, c, r.c)
    ensures r.flag <==> Peek(toks, c).kind != Semicolon
    ensures !r.flag ==> Cur(toks, r.c).kind == Semicolon && r.c.errors == c.errors
    ensures r.flag ==> r.c.pos == c.pos && |r.c.errors| == |c.errors| + 1
  {
    if Peek(toks, c).kind == Semicolon then Checked(false, SkipSemicolon(toks, c))
    else Checked(true, SkipSemicolon(toks, PeekError(toks, c, ";")))
  }

  /** `noPrefixParseFnError`. */
  function NoPrefixError(toks: seq<Token>, c: Cursor): (d: Cursor)
    requires Valid(toks, c)
  {
    Cursor(c.pos, c.errors + [ParseError("no prefix parse function for " + Spelling(Cur(toks, c).kind) + " found", Peek(toks, c).line)])
  }

  /** `parseIntegerLiteral`: the literal read as a number; text that is not a number is an error. */
  function ParseIntegerLiteral(toks: seq<Token>, c: Cursor): (r: Parsed)
    requires Valid(toks, c)
    ensures Advanced(toks, c, r.c) && r.c.pos == c.pos
    ensures r.node.Some? <==> ParseDecimal(Cur(toks, c).literal).Some?
    ensures r.node.Some? ==> r.node.value == IntegerLiteral(Cur(toks, c), ParseDecimal(Cur(toks, c).literal).value.Floor) && r.c == c
    ensures r.node.None? ==> |r.c.errors| == |c.errors| + 1
  {
    var t := Cur(toks, c);
    match ParseDecimal(t.literal)
    case None => Parsed(None, Cursor(c.pos, c.errors + [ParseError("could not parse " + t.literal + " as integer", Peek(toks, c).line)]))
    case Some(v) => Parsed(Some(IntegerLiteral(t, v.Floor)), c)
  }

  /** `parseFloatLiteral`, with the same error message as the integer rule. */
  function ParseFloatLiteral(toks: seq<Token>, c: Cursor): (r: Parsed)
    requires Valid(toks, c)
    ensures Advanced(toks, c, r.c) && r.c.pos == c.pos
    ensures r.node.Some? <==> ParseDecimal(Cur(toks, c).literal).Some?
    ensures r.node.Some? ==> r.node.value == FloatLiteral(Cur(toks, c), ParseDecimal(Cur(toks, c).literal).value) && r.c == c
    ensures r.node.None? ==> |r.c.errors| == |c.errors| + 1
  {
    var t := Cur(toks, c);
    match ParseDecimal(t.literal)
    case None => Parsed(None, Cursor(c.pos, c.errors + [ParseError("could not parse " + t.literal + " as integer", Peek(toks, c).line)]))
    case Some(v) => Parsed(Some(FloatLiteral(t, v)), c)
  }

  /**
   * `parseFunctionParameters`, entered on `(`: the tokens between the
   * commas, each taken as an Identifier whatever its kind, up to `)`.
   */
  function ParseFunctionParameters(toks: seq<Token>, c: Cursor): (r: ParsedParams)
    requires Valid(toks, c)
    ensures Advanced(toks, c, r.c)
    ensures r.params.None? ==> |c.errors| < |r.c.errors|
    ensures r.params.Some? ==> Cur(toks, r.c).kind == RParen
    ensures r.params.Some? ==> forall p :: p in r.params.value ==> p.Identifier?
  {
    if Peek(toks, c).kind == RParen then ParsedParams(Some([]), Next(toks, c))
    else
      var c1 := Next(toks, c);
      ParametersLoop(toks, c1, [Identifier(Cur(toks, c1), Cur(toks, c1).literal)])
  }

  /** The `while` loop of `parseFunctionParameters`, from the parameters read so far. */
  function ParametersLoop(toks: seq<Token>, c: Cursor, acc: seq<Node>): (r: ParsedParams)
    requires Valid(toks, c)
    requires forall p :: p in acc ==> p.Identifier?
    ensures Advanced(toks, c, r.c)
    ensures r.params.None? ==> |c.errors| < |r.c.errors|
    ensures r.params.Some? ==> Cur(toks, r.c).kind == RParen
    ensures r.params.Some? ==> acc <= r.params.value && forall p :: p in r.params.value ==> p.Identifier?
    decreases |toks| - c.pos
  {
    if Peek(toks, c).kind == Comma then
      var c1 := Next(toks, Next(toks, c));
      ParametersLoop(toks, c1, acc + [Identifier(Cur(toks, c1), Cur(toks, c1).literal)])
    else
      var e := ExpectPeek(toks, c, RParen);
      if !e.flag then ParsedParams(None, e.c) else ParsedParams(Some(acc), e.c)
  }

  /** `parseStatement`: dispatch on the current token. */
  function ParseStatement(toks: seq<Token>, c: Cursor): (r: Parsed)
    requires Valid(toks, c)
    ensures Advanced(toks, c, r.c)
    ensures r.node.None? ==> |c.errors| < |r.c.errors|
    ensures r.node.Some? ==> IsStatement(r.node.value)
    decreases |toks| - c.pos, 16
  {
    match Cur(toks, c).kind
    case Let => ParseLetStatement(toks, c)
    case Return => ParseReturnStatement(toks, c)
    case While => ParseWhileStatement(toks, c)
    case For => ParseForStatement(toks, c)
    case _ => ParseExpressionStatement(toks, c)
  }

  /** `parseLetStatement`: `let <ident> = <expression>;`, the `;` required. */
  function ParseLetStatement(toks: seq<Token>, c: Cursor): (r: Parsed)
    requires Valid(toks, c)
    ensures Advanced(toks, c, r.c)
    ensures r.node.None? ==> |c.errors| < |r.c.errors|
    ensures r.node.Some? ==> r.node.value.LetStatement? && r.node.value.name.Identifier? && Cur(toks, r.c).kind == Semicolon
    decreases |toks| - c.pos, 14
  {
    var tok := Cur(toks, c);
    var e1 := ExpectPeek(toks, c, Ident);
    if !e1.flag then Parsed(None, e1.c)
    else
      var name := Identifier(Cur(toks, e1.c), Cur(toks, e1.c).literal);
      var e2 := ExpectPeek(toks, e1.c, Assign);
      if !e2.flag then Parsed(None, e2.c)
      else
        var v := ParseExpression(toks, Next(toks, e2.c), LOWEST);
        if v.node.None? then Parsed(None, v.c)
        else
          var s := CheckSemicolonError(toks, v.c);
          if s.flag then Parsed(None, s.c) else Parsed(Some(LetStatement(tok, name, v.node.value)), s.c)
  }

  /** `parseReturnStatement`: `return <expression>;`, the `;` required. */
  function ParseReturnStatement(toks: seq<Token>, c: Cursor): (r: Parsed)
    requires Valid(toks, c) && Cur(toks, c).kind == Return
    ensures Advanced(toks, c, r.c)
    ensures r.node.None? ==> |c.errors| < |r.c.errors|
    ensures r.node.Some? ==> r.node.value.ReturnStatement? && Cur(toks, r.c).kind == Semicolon
    decreases |toks| - c.pos, 14
  {
    var tok := Cur(toks, c);
    var v := ParseExpression(toks, Next(toks, c), LOWEST);
    if v.node.None? then Parsed(None, v.c)
    else
      var s := CheckSemicolonError(toks, v.c);
      if s.flag then Parsed(None, s.c) else Parsed(Some(ReturnStatement(tok, v.node.value)), s.c)
  }

  /** `parseWhileStatement`: `while (<condition>) { ... }`, trailing `;`s skipped. */
  function ParseWhileStatement(toks: seq<Token>, c: Cursor): (r: Parsed)
    requires Valid(toks, c)
    ensures Advanced(toks, c, r.c)
    ensures r.node.None? ==> |c.errors| < |r.c.errors|
    ensures r.node.Some? ==> r.node.value.WhileStatement?
    decreases |toks| - c.pos, 14
  {
    var e1 := ExpectPeek(toks, c, LParen);
    if !e1.flag then Parsed(None, e1.c) else WhileCondition(toks, e1.c, Cur(toks, c))
  }

  /** The condition of `parseWhileStatement`, read after its `(`. */
  function WhileCondition(toks: seq<Token>, c: Cursor, tok: Token): (r: Parsed)
    requires Valid(toks, c)
    ensures Advanced(toks, c, r.c)
    ensures r.node.None? ==> |c.errors| < |r.c.errors|
    ensures r.node.Some? ==> r.node.value.WhileStatement?
    decreases |toks| - c.pos, 14
  {
    var cond := ParseExpression(toks, Next(toks, c), LOWEST);
    if cond.node.None? then Parsed(None, cond.c) else WhileBody(toks, cond.c, tok, cond.node.value)
  }

  /** The rest of `parseWhileStatement`, on the last token of the condition: `)`, `{` and the body. */
  function WhileBody(toks: seq<Token>, c: Cursor, tok: Token, condition: Node): (r: Parsed)
    requires Valid(toks, c)
    ensures Advanced(toks, c, r.c)
    ensures r.node.None? ==> |c.errors| < |r.c.errors|
    ensures r.node.Some? ==> r.node.value.WhileStatement?
    decreases |toks| - c.pos, 13
  {
    var e2 := ExpectPeek(toks, c, RParen);
    if !e2.flag then Parsed(None, e2.c)
    else
      var e3 := ExpectPeek(toks, e2.c, LBrace);
      if !e3.flag then Parsed(None, e3.c)
      else
        var body := ParseBlockStatement(toks, e3.c);
        Parsed(Some(WhileStatement(tok, condition, body.node.value)), SkipSemicolon(toks, body.c))
  }

  /**
   * `parseForStatement`: `for (<init>; <condition>; <update>) { ... }` with
   * init and update optional; an init that fails to parse is kept as absent.
   */
  function ParseForStatement(toks: seq<Token>, c: Cursor): (r: Parsed)
    requires Valid(toks, c)
    ensures Advanced(toks, c, r.c)
    ensures r.node.None? ==> |c.errors| < |r.c.errors|
    ensures r.node.Some? ==> r.node.value.ForStatement?
    decreases |toks| - c.pos, 14
  {
    var tok := Cur(toks, c);
    var e1 := ExpectPeek(toks, c, LParen);
    if !e1.flag then Parsed(None, e1.c)
    else
      var c2 := Next(toks, e1.c);
      var init := if Cur(toks, c2).kind != Semicolon then ParseExpression(toks, c2, LOWEST) else Parsed(None, c2);
      var e2 := if Cur(toks, c2).kind != Semicolon then ExpectPeek(toks, init.c, Semicolon) else Checked(true, c2);
      if !e2.flag then Parsed(None, e2.c) else ForCondition(toks, e2.c, tok, init.node)
  }

  /** `parseForStatement` from the `;` after the init: the required condition and its `;`. */
  function ForCondition(toks: seq<Token>, c: Cursor, tok: Token, init: Option<Node>): (r: Parsed)
    requires Valid(toks, c)
    ensures Advanced(toks, c, r.c)
    ensures r.node.None? ==> |c.errors| < |r.c.errors|
    ensures r.node.Some? ==> r.node.value.ForStatement?
    decreases |toks| - c.pos, 24
  {
    var cond := ParseExpression(toks, Next(toks, c), LOWEST);
    if cond.node.None? then Parsed(None, cond.c)
    else
      var e3 := ExpectPeek(toks, cond.c, Semicolon);
      if !e3.flag then Parsed(None, e3.c) else ForUpdate(toks, e3.c, tok, init, cond.node.value)
  }

  /** `parseForStatement` from the `;` after the condition: the optional update, `)`, and the body. */
  function ForUpdate(toks: seq<Token>, c: Cursor, tok: Token, init: Option<Node>, condition: Node): (r: Parsed)
    requires Valid(toks, c)
    ensures Advanced(toks, c, r.c)
    ensures r.node.None? ==> |c.errors| < |r.c.errors|
    ensures r.node.Some? ==> r.node.value.ForStatement?
    decreases |toks| - c.pos, 22
  {
    var c4 := Next(toks, c);
    var update := if Cur(toks, c4).kind != RParen then ParseExpression(toks, c4, LOWEST) else Parsed(None, c4);
    var e4 := if Cur(toks, c4).kind != RParen then ExpectPeek(toks, update.c, RParen) else Checked(true, c4);
    if !e4.flag then Parsed(None, e4.c)
    else
      var body := ParseBlockStatement(toks, Next(toks, e4.c));
      Parsed(Some(ForStatement(tok, init, condition, update.node, body.node.value)), body.c)
  }

  /**
   * `parseExpressionStatement`: an expression and its `;`, which may be
   * missing when the expression's token literal is `if` or `fn`.
   */
  function ParseExpressionStatement(toks: seq<Token>, c: Cursor): (r: Parsed)
    requires Valid(toks, c)
    ensures Advanced(toks, c, r.c)
    ensures r.node.None? ==> |c.errors| < |r.c.errors|
    ensures r.node.Some? ==> r.node.value.ExpressionStatement? && IsExpression(r.node.value.expression)
    decreases |toks| - c.pos, 14
  {
    var tok := Cur(toks, c);
    var e := ParseExpression(toks, c, LOWEST);
    if e.node.None? then Parsed(None, e.c)
    else
      var stmt := ExpressionStatement(tok, e.node.value);
      if TokenLiteral(e.node.value) in {"if", "fn"} then Parsed(Some(stmt), SkipSemicolon(toks, e.c))
      else
        var s := CheckSemicolonError(toks, e.c);
        if s.flag then Parsed(None, s.c) else Parsed(Some(stmt), s.c)
  }

  /** `parseBlockStatement`: statements up to `}` or EOF, the failed ones dropped. */
  function ParseBlockStatement(toks: seq<Token>, c: Cursor): (r: Parsed)
    requires Valid(toks, c)
    ensures Advanced(toks, c, r.c)
    ensures r.node.Some? && r.node.value.BlockStatement? && r.node.value.token == Cur(toks, c)
    ensures forall s :: s in r.node.value.statements ==> IsStatement(s)
    ensures Cur(toks, r.c).kind in {RBrace, EOF}
    decreases |toks| - c.pos, 20
  {
    var b := BlockLoop(toks, Next(toks, c), []);
    Parsed(Some(BlockStatement(Cur(toks, c), b.items.value)), b.c)
  }

  /** The `while` loop of `parseBlockStatement`, from the statements kept so far. */
  function BlockLoop(toks: seq<Token>, c: Cursor, acc: seq<Node>): (r: ParsedList)
    requires Valid(toks, c)
    requires forall s :: s in acc ==> IsStatement(s)
    ensures Advanced(toks, c, r.c)
    ensures r.items.Some? && acc <= r.items.value
    ensures forall s :: s in r.items.value ==> IsStatement(s)
    ensures Cur(toks, r.c).kind in {RBrace, EOF}
    decreases |toks| - c.pos, 18
  {
    if Cur(toks, c).kind in {RBrace, EOF} then ParsedList(Some(acc), c)
    else
      var s := ParseStatement(toks, c);
      var acc' := if s.node.Some? then acc + [s.node.value] else acc;
      BlockLoop(toks, Next(toks, s.c), acc')
  }

  /**
   * `parseExpression(precedence)`: the prefix rule of the current token,
   * then infix rules while the next token binds tighter than `precedence`.
   */
  function ParseExpression(toks: seq<Token>, c: Cursor, precedence: nat): (r: Parsed)
    requires Valid(toks, c) && precedence >= LOWEST
    ensures Advanced(toks, c, r.c)
    ensures r.node.None? ==> |c.errors| < |r.c.errors|
    ensures r.node.Some? ==> IsExpression(r.node.value)
    ensures !HasPrefixRule(Cur(toks, c).kind) ==> r == Parsed(None, NoPrefixError(toks, c))
    ensures HasPrefixRule(Cur(toks, c).kind) ==>
      Peek(toks, r.c).kind == Semicolon || Precedence(Peek(toks, r.c).kind) <= precedence
    decreases |toks| - c.pos, 12
  {
    if !HasPrefixRule(Cur(toks, c).kind) then Parsed(None, NoPrefixError(toks, c))
    else
      var left := ParsePrefix(toks, c);
      ExpressionLoop(toks, left.c, precedence, left.node)
  }

  /** The `while` loop of `parseExpression`, folding infix rules into `left`. */
  function ExpressionLoop(toks: seq<Token>, c: Cursor, precedence: nat, left: Option<Node>): (r: Parsed)
    requires Valid(toks, c) && precedence >= LOWEST
    requires left.Some? ==> IsExpression(left.value)
    ensures Advanced(toks, c, r.c)
    ensures r.node.None? ==> left.None? || |c.errors| < |r.c.errors|
    ensures r.node.Some? ==> IsExpression(r.node.value)
    ensures Peek(toks, r.c).kind == Semicolon || Precedence(Peek(toks, r.c).kind) <= precedence
    decreases |toks| - c.pos, 8
  {
    var p := Peek(toks, c).kind;
    if p == Semicolon || precedence >= Precedence(p) then Parsed(left, c)
    else if !HasInfixRule(p) then Parsed(left, c)
    else
      var e := ParseInfix(toks, Next(toks, c), left);
      ExpressionLoop(toks, e.c, precedence, e.node)
  }

  /** The registered prefix rules. */
  function ParsePrefix(toks: seq<Token>, c: Cursor): (r: Parsed)
    requires Valid(toks, c) && HasPrefixRule(Cur(toks, c).kind)
    ensures Advanced(toks, c, r.c)
    ensures r.node.None? ==> |c.errors| < |r.c.errors|
    ensures r.node.Some? ==> IsExpression(r.node.value)
    decreases |toks| - c.pos, 10
  {
    var k := Cur(toks, c).kind;
    if k == True || k == False || k == Ident || k == Int || k == Float || k == Str || k == Illegal then ParseLiteralPrefix(toks, c)
    else if k == Function || k == Macro || k == LBracket || k == LBrace then ParseCompositeLiteral(toks, c)
    else ParseCompoundExpression(toks, c)
  }

  /** The prefix rules for a single token: booleans, identifiers, numbers, strings and unterminated strings. */
  function ParseLiteralPrefix(toks: seq<Token>, c: Cursor): (r: Parsed)
    requires Valid(toks, c) && Cur(toks, c).kind in {True, False, Ident, Int, Float, Str, Illegal}
    ensures Advanced(toks, c, r.c)
    ensures r.node.None? ==> |c.errors| < |r.c.errors|
    ensures r.node.Some? ==> IsExpression(r.node.value)
  {
    var t := Cur(toks, c);
    if t.kind == True then Parsed(Some(BooleanLiteral(t, true)), c)
    else if t.kind == False then Parsed(Some(BooleanLiteral(t, false)), c)
    else if t.kind == Ident then Parsed(Some(Identifier(t, t.literal)), c)
    else if t.kind == Int then ParseIntegerLiteral(toks, c)
    else if t.kind == Float then ParseFloatLiteral(toks, c)
    else if t.kind == Str then Parsed(Some(StringLiteral(t, t.literal)), c)
    else Parsed(Some(StringLiteral(t, t.literal)), PeekError(toks, c, "\""))
  }

  /** The prefix rules for function, macro, array and hash literals. */
  function ParseCompositeLiteral(toks: seq<Token>, c: Cursor): (r: Parsed)
    requires Valid(toks, c) && Cur(toks, c).kind in {Function, Macro, LBracket, LBrace}
    ensures Advanced(toks, c, r.c)
    ensures r.node.None? ==> |c.errors| < |r.c.errors|
    ensures r.node.Some? ==> IsExpression(r.node.value)
    decreases |toks| - c.pos, 9
  {
    var k := Cur(toks, c).kind;
    if k == Function then ParseFunctionLiteral(toks, c)
    else if k == Macro then ParseMacroLiteral(toks, c)
    else if k == LBracket then ParseArrayLiteral(toks, c)
    else ParseHashLiteral(toks, c)
  }

  /** The prefix rules for grouping, `if`, and the prefix operators `!` and `-`. */
  function ParseCompoundExpression(toks: seq<Token>, c: Cursor): (r: Parsed)
    requires Valid(toks, c) && Cur(toks, c).kind in {LParen, If, Bang, Minus}
    ensures Advanced(toks, c, r.c)
    ensures r.node.None? ==> |c.errors| < |r.c.errors|
    ensures r.node.Some? ==> IsExpression(r.node.value)
    decreases |toks| - c.pos, 9
  {
    var k := Cur(toks, c).kind;
    if k == LParen then ParseGroupedExpression(toks, c)
    else if k == If then ParseIfExpression(toks, c)
    else ParsePrefixExpression(toks, c)
  }

  /** `parsePrefixExpression`: the operator, then an operand parsed at PREFIX. */
  function ParsePrefixExpression(toks: seq<Token>, c: Cursor): (r: Parsed)
    requires Valid(toks, c) && Cur(toks, c).kind != EOF
    ensures Advanced(toks, c, r.c)
    ensures r.node.None? ==> |c.errors| < |r.c.errors|
    ensures r.node.Some? ==> r.node.value.PrefixExpression? && r.node.value.operator == Cur(toks, c).literal
    decreases |toks| - c.pos, 8
  {
    var tok := Cur(toks, c);
    var right := ParseExpression(toks, Next(toks, c), PREFIX);
    if right.node.None? then Parsed(None, right.c) else Parsed(Some(PrefixExpression(tok, tok.literal, right.node.value)), right.c)
  }

  /** `parseGroupedExpression`: `( <expression> )`; the inner expression itself, no node of its own. */
  function ParseGroupedExpression(toks: seq<Token>, c: Cursor): (r: Parsed)
    requires Valid(toks, c) && Cur(toks, c).kind == LParen
    ensures Advanced(toks, c, r.c)
    ensures r.node.None? ==> |c.errors| < |r.c.errors|
    ensures r.node.Some? ==> IsExpression(r.node.value) && Cur(toks, r.c).kind == RParen
    decreases |toks| - c.pos, 8
  {
    var e := ParseExpression(toks, Next(toks, c), LOWEST);
    var close := ExpectPeek(toks, e.c, RParen);
    if !close.flag then Parsed(None, close.c) else Parsed(e.node, close.c)
  }

  /** `parseIfExpression`: `if (<condition>) { ... }` and an optional `else { ... }`. */
  function ParseIfExpression(toks: seq<Token>, c: Cursor): (r: Parsed)
    requires Valid(toks, c)
    ensures Advanced(toks, c, r.c)
    ensures r.node.None? ==> |c.errors| < |r.c.errors|
    ensures r.node.Some? ==> r.node.value.IfExpression? && Cur(toks, r.c).kind in {RBrace, EOF}
    decreases |toks| - c.pos, 8
  {
    var tok := Cur(toks, c);
    var e1 := ExpectPeek(toks, c, LParen);
    if !e1.flag then Parsed(None, e1.c)
    else
      var cond := ParseExpression(toks, Next(toks, e1.c), LOWEST);
      if cond.node.None? then Parsed(None, cond.c)
      else
        var e2 := ExpectPeek(toks, cond.c, RParen);
        if !e2.flag then Parsed(None, e2.c)
        else
          var e3 := ExpectPeek(toks, e2.c, LBrace);
          if !e3.flag then Parsed(None, e3.c) else IfBranches(toks, e3.c, tok, cond.node.value)
  }

  /** The blocks of `parseIfExpression`, entered on the `{` of the consequence; the alternative is set after construction. */
  function IfBranches(toks: seq<Token>, c: Cursor, tok: Token, condition: Node): (r: Parsed)
    requires Valid(toks, c)
    ensures Advanced(toks, c, r.c)
    ensures r.node.None? ==> |c.errors| < |r.c.errors|
    ensures r.node.Some? ==> r.node.value.IfExpression? && Cur(toks, r.c).kind in {RBrace, EOF}
    decreases |toks| - c.pos, 22
  {
    var cons := ParseBlockStatement(toks, c);
    if Peek(toks, cons.c).kind == Else then
      var e4 := ExpectPeek(toks, Next(toks, cons.c), LBrace);
      if !e4.flag then Parsed(None, e4.c)
      else
        var alt := ParseBlockStatement(toks, e4.c);
        Parsed(Some(IfExpression(tok, condition, cons.node.value, Some(alt.node.value))), alt.c)
    else Parsed(Some(IfExpression(tok, condition, cons.node.value, None)), cons.c)
  }

  /** `parseFunctionLiteral`: `fn (<parameters>) { ... }`. */
  function ParseFunctionLiteral(toks: seq<Token>, c: Cursor): (r: Parsed)
    requires Valid(toks, c)
    ensures Advanced(toks, c, r.c)
    ensures r.node.None? ==> |c.errors| < |r.c.errors|
    ensures r.node.Some? ==> r.node.value.FunctionLiteral? && Cur(toks, r.c).kind in {RBrace, EOF}
    decreases |toks| - c.pos, 8
  {
    var e1 := ExpectPeek(toks, c, LParen);
    if !e1.flag then Parsed(None, e1.c) else FunctionLiteralRest(toks, e1.c, Cur(toks, c))
  }

  /** `parseMacroLiteral`: `macro (<parameters>) { ... }`. */
  function ParseMacroLiteral(toks: seq<Token>, c: Cursor): (r: Parsed)
    requires Valid(toks, c)
    ensures Advanced(toks, c, r.c)
    ensures r.node.None? ==> |c.errors| < |r.c.errors|
    ensures r.node.Some? ==> r.node.value.MacroLiteral? && Cur(toks, r.c).kind in {RBrace, EOF}
    decreases |toks| - c.pos, 8
  {
    var e1 := ExpectPeek(toks, c, LParen);
    if !e1.flag then Parsed(None, e1.c) else MacroLiteralRest(toks, e1.c, Cur(toks, c))
  }

  /** The rest of `parseFunctionLiteral`, entered on `(`: the parameters, `{` and the body; `tok` is the `fn` token. */
  function FunctionLiteralRest(toks: seq<Token>, c: Cursor, tok: Token): (r: Parsed)
    requires Valid(toks, c)
    ensures Advanced(toks, c, r.c)
    ensures r.node.None? ==> |c.errors| < |r.c.errors|
    ensures r.node.Some? ==> r.node.value.FunctionLiteral? && Cur(toks, r.c).kind in {RBrace, EOF}
    decreases |toks| - c.pos, 8
  {
    var ps := ParseFunctionParameters(toks, c);
    if ps.params.None? then Parsed(None, ps.c)
    else
      var e2 := ExpectPeek(toks, ps.c, LBrace);
      if !e2.flag then Parsed(None, e2.c)
      else
        var body := ParseBlockStatement(toks, e2.c);
        Parsed(Some(FunctionLiteral(tok, ps.params.value, body.node.value)), body.c)
  }

  /** The rest of `parseMacroLiteral`, entered on `(`; `tok` is the `macro` token. */
  function MacroLiteralRest(toks: seq<Token>, c: Cursor, tok: Token): (r: Parsed)
    requires Valid(toks, c)
    ensures Advanced(toks, c, r.c)
    ensures r.node.None? ==> |c.errors| < |r.c.errors|
    ensures r.node.Some? ==> r.node.value.MacroLiteral? && Cur(toks, r.c).kind in {RBrace, EOF}
    decreases |toks| - c.pos, 8
  {
    var ps := ParseFunctionParameters(toks, c);
    if ps.params.None? then Parsed(None, ps.c)
    else
      var e2 := ExpectPeek(toks, ps.c, LBrace);
      if !e2.flag then Parsed(None, e2.c)
      else
        var body := ParseBlockStatement(toks, e2.c);
        Parsed(Some(MacroLiteral(tok, ps.params.value, body.node.value)), body.c)
  }

  /** `parseArrayLiteral`: `[` elements `]`. */
  function ParseArrayLiteral(toks: seq<Token>, c: Cursor): (r: Parsed)
    requires Valid(toks, c) && Cur(toks, c).kind != EOF
    ensures Advanced(toks, c, r.c)
    ensures r.node.None? ==> |c.errors| < |r.c.errors|
    ensures r.node.Some? ==> r.node.value.ArrayLiteral? && Cur(toks, r.c).kind == RBracket
    decreases |toks| - c.pos, 8
  {
    var l := ParseExpressionList(toks, c, RBracket);
    if l.items.None? then Parsed(None, l.c) else Parsed(Some(ArrayLiteral(Cur(toks, c), l.items.value)), l.c)
  }

  /**
   * `parseExpressionList(end)`, entered on the opening token: `[]` when
   * `end` follows at once, otherwise comma-separated expressions and `end`;
   * nothing when an element fails or `end` is missing.
   */
  function ParseExpressionList(toks: seq<Token>, c: Cursor, end: Kind): (r: ParsedList)
    requires Valid(toks, c) && Cur(toks, c).kind != EOF
    ensures Advanced(toks, c, r.c)
    ensures r.items.None? ==> |c.errors| < |r.c.errors|
    ensures Peek(toks, c).kind == end ==> r == ParsedList(Some([]), Next(toks, c))
    ensures Peek(toks, c).kind != end && ParseExpression(toks, Next(toks, c), LOWEST).node.None? ==> r.items.None?
    ensures r.items.Some? ==> Cur(toks, r.c).kind == end && forall e :: e in r.items.value ==> IsExpression(e)
    decreases |toks| - c.pos, 6
  {
    if Peek(toks, c).kind == end then ParsedList(Some([]), Next(toks, c))
    else
      var e := ParseExpression(toks, Next(toks, c), LOWEST);
      if e.node.None? then ParsedList(None, e.c)
      else ListLoop(toks, e.c, end, [e.node.value])
  }

  /** The `while` loop of `parseExpressionList`, from the elements read so far. */
  function ListLoop(toks: seq<Token>, c: Cursor, end: Kind, acc: seq<Node>): (r: ParsedList)
    requires Valid(toks, c)
    requires forall e :: e in acc ==> IsExpression(e)
    ensures Advanced(toks, c, r.c)
    ensures r.items.None? ==> |c.errors| < |r.c.errors|
    ensures r.items.Some? ==> Cur(toks, r.c).kind == end && acc <= r.items.value && forall e :: e in r.items.value ==> IsExpression(e)
    ensures Peek(toks, c).kind == Comma && ParseExpression(toks, Next(toks, Next(toks, c)), LOWEST).node.None? ==> r.items.None?
    ensures Peek(toks, c).kind != Comma && Peek(toks, c).kind != end ==> r.items.None?
    decreases |toks| - c.pos, 4
  {
    if Peek(toks, c).kind == Comma then
      var e := ParseExpression(toks, Next(toks, Next(toks, c)), LOWEST);
      if e.node.None? then ParsedList(None, e.c)
      else ListLoop(toks, e.c, end, acc + [e.node.value])
    else
      var close := ExpectPeek(toks, c, end);
      if !close.flag then ParsedList(None, close.c) else ParsedList(Some(acc), close.c)
  }

  /** `parseHashLiteral`: `{` `key : value` pairs separated by commas `}`, in the order written. */
  function ParseHashLiteral(toks: seq<Token>, c: Cursor): (r: Parsed)
    requires Valid(toks, c) && Cur(toks, c).kind == LBrace
    ensures Advanced(toks, c, r.c)
    ensures r.node.None? ==> |c.errors| < |r.c.errors|
    ensures r.node.Some? ==> r.node.value.HashLiteral? && Cur(toks, r.c).kind == RBrace
    decreases |toks| - c.pos, 8
  {
    HashLoop(toks, c, Cur(toks, c), [])
  }

  /** The `while` loop of `parseHashLiteral`, from the pairs read so far. */
  function HashLoop(toks: seq<Token>, c: Cursor, tok: Token, acc: seq<(Node, Node)>): (r: Parsed)
    requires Valid(toks, c) && c.pos < |toks| - 1
    ensures Advanced(toks, c, r.c)
    ensures r.node.None? ==> |c.errors| < |r.c.errors|
    ensures r.node.Some? ==> r.node.value.HashLiteral? && r.node.value.token == tok && acc <= r.node.value.pairs
    ensures r.node.Some? ==> Cur(toks, r.c).kind == RBrace
    decreases |toks| - c.pos, 6
  {
    if Peek(toks, c).kind == RBrace then
      var close := ExpectPeek(toks, c, RBrace);
      if !close.flag then Parsed(None, close.c) else Parsed(Some(HashLiteral(tok, acc)), close.c)
    else
      var key := ParseExpression(toks, Next(toks, c), LOWEST);
      var colon := ExpectPeek(toks, key.c, Colon);
      if !colon.flag || key.node.None? then Parsed(None, colon.c)
      else HashValue(toks, colon.c, tok, acc, key.node.value)
  }

  /** The rest of one iteration of `parseHashLiteral`, entered on the `:` after `key`. */
  function HashValue(toks: seq<Token>, c: Cursor, tok: Token, acc: seq<(Node, Node)>, key: Node): (r: Parsed)
    requires Valid(toks, c) && c.pos < |toks| - 1
    ensures Advanced(toks, c, r.c)
    ensures r.node.None? ==> |c.errors| < |r.c.errors|
    ensures r.node.Some? ==> r.node.value.HashLiteral? && r.node.value.token == tok && acc < r.node.value.pairs && r.node.value.pairs[|acc|].0 == key
    ensures r.node.Some? ==> Cur(toks, r.c).kind == RBrace
    decreases |toks| - c.pos, 4
  {
    var value := ParseExpression(toks, Next(toks, c), LOWEST);
    if value.node.None? then Parsed(None, value.c)
    else
      HashSeparator(toks, value.c, tok, acc + [(key, value.node.value)])
  }

  /** The end of one iteration of `parseHashLiteral`, on the last token of a value: `,` unless `}` follows. */
  function HashSeparator(toks: seq<Token>, c: Cursor, tok: Token, acc: seq<(Node, Node)>): (r: Parsed)
    requires Valid(toks, c)
    ensures Advanced(toks, c, r.c)
    ensures r.node.None? ==> |c.errors| < |r.c.errors|
    ensures r.node.Some? ==> r.node.value.HashLiteral? && r.node.value.token == tok && acc <= r.node.value.pairs
    ensures r.node.Some? ==> Cur(toks, r.c).kind == RBrace
    decreases |toks| - c.pos, 8
  {
    if Peek(toks, c).kind == RBrace then HashLoop(toks, c, tok, acc)
    else
      var comma := ExpectPeek(toks, c, Comma);
      if !comma.flag then Parsed(None, comma.c) else HashLoop(toks, comma.c, tok, acc)
  }

  /** The registered infix rules, entered with the operator as the current token. */
  function ParseInfix(toks: seq<Token>, c: Cursor, left: Option<Node>): (r: Parsed)
    requires Valid(toks, c) && HasInfixRule(Cur(toks, c).kind)
    ensures Advanced(toks, c, r.c)
    ensures r.node.None? ==> left.None? || |c.errors| < |r.c.errors|
    ensures r.node.Some? ==> IsExpression(r.node.value) && left.Some?
    decreases |toks| - c.pos, 14
  {
    if Cur(toks, c).kind == LBracket then ParseIndexExpression(toks, c, left)
    else ParseCallOrOther(toks, c, left)
  }

  /** The infix rules other than indexing: calls, `=`, and the binary operators. */
  function ParseCallOrOther(toks: seq<Token>, c: Cursor, left: Option<Node>): (r: Parsed)
    requires Valid(toks, c) && Cur(toks, c).kind != EOF
    ensures Advanced(toks, c, r.c)
    ensures r.node.None? ==> left.None? || |c.errors| < |r.c.errors|
    ensures r.node.Some? ==> IsExpression(r.node.value) && left.Some?
    decreases |toks| - c.pos, 12
  {
    if Cur(toks, c).kind == LParen then ParseCallExpression(toks, c, left)
    else ParseAssignOrInfix(toks, c, left)
  }

  /** The infix rules other than indexing and calls: `=`, and the binary operators. */
  function ParseAssignOrInfix(toks: seq<Token>, c: Cursor, left: Option<Node>): (r: Parsed)
    requires Valid(toks, c) && Cur(toks, c).kind != EOF
    ensures Advanced(toks, c, r.c)
    ensures r.node.None? ==> left.None? || |c.errors| < |r.c.errors|
    ensures r.node.Some? ==> IsExpression(r.node.value) && left.Some?
    decreases |toks| - c.pos, 10
  {
    if Cur(toks, c).kind == Assign then ParseAssignExpression(toks, c, left)
    else ParseInfixExpression(toks, c, left)
  }

  /** `parseInfixExpression`: the right operand is parsed at the operator's own precedence. */
  function ParseInfixExpression(toks: seq<Token>, c: Cursor, left: Option<Node>): (r: Parsed)
    requires Valid(toks, c) && Cur(toks, c).kind != EOF
    ensures Advanced(toks, c, r.c)
    ensures r.node.None? ==> left.None? || |c.errors| < |r.c.errors|
    ensures r.node.Some? ==>
      (left.Some? && r.node.value.InfixExpression? && r.node.value.left == left.value && r.node.value.operator == Cur(toks, c).literal)
    decreases |toks| - c.pos, 8
  {
    var tok := Cur(toks, c);
    var right := ParseExpression(toks, Next(toks, c), Precedence(tok.kind));
    if right.node.None? || left.None? then Parsed(None, right.c)
    else Parsed(Some(InfixExpression(tok, left.value, tok.literal, right.node.value)), right.c)
  }

  /** `parseIndexExpression`: `<left>[<index>]`. */
  function ParseIndexExpression(toks: seq<Token>, c: Cursor, left: Option<Node>): (r: Parsed)
    requires Valid(toks, c) && Cur(toks, c).kind != EOF
    ensures Advanced(toks, c, r.c)
    ensures r.node.None? ==> left.None? || |c.errors| < |r.c.errors|
    ensures r.node.Some? ==>
      (left.Some? && r.node.value.IndexExpression? && r.node.value.left == left.value && Cur(toks, r.c).kind == RBracket)
    decreases |toks| - c.pos, 8
  {
    var tok := Cur(toks, c);
    var idx := ParseExpression(toks, Next(toks, c), LOWEST);
    var close := ExpectPeek(toks, idx.c, RBracket);
    if !close.flag || left.None? || idx.node.None? then Parsed(None, close.c)
    else Parsed(Some(IndexExpression(tok, left.value, idx.node.value)), close.c)
  }

  /** `parseCallExpression`: `<callee>(<arguments>)`. */
  function ParseCallExpression(toks: seq<Token>, c: Cursor, left: Option<Node>): (r: Parsed)
    requires Valid(toks, c) && Cur(toks, c).kind != EOF
    ensures Advanced(toks, c, r.c)
    ensures r.node.None? ==> left.None? || |c.errors| < |r.c.errors|
    ensures r.node.Some? ==>
      (left.Some? && r.node.value.CallExpression? && r.node.value.callee == left.value && Cur(toks, r.c).kind == RParen)
    decreases |toks| - c.pos, 8
  {
    var args := ParseExpressionList(toks, c, RParen);
    if args.items.None? || left.None? then Parsed(None, args.c)
    else Parsed(Some(CallExpression(Cur(toks, c), left.value, args.items.value)), args.c)
  }

  /** `parseAssignExpression`: `<identifier> = <expression>`; any other left side is an error on the line of `=`. */
  function ParseAssignExpression(toks: seq<Token>, c: Cursor, left: Option<Node>): (r: Parsed)
    requires Valid(toks, c) && Cur(toks, c).kind != EOF
    ensures Advanced(toks, c, r.c)
    ensures r.node.None? ==> left.None? || |c.errors| < |r.c.errors|
    ensures r.node.Some? ==>
      (left.Some? && left.value.Identifier? && r.node.value.AssignExpression? && r.node.value.token == Cur(toks, c) && r.node.value.name == left.value)
    ensures !(left.Some? && left.value.Identifier?) ==>
      r == Parsed(None, Cursor(c.pos, c.errors + [ParseError("expected valid identifier. got=" + (if left.Some? then ToString(left.value) else "undefined"), Cur(toks, c).line)]))
    decreases |toks| - c.pos, 8
  {
    if !(left.Some? && left.value.Identifier?) then
      Parsed(None, Cursor(c.pos, c.errors + [ParseError("expected valid identifier. got=" + (if left.Some? then ToString(left.value) else "undefined"), Cur(toks, c).line)]))
    else
      var tok := Cur(toks, c);
      var v := ParseExpression(toks, Next(toks, c), LOWEST);
      if v.node.None? then Parsed(None, v.c) else Parsed(Some(AssignExpression(tok, left.value, v.node.value)), v.c)
  }

  /** `parseProgram`: statements up to EOF; a failed statement is dropped and parsing goes on. */
  function ParseProgram(toks: seq<Token>): (r: (Node, seq<ParseError>))
    requires WellFormed(toks)
    ensures r.0.Program? && forall s :: s in r.0.statements ==> IsStatement(s)
  {
    var l := ProgramLoop(toks, Cursor(0, []), []);
    (Program(l.items.value), l.c.errors)
  }

  /** The `while` loop of `parseProgram`, from the statements kept so far. */
  function ProgramLoop(toks: seq<Token>, c: Cursor, acc: seq<Node>): (r: ParsedList)
    requires Valid(toks, c)
    requires forall s :: s in acc ==> IsStatement(s)
    ensures Advanced(toks, c, r.c)
    ensures Cur(toks, r.c).kind == EOF
    ensures r.items.Some? && acc <= r.items.value && forall s :: s in r.items.value ==> IsStatement(s)
    decreases |toks| - c.pos
  {
    if Cur(toks, c).kind == EOF then ParsedList(Some(acc), c)
    else
      var s := ParseStatement(toks, c);
      var acc' := if s.node.Some? then acc + [s.node.value] else acc;
      ProgramLoop(toks, Next(toks, s.c), acc')
  }
}
