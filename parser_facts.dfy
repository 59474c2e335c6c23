/**
 * Properties of the Pratt parser's precedence climbing: which operators
 * group first, and how a parse stops.
 */
module ParserFacts {
  import opened Wrappers
  import opened Tokens
  import opened Ast
  import opened Parsing

  /** The binary operators `parseInfixExpression` handles. */
  predicate IsBinaryOperator(k: Kind)
  {
    k in {Plus, Minus, Slash, Asterisk, Eq, NotEq, Lt, Gt, Lte, Gte}
  }

  /** A token binds as an infix operator (precedence above LOWEST) exactly when an infix rule is registered for it. */
  lemma InfixRulesMatchPrecedences(k: Kind)
    ensures Precedence(k) > LOWEST <==> HasInfixRule(k)
    ensures IsBinaryOperator(k) ==> HasInfixRule(k) && Precedence(k) < PREFIX
  {
  }

  function Ident(t: Token): Node
  {
    Identifier(t, t.literal)
  }

  /** An identifier followed by a token that does not bind tighter than `precedence` is the whole expression. */
  lemma IdentifierAlone(toks: seq<Token>, c: Cursor, precedence: nat)
    requires Valid(toks, c) && precedence >= LOWEST && Cur(toks, c).kind == Tokens.Ident
    requires Precedence(Peek(toks, c).kind) <= precedence
    ensures ParseExpression(toks, c, precedence) == Parsed(Some(Ident(Cur(toks, c))), c)
  {
    assert ParsePrefix(toks, c) == Parsed(Some(Ident(Cur(toks, c))), c);
  }

  /** The expression loop stops at once when the next token does not bind tighter than `precedence`. */
  lemma LoopStops(toks: seq<Token>, c: Cursor, precedence: nat, left: Option<Node>)
    requires Valid(toks, c) && precedence >= LOWEST && (left.Some? ==> IsExpression(left.value))
    requires Precedence(Peek(toks, c).kind) <= precedence
    ensures ExpressionLoop(toks, c, precedence, left) == Parsed(left, c)
  {
  }

  /** One round of the expression loop: the next token is an operator binding tighter than `precedence`. */
  lemma LoopFolds(toks: seq<Token>, c: Cursor, precedence: nat, left: Option<Node>)
    requires Valid(toks, c) && precedence >= LOWEST && (left.Some? ==> IsExpression(left.value))
    requires IsBinaryOperator(Peek(toks, c).kind) && Precedence(Peek(toks, c).kind) > precedence
    ensures var e := ParseInfix(toks, Next(toks, c), left);
      ExpressionLoop(toks, c, precedence, left) == ExpressionLoop(toks, e.c, precedence, e.node)
  {
  }

  /** A binary operator is handled by `parseInfixExpression`. */
  lemma BinaryInfix(toks: seq<Token>, c: Cursor, left: Option<Node>)
    requires Valid(toks, c) && IsBinaryOperator(Cur(toks, c).kind)
    ensures ParseInfix(toks, c, left) == ParseInfixExpression(toks, c, left)
  {
    assert ParseCallOrOther(toks, c, left) == ParseAssignOrInfix(toks, c, left) == ParseInfixExpression(toks, c, left);
  }

  /**
   * A binary operator followed by an identifier that the token after does
   * not out-bind takes that identifier as its right operand.
   */
  lemma InfixWithIdentifier(toks: seq<Token>, c: Cursor, left: Node)
    requires Valid(toks, c) && c.pos + 2 < |toks| && IsBinaryOperator(Cur(toks, c).kind) && toks[c.pos + 1].kind == Tokens.Ident
    requires Precedence(toks[c.pos + 2].kind) <= Precedence(Cur(toks, c).kind)
    ensures ParseInfix(toks, c, Some(left)) ==
      Parsed(Some(InfixExpression(Cur(toks, c), left, Cur(toks, c).literal, Ident(toks[c.pos + 1]))), Cursor(c.pos + 1, c.errors))
  {
    var c1 := Cursor(c.pos + 1, c.errors);
    IdentifierAlone(toks, c1, Precedence(Cur(toks, c).kind));
    BinaryInfix(toks, c, Some(left));
  }

  /** An expression starting with an identifier continues with the expression loop from that identifier. */
  lemma IdentifierThenLoop(toks: seq<Token>, c: Cursor, precedence: nat)
    requires Valid(toks, c) && precedence >= LOWEST && Cur(toks, c).kind == Tokens.Ident
    ensures ParseExpression(toks, c, precedence) == ExpressionLoop(toks, c, precedence, Some(Ident(Cur(toks, c))))
  {
    assert ParsePrefix(toks, c) == Parsed(Some(Ident(Cur(toks, c))), c);
  }

  /** A binary operator's right operand is the expression parsed at the operator's own precedence. */
  lemma InfixRightOperand(toks: seq<Token>, c: Cursor, left: Node)
    requires Valid(toks, c) && IsBinaryOperator(Cur(toks, c).kind)
    ensures var e := ParseExpression(toks, Next(toks, c), Precedence(Cur(toks, c).kind));
      e.node.Some? ==> ParseInfix(toks, c, Some(left)) == Parsed(Some(InfixExpression(Cur(toks, c), left, Cur(toks, c).literal, e.node.value)), e.c)
  {
    BinaryInfix(toks, c, Some(left));
  }

  /**
   * The stream holds `x op1 y op2 z` from position `p` on, followed by a
   * token that does not bind as an operator (`;`, `)`, EOF, ...).
   */
  predicate ThreeOperands(toks: seq<Token>, p: nat)
  {
    && WellFormed(toks) && p + 5 < |toks|
    && toks[p].kind == Tokens.Ident && toks[p + 2].kind == Tokens.Ident && toks[p + 4].kind == Tokens.Ident
    && IsBinaryOperator(toks[p + 1].kind) && IsBinaryOperator(toks[p + 3].kind)
    && Precedence(toks[p + 5].kind) == LOWEST
  }

  /**
   * Operators of equal (or falling) precedence group to the left:
   * `x op1 y op2 z` is `((x op1 y) op2 z)`, and parsing stops on `z`.
   */
  lemma LeftAssociative(toks: seq<Token>, p: nat, errs: seq<ParseError>)
    requires ThreeOperands(toks, p) && Precedence(toks[p + 1].kind) >= Precedence(toks[p + 3].kind)
    ensures ParseExpression(toks, Cursor(p, errs), LOWEST) == Parsed(Some(
      InfixExpression(toks[p + 3], InfixExpression(toks[p + 1], Ident(toks[p]), toks[p + 1].literal, Ident(toks[p + 2])),
        toks[p + 3].literal, Ident(toks[p + 4]))), Cursor(p + 4, errs))
  {
    var op1, op2 := toks[p + 1], toks[p + 3];
    var x := Ident(toks[p]);
    var c0 := Cursor(p, errs);
    var xy := InfixExpression(op1, x, op1.literal, Ident(toks[p + 2]));
    var xyz := InfixExpression(op2, xy, op2.literal, Ident(toks[p + 4]));
    assert ParsePrefix(toks, c0) == Parsed(Some(x), c0);
    LoopFolds(toks, c0, LOWEST, Some(x));
    InfixWithIdentifier(toks, Cursor(p + 1, errs), x);
    LoopFolds(toks, Cursor(p + 2, errs), LOWEST, Some(xy));
    InfixWithIdentifier(toks, Cursor(p + 3, errs), xy);
    LoopStops(toks, Cursor(p + 4, errs), LOWEST, Some(xyz));
  }

  /** With `op2` binding tighter, `y op2 z` parsed at `op1`'s precedence is one operand. */
  lemma TighterRightOperand(toks: seq<Token>, p: nat, errs: seq<ParseError>)
    requires ThreeOperands(toks, p) && Precedence(toks[p + 1].kind) < Precedence(toks[p + 3].kind)
    ensures ParseExpression(toks, Cursor(p + 2, errs), Precedence(toks[p + 1].kind)) ==
      Parsed(Some(InfixExpression(toks[p + 3], Ident(toks[p + 2]), toks[p + 3].literal, Ident(toks[p + 4]))), Cursor(p + 4, errs))
  {
    var op1, op2 := toks[p + 1], toks[p + 3];
    var y := Ident(toks[p + 2]);
    var c2 := Cursor(p + 2, errs);
    var yz := InfixExpression(op2, y, op2.literal, Ident(toks[p + 4]));
    IdentifierThenLoop(toks, c2, Precedence(op1.kind));
    LoopFolds(toks, c2, Precedence(op1.kind), Some(y));
    InfixWithIdentifier(toks, Cursor(p + 3, errs), y);
    LoopStops(toks, Cursor(p + 4, errs), Precedence(op1.kind), Some(yz));
  }

  /** So `op1` takes all of `y op2 z` as its right operand. */
  lemma TighterInfix(toks: seq<Token>, p: nat, errs: seq<ParseError>, left: Node)
    requires ThreeOperands(toks, p) && Precedence(toks[p + 1].kind) < Precedence(toks[p + 3].kind)
    ensures ParseInfix(toks, Cursor(p + 1, errs), Some(left)) == Parsed(Some(InfixExpression(toks[p + 1], left, toks[p + 1].literal,
      InfixExpression(toks[p + 3], Ident(toks[p + 2]), toks[p + 3].literal, Ident(toks[p + 4])))), Cursor(p + 4, errs))
  {
    var c1 := Cursor(p + 1, errs);
    TighterRightOperand(toks, p, errs);
    assert Next(toks, c1) == Cursor(p + 2, errs);
    InfixRightOperand(toks, c1, left);
  }

  /**
   * A tighter-binding second operator takes the middle operand:
   * `x op1 y op2 z` is `(x op1 (y op2 z))` when `op2` binds tighter.
   */
  lemma TighterOperatorFirst(toks: seq<Token>, p: nat, errs: seq<ParseError>)
    requires ThreeOperands(toks, p) && Precedence(toks[p + 1].kind) < Precedence(toks[p + 3].kind)
    ensures ParseExpression(toks, Cursor(p, errs), LOWEST) == Parsed(Some(
      InfixExpression(toks[p + 1], Ident(toks[p]), toks[p + 1].literal,
        InfixExpression(toks[p + 3], Ident(toks[p + 2]), toks[p + 3].literal, Ident(toks[p + 4])))), Cursor(p + 4, errs))
  {
    var op1, op2 := toks[p + 1], toks[p + 3];
    var x := Ident(toks[p]);
    var c0, c1, c4 := Cursor(p, errs), Cursor(p + 1, errs), Cursor(p + 4, errs);
    var yz := InfixExpression(op2, Ident(toks[p + 2]), op2.literal, Ident(toks[p + 4]));
    var xyz := InfixExpression(op1, x, op1.literal, yz);
    TighterInfix(toks, p, errs, x);
    calc {
      ParseExpression(toks, c0, LOWEST);
      == { IdentifierThenLoop(toks, c0, LOWEST); }
      ExpressionLoop(toks, c0, LOWEST, Some(x));
      == { assert Next(toks, c0) == c1; InfixRulesMatchPrecedences(op1.kind); LoopFolds(toks, c0, LOWEST, Some(x)); }
      ExpressionLoop(toks, c4, LOWEST, Some(xyz));
      == { LoopStops(toks, c4, LOWEST, Some(xyz)); }
      Parsed(Some(xyz), c4);
    }
  }

  /** The stream holds `let x = y` from position `p` on, then the token at `p + 4`. */
  predicate LetOfIdentifier(toks: seq<Token>, p: nat)
  {
    && WellFormed(toks) && p + 4 < |toks|
    && toks[p].kind == Let && toks[p + 1].kind == Tokens.Ident && toks[p + 2].kind == Assign && toks[p + 3].kind == Tokens.Ident
    && Precedence(toks[p + 4].kind) == LOWEST
  }

  /** `parseLetStatement` on `let x = y` reads up to `y` and then checks for the `;`. */
  lemma LetHead(toks: seq<Token>, p: nat, errs: seq<ParseError>)
    requires LetOfIdentifier(toks, p)
    ensures var s := CheckSemicolonError(toks, Cursor(p + 3, errs));
      ParseLetStatement(toks, Cursor(p, errs)) ==
        if s.flag then Parsed(None, s.c) else Parsed(Some(LetStatement(toks[p], Ident(toks[p + 1]), Ident(toks[p + 3]))), s.c)
  {
    var c3 := Cursor(p + 3, errs);
    assert ExpectPeek(toks, Cursor(p, errs), Tokens.Ident) == Checked(true, Cursor(p + 1, errs));
    assert ExpectPeek(toks, Cursor(p + 1, errs), Assign) == Checked(true, Cursor(p + 2, errs));
    assert Next(toks, Cursor(p + 2, errs)) == c3;
    IdentifierAlone(toks, c3, LOWEST);
  }

  /** `let x = y;` is a LetStatement binding the identifier, and parsing ends on the `;`. */
  lemma LetWithSemicolon(toks: seq<Token>, p: nat, errs: seq<ParseError>)
    requires LetOfIdentifier(toks, p) && toks[p + 4].kind == Semicolon
    ensures var r := ParseStatement(toks, Cursor(p, errs));
      && r.node == Some(LetStatement(toks[p], Ident(toks[p + 1]), Ident(toks[p + 3])))
      && r.c.errors == errs && Cur(toks, r.c).kind == Semicolon
  {
    LetHead(toks, p, errs);
    assert Peek(toks, Cursor(p + 3, errs)).kind == Semicolon;
    LetDispatch(toks, Cursor(p, errs));
  }

  /** `parseStatement` hands a statement that starts with `let` to `parseLetStatement`. */
  lemma LetDispatch(toks: seq<Token>, c: Cursor)
    requires Valid(toks, c) && Cur(toks, c).kind == Let
    ensures ParseStatement(toks, c) == ParseLetStatement(toks, c)
  {
  }

  /** The steps of `parseLetStatement` on `let x = y` that lacks its `;`. */
  lemma LetStopsAtMissingSemicolon(toks: seq<Token>, p: nat, errs: seq<ParseError>)
    requires LetOfIdentifier(toks, p) && toks[p + 4].kind != Semicolon
    ensures ParseLetStatement(toks, Cursor(p, errs)) == Parsed(None, PeekError(toks, Cursor(p + 3, errs), ";"))
  {
    var c3 := Cursor(p + 3, errs);
    LetHead(toks, p, errs);
    assert SkipSemicolon(toks, PeekError(toks, c3, ";")) == PeekError(toks, c3, ";");
  }

  /**
   * Without its `;`, `let x = y` is dropped, with the error naming the
   * token found instead on the line of that token.
   */
  lemma LetWithoutSemicolon(toks: seq<Token>, p: nat, errs: seq<ParseError>)
    requires LetOfIdentifier(toks, p) && toks[p + 4].kind != Semicolon
    ensures ParseStatement(toks, Cursor(p, errs)) == Parsed(None, Cursor(p + 3, errs + [ParseError(
      "expected next token to be ;, got " + Spelling(toks[p + 4].kind) + " instead", toks[p + 4].line)]))
  {
    var c3 := Cursor(p + 3, errs);
    LetDispatch(toks, Cursor(p, errs));
    LetStopsAtMissingSemicolon(toks, p, errs);
    assert Peek(toks, c3) == toks[p + 4];
    SemicolonPeekError(toks, c3);
  }

  /** The error `expectPeek(SEMICOLON)` and `checkSemicolonError` record, spelled out. */
  lemma SemicolonPeekError(toks: seq<Token>, c: Cursor)
    requires Valid(toks, c)
    ensures PeekError(toks, c, ";") == Cursor(c.pos, c.errors + [ParseError(
      "expected next token to be ;, got " + Spelling(Peek(toks, c).kind) + " instead", Peek(toks, c).line)])
  {
    var found := Spelling(Peek(toks, c).kind);
    assert "expected next token to be " + ";" + ", got " == "expected next token to be ;, got ";
    assert "expected next token to be " + ";" + ", got " + found + " instead" == "expected next token to be ;, got " + found + " instead";
  }

  /** The stream holds `fn ( ) { }` from position `p` on, followed by a token that is neither `;` nor an operator. */
  predicate EmptyFunctionAt(toks: seq<Token>, p: nat)
  {
    && WellFormed(toks) && p + 5 < |toks|
    && toks[p].kind == Function && toks[p].literal == "fn"
    && toks[p + 1].kind == LParen && toks[p + 2].kind == RParen
    && toks[p + 3].kind == LBrace && toks[p + 4].kind == RBrace
    && toks[p + 5].kind != Semicolon && Precedence(toks[p + 5].kind) == LOWEST
  }

  function EmptyFunction(toks: seq<Token>, p: nat): Node
    requires p + 3 < |toks|
  {
    FunctionLiteral(toks[p], [], BlockStatement(toks[p + 3], []))
  }

  /** `()` as a parameter list: no parameters, ending on `)`. */
  lemma EmptyParameters(toks: seq<Token>, c: Cursor)
    requires WellFormed(toks) && c.pos + 1 < |toks| && toks[c.pos + 1].kind == RParen
    ensures ParseFunctionParameters(toks, c) == ParsedParams(Some([]), Cursor(c.pos + 1, c.errors))
  {
  }

  /** `{}` as a block: no statements, ending on `}`. */
  lemma EmptyBlock(toks: seq<Token>, c: Cursor)
    requires WellFormed(toks) && c.pos + 1 < |toks| && toks[c.pos + 1].kind == RBrace
    ensures ParseBlockStatement(toks, c) == Parsed(Some(BlockStatement(toks[c.pos], [])), Cursor(c.pos + 1, c.errors))
  {
    assert Cur(toks, Next(toks, c)).kind == RBrace;
  }

  /** The parameters and body of `fn ( ) { }`, entered on `(`. */
  lemma EmptyLiteralRest(toks: seq<Token>, p: nat, errs: seq<ParseError>)
    requires EmptyFunctionAt(toks, p)
    ensures FunctionLiteralRest(toks, Cursor(p + 1, errs), toks[p]) == Parsed(Some(EmptyFunction(toks, p)), Cursor(p + 4, errs))
  {
    EmptyBody(toks, p, errs);
    EmptyParameters(toks, Cursor(p + 1, errs));
  }

  /** `{ }` after the parameters of `fn ( ) { }`: an empty block, ending on `}`. */
  lemma EmptyBody(toks: seq<Token>, p: nat, errs: seq<ParseError>)
    requires EmptyFunctionAt(toks, p)
    ensures ExpectPeek(toks, Cursor(p + 2, errs), LBrace) == Checked(true, Cursor(p + 3, errs))
    ensures ParseBlockStatement(toks, Cursor(p + 3, errs)) == Parsed(Some(BlockStatement(toks[p + 3], [])), Cursor(p + 4, errs))
  {
    EmptyBlock(toks, Cursor(p + 3, errs));
  }

  /** `parseFunctionLiteral` on `fn ( ) { }`. */
  lemma EmptyFunctionLiteral(toks: seq<Token>, p: nat, errs: seq<ParseError>)
    requires EmptyFunctionAt(toks, p)
    ensures ParseFunctionLiteral(toks, Cursor(p, errs)) == Parsed(Some(EmptyFunction(toks, p)), Cursor(p + 4, errs))
  {
    assert ExpectPeek(toks, Cursor(p, errs), LParen) == Checked(true, Cursor(p + 1, errs));
    EmptyLiteralRest(toks, p, errs);
  }

  /** An expression led by `fn` starts with `parseFunctionLiteral`. */
  lemma FunctionPrefix(toks: seq<Token>, c: Cursor, precedence: nat)
    requires Valid(toks, c) && precedence >= LOWEST && Cur(toks, c).kind == Function
    ensures var f := ParseFunctionLiteral(toks, c);
      ParseExpression(toks, c, precedence) == ExpressionLoop(toks, f.c, precedence, f.node)
  {
    assert ParsePrefix(toks, c) == ParseCompositeLiteral(toks, c) == ParseFunctionLiteral(toks, c);
  }

  /** `fn ( ) { }` parses to a function literal with no parameters and an empty body, ending on `}`. */
  lemma EmptyFunctionExpression(toks: seq<Token>, p: nat, errs: seq<ParseError>)
    requires EmptyFunctionAt(toks, p)
    ensures ParseExpression(toks, Cursor(p, errs), LOWEST) == Parsed(Some(EmptyFunction(toks, p)), Cursor(p + 4, errs))
  {
    FunctionPrefix(toks, Cursor(p, errs), LOWEST);
    EmptyFunctionLiteral(toks, p, errs);
    LoopStops(toks, Cursor(p + 4, errs), LOWEST, Some(EmptyFunction(toks, p)));
  }

  /**
   * An expression statement led by `fn` needs no `;`: `fn ( ) { }` followed
   * by any other token is kept, and no error is recorded.
   */
  lemma FunctionStatementWithoutSemicolon(toks: seq<Token>, p: nat, errs: seq<ParseError>)
    requires EmptyFunctionAt(toks, p)
    ensures ParseStatement(toks, Cursor(p, errs)) == Parsed(Some(ExpressionStatement(toks[p], EmptyFunction(toks, p))), Cursor(p + 4, errs))
  {
    var c0 := Cursor(p, errs);
    assert ParseStatement(toks, c0) == ParseExpressionStatement(toks, c0);
    FunctionExpressionStatement(toks, p, errs);
  }

  /** `parseExpressionStatement` on `fn ( ) { }`: the missing `;` is not an error. */
  lemma FunctionExpressionStatement(toks: seq<Token>, p: nat, errs: seq<ParseError>)
    requires EmptyFunctionAt(toks, p)
    ensures ParseExpressionStatement(toks, Cursor(p, errs)) == Parsed(Some(ExpressionStatement(toks[p], EmptyFunction(toks, p))), Cursor(p + 4, errs))
  {
    EmptyFunctionExpression(toks, p, errs);
    assert TokenLiteral(EmptyFunction(toks, p)) == "fn";
    assert TokenLiteral(EmptyFunction(toks, p)) in {"if", "fn"};
    assert SkipSemicolon(toks, Cursor(p + 4, errs)) == Cursor(p + 4, errs);
  }

  /**
   * An expression statement whose expression does not start with `if` or
   * `fn` is dropped when no `;` follows, with the peek error for `;`.
   */
  lemma NeedsSemicolon(toks: seq<Token>, c: Cursor)
    requires Valid(toks, c)
    requires var e := ParseExpression(toks, c, LOWEST);
      e.node.Some? && TokenLiteral(e.node.value) !in {"if", "fn"} && Peek(toks, e.c).kind != Semicolon
    ensures ParseExpressionStatement(toks, c) == Parsed(None, Parsing.PeekError(toks, ParseExpression(toks, c, LOWEST).c, ";"))
  {
    MissingSemicolon(toks, ParseExpression(toks, c, LOWEST).c);
  }

  /**
   * An expression statement whose expression's token literal is `if` or
   * `fn` (an `if` expression, a function literal) needs no `;`: it is kept,
   * on the token it started at, any `;` that follows is skipped, and no
   * error is recorded after the expression's own.
   */
  lemma KeywordLedStatementNeedsNoSemicolon(toks: seq<Token>, c: Cursor)
    requires Valid(toks, c)
    requires var e := ParseExpression(toks, c, LOWEST);
      e.node.Some? && TokenLiteral(e.node.value) in {"if", "fn"}
    ensures var e := ParseExpression(toks, c, LOWEST);
      var r := ParseExpressionStatement(toks, c);
      && r == Parsed(Some(ExpressionStatement(toks[c.pos], e.node.value)), SkipSemicolon(toks, e.c))
      && r.c.errors == e.c.errors
  {
  }

  /**
   * `for ( ; cond ; ) { ... }`: with the init and the update left out, the
   * statement holds neither; its condition is the expression parsed after
   * the first `;`, and its body the block after the `)` that follows the
   * second `;`.
   */
  lemma ForWithoutInitOrUpdate(toks: seq<Token>, c: Cursor)
    requires Valid(toks, c) && Peek(toks, c).kind == LParen && Peek(toks, Next(toks, c)).kind == Semicolon
    requires var cond := ParseExpression(toks, Next(toks, Next(toks, Next(toks, c))), LOWEST);
      cond.node.Some? && Peek(toks, cond.c).kind == Semicolon && Peek(toks, Next(toks, cond.c)).kind == RParen
    ensures var cond := ParseExpression(toks, Next(toks, Next(toks, Next(toks, c))), LOWEST);
      var body := ParseBlockStatement(toks, Next(toks, Next(toks, Next(toks, cond.c))));
      ParseForStatement(toks, c) == Parsed(Some(ForStatement(Cur(toks, c), None, cond.node.value, None, body.node.value)), body.c)
  {
    var semi := Next(toks, Next(toks, c));
    assert ParseForStatement(toks, c) == ForCondition(toks, semi, Cur(toks, c), None);
    ForConditionWithoutUpdate(toks, semi, Cur(toks, c), None);
  }

  /** `parseForStatement` from the `;` after the init, when `)` follows the condition's `;`. */
  lemma ForConditionWithoutUpdate(toks: seq<Token>, c: Cursor, tok: Token, init: Option<Node>)
    requires Valid(toks, c)
    requires var cond := ParseExpression(toks, Next(toks, c), LOWEST);
      cond.node.Some? && Peek(toks, cond.c).kind == Semicolon && Peek(toks, Next(toks, cond.c)).kind == RParen
    ensures var cond := ParseExpression(toks, Next(toks, c), LOWEST);
      var body := ParseBlockStatement(toks, Next(toks, Next(toks, Next(toks, cond.c))));
      ForCondition(toks, c, tok, init) == Parsed(Some(ForStatement(tok, init, cond.node.value, None, body.node.value)), body.c)
  {
  }

  /**
   * A word that is not a keyword is neither `if` nor `fn`, so an IDENT
   * token from the lexers meets the requirement of `NeedsSemicolon`.
   */
  lemma PlainIdentifierLiteral(t: Token)
    requires LookupIdent(t.literal) == Tokens.Ident
    ensures t.literal !in {"if", "fn"}
  {
    LookupIdentKeywords(t.literal);
  }

  /** `checkSemicolonError` when no `;` follows: the peek error, and the parser stays. */
  lemma MissingSemicolon(toks: seq<Token>, c: Cursor)
    requires Valid(toks, c) && Peek(toks, c).kind != Semicolon
    ensures CheckSemicolonError(toks, c) == Checked(true, Parsing.PeekError(toks, c, ";"))
  {
    var d := Parsing.PeekError(toks, c, ";");
    assert SkipSemicolon(toks, d) == d;
  }
}
