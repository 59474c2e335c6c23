/**
 * The `Parser` class of ts/src/parser/index.ts as an object: the current
 * position in the token stream and the `errors` list are fields that its
 * methods update in place, and the loops of `parseProgram`,
 * `parseBlockStatement`, `parseExpression`, `parseExpressionList`,
 * `parseFunctionParameters`, `parseHashLiteral` and `skipSemicolon` are
 * `while` loops. Each method is proved to leave the parser exactly where
 * the rule of the same name in module `Parsing` leaves its cursor, with the
 * same result; the rules without a loop of their own are run through those
 * functions.
 */
module ParserObject {
  import opened Wrappers
  import opened Tokens
  import opened Ast
  import opened Parsing

  class Parser {
    /** The lexer's tokens, ending with EOF; `curToken` is `toks[pos]`. */
    const toks: seq<Token>
    var pos: nat
    var errors: seq<ParseError>

    predicate Valid()
      reads this
    {
      Parsing.Valid(toks, Cursor(pos, errors))
    }

    /** The parser's state as a cursor of module `Parsing`. */
    function At(): Cursor
      reads this
    {
      Cursor(pos, errors)
    }

    function CurToken(): Token
      requires Valid()
      reads this
    {
      Cur(toks, At())
    }

    function PeekToken(): Token
      requires Valid()
      reads this
    {
      Peek(toks, At())
    }

    /** The constructor reads the first token; nothing has failed yet. */
    constructor(toks: seq<Token>)
      requires WellFormed(toks)
      ensures this.toks == toks && At() == Cursor(0, []) && Valid()
    {
      this.toks := toks;
      pos := 0;
      errors := [];
    }

    /** Takes on the cursor a rule of module `Parsing` left. */
    method MoveTo(c: Cursor)
      requires Parsing.Valid(toks, c)
      modifies this
      ensures At() == c && Valid()
    {
      pos, errors := c.pos, c.errors;
    }

    method NextToken()
      requires Valid()
      modifies this
      ensures Valid() && At() == Next(toks, old(At()))
    {
      if pos + 1 < |toks| {
        pos := pos + 1;
      }
    }

    method PeekError(expected: string)
      requires Valid()
      modifies this
      ensures Valid() && At() == Parsing.PeekError(toks, old(At()), expected)
    {
      var p := PeekToken();
      errors := errors + [ParseError("expected next token to be " + expected + ", got " + Spelling(p.kind) + " instead", p.line)];
    }

    method ExpectPeek(k: Kind) returns (ok: bool)
      requires Valid()
      modifies this
      ensures Valid() && Checked(ok, At()) == Parsing.ExpectPeek(toks, old(At()), k)
    {
      if PeekToken().kind == k {
        NextToken();
        return true;
      }
      PeekError(Spelling(k));
      return false;
    }

    method SkipSemicolon()
      requires Valid()
      modifies this
      ensures Valid() && At() == Parsing.SkipSemicolon(toks, old(At()))
    {
      while PeekToken().kind == Semicolon
        invariant Valid() && Parsing.SkipSemicolon(toks, At()) == Parsing.SkipSemicolon(toks, old(At()))
        decreases |toks| - pos
      {
        NextToken();
      }
    }

    method CheckSemicolonError() returns (missing: bool)
      requires Valid()
      modifies this
      ensures Valid() && Checked(missing, At()) == Parsing.CheckSemicolonError(toks, old(At()))
    {
      if PeekToken().kind == Semicolon {
        SkipSemicolon();
        return false;
      }
      PeekError(";");
      SkipSemicolon();
      return true;
    }

    method NoPrefixParseFnError()
      requires Valid()
      modifies this
      ensures Valid() && At() == NoPrefixError(toks, old(At()))
    {
      errors := errors + [ParseError("no prefix parse function for " + Spelling(CurToken().kind) + " found", PeekToken().line)];
    }

    /** `parseExpression`: the prefix rule, then infix rules while the next operator binds tighter. */
    method ParseExpression(precedence: nat) returns (left: Option<Node>)
      requires Valid() && precedence >= LOWEST
      modifies this
      ensures Valid() && Parsed(left, At()) == Parsing.ParseExpression(toks, old(At()), precedence)
    {
      if !HasPrefixRule(CurToken().kind) {
        NoPrefixParseFnError();
        return None;
      }
      var prefix := ParsePrefix(toks, At());
      MoveTo(prefix.c);
      left := prefix.node;
      while PeekToken().kind != Semicolon && precedence < Precedence(PeekToken().kind)
        invariant Valid() && (left.Some? ==> IsExpression(left.value))
        invariant ExpressionLoop(toks, At(), precedence, left) == Parsing.ParseExpression(toks, old(At()), precedence)
        decreases |toks| - pos
      {
        if !HasInfixRule(PeekToken().kind) {
          return;
        }
        NextToken();
        var infix := ParseInfix(toks, At(), left);
        MoveTo(infix.c);
        left := infix.node;
      }
    }

    /** `parseExpressionList(end)`, entered on the opening token. */
    method ParseExpressionList(end: Kind) returns (list: Option<seq<Node>>)
      requires Valid() && CurToken().kind != EOF
      modifies this
      ensures Valid() && ParsedList(list, At()) == Parsing.ParseExpressionList(toks, old(At()), end)
    {
      if PeekToken().kind == end {
        NextToken();
        return Some([]);
      }
      NextToken();
      var first := ParseExpression(LOWEST);
      if first.None? {
        return None;
      }
      var items := [first.value];
      while PeekToken().kind == Comma
        invariant Valid() && forall e :: e in items ==> IsExpression(e)
        invariant ListLoop(toks, At(), end, items) == Parsing.ParseExpressionList(toks, old(At()), end)
        decreases |toks| - pos
      {
        NextToken();
        NextToken();
        var e := ParseExpression(LOWEST);
        if e.None? {
          return None;
        }
        items := items + [e.value];
      }
      var closed := ExpectPeek(end);
      if !closed {
        return None;
      }
      return Some(items);
    }

    /** `parseFunctionParameters`, entered on `(`. */
    method ParseFunctionParameters() returns (identifiers: Option<seq<Node>>)
      requires Valid()
      modifies this
      ensures Valid() && ParsedParams(identifiers, At()) == Parsing.ParseFunctionParameters(toks, old(At()))
    {
      if PeekToken().kind == RParen {
        NextToken();
        return Some([]);
      }
      NextToken();
      var params := [Identifier(CurToken(), CurToken().literal)];
      while PeekToken().kind == Comma
        invariant Valid() && forall p :: p in params ==> p.Identifier?
        invariant ParametersLoop(toks, At(), params) == Parsing.ParseFunctionParameters(toks, old(At()))
        decreases |toks| - pos
      {
        NextToken();
        NextToken();
        params := params + [Identifier(CurToken(), CurToken().literal)];
      }
      var closed := ExpectPeek(RParen);
      if !closed {
        return None;
      }
      return Some(params);
    }

    /** `parseHashLiteral`, entered on `{`: the pairs in the order written. */
    method ParseHashLiteral() returns (hash: Option<Node>)
      requires Valid() && CurToken().kind == LBrace
      modifies this
      ensures Valid() && Parsed(hash, At()) == Parsing.ParseHashLiteral(toks, old(At()))
    {
      var tok := CurToken();
      var pairs: seq<(Node, Node)> := [];
      while PeekToken().kind != RBrace
        invariant Valid() && pos < |toks| - 1
        invariant HashLoop(toks, At(), tok, pairs) == Parsing.ParseHashLiteral(toks, old(At()))
        decreases |toks| - pos
      {
        var more;
        more, pairs := ParsePair(tok, pairs);
        if !more {
          return None;
        }
      }
      var closed := ExpectPeek(RBrace);
      if !closed {
        return None;
      }
      return Some(HashLiteral(tok, pairs));
    }

    /**
     * One turn of the loop of `parseHashLiteral`: `key : value` and the
     * `,` after it unless `}` follows; `more` is false when it failed.
     */
    method ParsePair(ghost tok: Token, pairs: seq<(Node, Node)>) returns (more: bool, pairs': seq<(Node, Node)>)
      requires Valid() && pos < |toks| - 1 && PeekToken().kind != RBrace
      modifies this
      ensures Valid() && old(pos) < pos
      ensures more ==> pos < |toks| - 1 && HashLoop(toks, At(), tok, pairs') == HashLoop(toks, old(At()), tok, pairs)
      ensures !more ==> Parsed(None, At()) == HashLoop(toks, old(At()), tok, pairs)
    {
      NextToken();
      var key := ParseExpression(LOWEST);
      var colon := ExpectPeek(Colon);
      if !colon || key.None? {
        return false, pairs;
      }
      more, pairs' := ParseValue(tok, pairs, key.value);
    }

    /** The rest of that turn, entered on the `:` after `key`. */
    method ParseValue(ghost tok: Token, pairs: seq<(Node, Node)>, key: Node) returns (more: bool, pairs': seq<(Node, Node)>)
      requires Valid() && pos < |toks| - 1
      modifies this
      ensures Valid() && old(pos) < pos
      ensures more ==> pos < |toks| - 1 && HashLoop(toks, At(), tok, pairs') == HashValue(toks, old(At()), tok, pairs, key)
      ensures !more ==> Parsed(None, At()) == HashValue(toks, old(At()), tok, pairs, key)
    {
      NextToken();
      var value := ParseExpression(LOWEST);
      if value.None? {
        return false, pairs;
      }
      pairs' := pairs + [(key, value.value)];
      more := ParseSeparator(tok, pairs');
    }

    /** The end of that turn, on the last token of the value: `,` unless `}` follows. */
    method ParseSeparator(ghost tok: Token, pairs: seq<(Node, Node)>) returns (more: bool)
      requires Valid()
      modifies this
      ensures Valid() && old(pos) <= pos
      ensures more ==> pos < |toks| - 1 && HashLoop(toks, At(), tok, pairs) == HashSeparator(toks, old(At()), tok, pairs)
      ensures !more ==> Parsed(None, At()) == HashSeparator(toks, old(At()), tok, pairs)
    {
      if PeekToken().kind != RBrace {
        more := ExpectPeek(Comma);
      } else {
        more := true;
      }
    }

    /** `parseBlockStatement`, entered on `{`: the statements up to `}` or the end of input. */
    method ParseBlockStatement() returns (block: Node)
      requires Valid()
      modifies this
      ensures Valid() && Parsed(Some(block), At()) == Parsing.ParseBlockStatement(toks, old(At()))
    {
      var tok := CurToken();
      var statements := [];
      NextToken();
      ghost var start := At();
      while CurToken().kind != RBrace && CurToken().kind != EOF
        invariant Valid() && forall s :: s in statements ==> IsStatement(s)
        invariant BlockLoop(toks, At(), statements) == BlockLoop(toks, start, [])
        decreases |toks| - pos
      {
        statements := ParseNextStatement(statements);
      }
      assert BlockLoop(toks, start, []) == ParsedList(Some(statements), At());
      return BlockStatement(tok, statements);
    }

    /** `parseProgram`: every statement up to EOF; the ones that failed are dropped. */
    method ParseProgram() returns (program: Node)
      requires Valid()
      modifies this
      ensures program.Program? && Valid()
      ensures ParsedList(Some(program.statements), At()) == ProgramLoop(toks, old(At()), [])
    {
      var statements := [];
      while CurToken().kind != EOF
        invariant Valid() && forall s :: s in statements ==> IsStatement(s)
        invariant ProgramLoop(toks, At(), statements) == ProgramLoop(toks, old(At()), [])
        decreases |toks| - pos
      {
        statements := ParseNextStatement(statements);
      }
      return Program(statements);
    }

    /**
     * One turn of the loops of `parseProgram` and `parseBlockStatement`: the
     * statement is kept when it parsed, and the parser steps past its last
     * token.
     */
    method ParseNextStatement(statements: seq<Node>) returns (statements': seq<Node>)
      requires Valid() && CurToken().kind != EOF && forall s :: s in statements ==> IsStatement(s)
      modifies this
      ensures Valid() && old(pos) < pos && forall s :: s in statements' ==> IsStatement(s)
      ensures var r := Parsing.ParseStatement(toks, old(At()));
        && statements' == (if r.node.Some? then statements + [r.node.value] else statements)
        && At() == Next(toks, r.c)
    {
      var stmt := ParseStatement(toks, At());
      MoveTo(stmt.c);
      statements' := statements;
      if stmt.node.Some? {
        statements' := statements + [stmt.node.value];
      }
      NextToken();
    }
  }

  /**
   * A fresh parser over the lexer's tokens, run to the end: the program and
   * the errors are those of `Parsing.ParseProgram`.
   */
  method Parse(toks: seq<Token>) returns (program: Node, errors: seq<ParseError>)
    requires WellFormed(toks)
    ensures (program, errors) == Parsing.ParseProgram(toks)
    ensures program.Program? && forall s :: s in program.statements ==> IsStatement(s)
  {
    var p := new Parser(toks);
    program := p.ParseProgram();
    errors := p.errors;
  }
}
