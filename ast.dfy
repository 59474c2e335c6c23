/**
 * The syntax tree of the interpreter (ts/src/ast/index.ts) and its printer.
 *
 * The source has one class per node kind, all implementing `tokenLine`,
 * `tokenLiteral` and `toString`; here they are the constructors of one
 * datatype.  Children the parser always fills are plain fields; the `else`
 * block of an `if` and the init/update parts of a `for` may be missing.
 */
module Ast {
  import opened Wrappers
  import opened Tokens

  datatype Node =
    | Program(statements: seq<Node>)
    | Identifier(token: Token, ident: string)
    | LetStatement(token: Token, name: Node, value: Node)
    | ReturnStatement(token: Token, returnValue: Node)
    | ExpressionStatement(token: Token, expression: Node)
    | BlockStatement(token: Token, statements: seq<Node>)
    | IntegerLiteral(token: Token, intValue: int)
    | FloatLiteral(token: Token, floatValue: real)
    | PrefixExpression(token: Token, operator: string, right: Node)
    | InfixExpression(token: Token, left: Node, operator: string, right: Node)
    | BooleanLiteral(token: Token, boolValue: bool)
    | IfExpression(token: Token, condition: Node, consequence: Node, alternative: Option<Node>)
    | FunctionLiteral(token: Token, parameters: seq<Node>, body: Node)
    | CallExpression(token: Token, callee: Node, arguments: seq<Node>)
    | StringLiteral(token: Token, strValue: string)
    | ArrayLiteral(token: Token, elements: seq<Node>)
    | IndexExpression(token: Token, left: Node, index: Node)
    | HashLiteral(token: Token, pairs: seq<(Node, Node)>)
    | MacroLiteral(token: Token, parameters: seq<Node>, body: Node)
    | ErrorLiteral(message: string, line: int)
    | WhileStatement(token: Token, condition: Node, body: Node)
    | AssignExpression(token: Token, name: Node, value: Node)
    | ForStatement(token: Token, init: Option<Node>, condition: Node, update: Option<Node>, body: Node)
    | BreakStatement(token: Token)

  /** Node kinds that implement the source's `Statement` interface. */
  predicate IsStatement(n: Node)
  {
    n.LetStatement? || n.ReturnStatement? || n.ExpressionStatement? || n.BlockStatement?
    || n.WhileStatement? || n.ForStatement? || n.BreakStatement?
  }

  /** Node kinds that implement the source's `Expression` interface. */
  predicate IsExpression(n: Node)
  {
    !n.Program? && !IsStatement(n)
  }

  /** The line of the node's token; a program is on line 1, an error literal on its stored line. */
  function TokenLine(n: Node): int
  {
    match n
    case Program(_) => 1
    case ErrorLiteral(_, line) => line
    case _ => n.token.line
  }

  /** The literal of the node's token; a program takes its first statement's, an error literal says "Error". */
  function TokenLiteral(n: Node): string
  {
    match n
    case Program(stmts) => if |stmts| > 0 then TokenLiteral(stmts[0]) else ""
    case ErrorLiteral(_, _) => "Error"
    case _ => n.token.literal
  }

  /** The strings of `parts` with `sep` between consecutive ones (JavaScript's `join`). */
  function Join(parts: seq<string>, sep: string): string
  {
    if |parts| == 0 then ""
    else if |parts| == 1 then parts[0]
    else parts[0] + sep + Join(parts[1..], sep)
  }

  /** Plain concatenation, as `Program.toString` builds it. */
  function Concat(parts: seq<string>): string
  {
    if |parts| == 0 then "" else parts[0] + Concat(parts[1..])
  }

  function OptToString(o: Option<Node>): string
    decreases o
  {
    match o
    case None => ""
    case Some(n) => ToString(n)
  }

  /** The printer: every `toString` of the source. */
  function ToString(n: Node): string
    decreases n
  {
    match n
    case Program(stmts) => Concat(seq(|stmts|, i requires 0 <= i < |stmts| => ToString(stmts[i])))
    case Identifier(_, value) => value
    case LetStatement(tok, name, value) => tok.literal + " " + ToString(name) + " = " + ToString(value) + ";"
    case ReturnStatement(tok, value) => tok.literal + " " + ToString(value) + ";"
    case ExpressionStatement(_, e) => ToString(e)
    case BlockStatement(_, stmts) => Join(seq(|stmts|, i requires 0 <= i < |stmts| => ToString(stmts[i])), ",")
    case IntegerLiteral(tok, _) => tok.literal
    case FloatLiteral(tok, _) => tok.literal
    case PrefixExpression(_, op, right) => "(" + op + ToString(right) + ")"
    case InfixExpression(_, left, op, right) => "(" + ToString(left) + " " + op + " " + ToString(right) + ")"
    case BooleanLiteral(tok, _) => tok.literal
    case IfExpression(_, c, cons, alt) =>
      "if " + ToString(c) + " " + ToString(cons) + (if alt.Some? then "else " + OptToString(alt) else "")
    case FunctionLiteral(tok, params, body) =>
      tok.literal + "(" + Join(seq(|params|, i requires 0 <= i < |params| => ToString(params[i])), ",") + ")" + ToString(body)
    case CallExpression(_, f, args) =>
      ToString(f) + "(" + Join(seq(|args|, i requires 0 <= i < |args| => ToString(args[i])), ", ") + ")"
    case StringLiteral(tok, _) => tok.literal
    case ArrayLiteral(_, elems) => "[" + Join(seq(|elems|, i requires 0 <= i < |elems| => ToString(elems[i])), ", ") + "]"
    case IndexExpression(_, left, index) => "(" + ToString(left) + "[" + ToString(index) + "])"
    case HashLiteral(_, pairs) =>
      "{" + Join(seq(|pairs|, i requires 0 <= i < |pairs| => ToString(pairs[i].0) + ":" + ToString(pairs[i].1)), ", ") + "}"
    case MacroLiteral(tok, params, body) =>
      tok.literal + "(" + Join(seq(|params|, i requires 0 <= i < |params| => ToString(params[i])), ", ") + ") " + ToString(body)
    case ErrorLiteral(message, _) => message
    case WhileStatement(_, c, body) => "while" + ToString(c) + " " + ToString(body)
    case AssignExpression(_, name, value) => ToString(name) + " = " + ToString(value) + ";"
    case ForStatement(_, init, c, update, body) =>
      "for(" + OptToString(init) + ";" + ToString(c) + ";" + OptToString(update) + ") " + ToString(body)
    case BreakStatement(tok) => tok.literal + ";"
  }

  /** How often `c` occurs in `s`. */
  function Occurrences(c: char, s: string): nat
  {
    if s == [] then 0 else (if s[0] == c then 1 else 0) + Occurrences(c, s[1..])
  }

  lemma {:induction false} OccurrencesConcat(c: char, a: string, b: string)
    ensures Occurrences(c, a + b) == Occurrences(c, a) + Occurrences(c, b)
    decreases |a|
  {
    if a == [] {
      assert a + b == b;
    } else {
      assert (a + b)[1..] == a[1..] + b;
      OccurrencesConcat(c, a[1..], b);
    }
  }

  /** A string in which both kinds of bracket are balanced in number. */
  predicate Balanced(s: string)
  {
    Occurrences('(', s) == Occurrences(')', s) && Occurrences('[', s) == Occurrences(']', s)
  }

  lemma BalancedConcat(a: string, b: string)
    requires Balanced(a) && Balanced(b)
    ensures Balanced(a + b)
  {
    OccurrencesConcat('(', a, b);
    OccurrencesConcat(')', a, b);
    OccurrencesConcat('[', a, b);
    OccurrencesConcat(']', a, b);
  }

  lemma {:induction false} JoinBalanced(parts: seq<string>, sep: string)
    requires Balanced(sep) && forall i :: 0 <= i < |parts| ==> Balanced(parts[i])
    ensures Balanced(Join(parts, sep))
    decreases |parts|
  {
    if |parts| > 1 {
      JoinBalanced(parts[1..], sep);
      BalancedConcat(parts[0], sep);
      BalancedConcat(parts[0] + sep, Join(parts[1..], sep));
    } else if |parts| == 0 {
      assert Occurrences('(', "") == 0;
    }
  }

  /**
   * Expressions built from operators, calls, indexing and arrays over
   * identifiers and literals whose text holds no brackets.
   */
  predicate OperatorTree(n: Node)
    decreases n
  {
    match n
    case Identifier(_, value) => Balanced(value)
    case IntegerLiteral(tok, _) => Balanced(tok.literal)
    case FloatLiteral(tok, _) => Balanced(tok.literal)
    case BooleanLiteral(tok, _) => Balanced(tok.literal)
    case PrefixExpression(_, op, right) => Balanced(op) && OperatorTree(right)
    case InfixExpression(_, left, op, right) => Balanced(op) && OperatorTree(left) && OperatorTree(right)
    case IndexExpression(_, left, index) => OperatorTree(left) && OperatorTree(index)
    case CallExpression(_, f, args) => OperatorTree(f) && forall i :: 0 <= i < |args| ==> OperatorTree(args[i])
    case ArrayLiteral(_, elems) => forall i :: 0 <= i < |elems| ==> OperatorTree(elems[i])
    case _ => false
  }

  lemma BalancedBasics()
    ensures Balanced("") && Balanced(" ") && Balanced(", ")
  {
    assert Occurrences('(', " ") == 0 by { assert " "[1..] == ""; }
    assert Occurrences('(', ", ") == 0 by { assert ", "[1..] == " " && " "[1..] == ""; }
  }

  /** Wrapping a balanced string in a matching pair keeps it balanced. */
  lemma Wrap(open: string, s: string, close: string)
    requires (open == "(" && close == ")") || (open == "[" && close == "]")
    requires Balanced(s)
    ensures Balanced(open + s + close)
  {
    assert open[1..] == "" && close[1..] == "";
    OccurrencesConcat('(', open, s);
    OccurrencesConcat(')', open, s);
    OccurrencesConcat('[', open, s);
    OccurrencesConcat(']', open, s);
    OccurrencesConcat('(', open + s, close);
    OccurrencesConcat(')', open + s, close);
    OccurrencesConcat('[', open + s, close);
    OccurrencesConcat(']', open + s, close);
  }

  lemma InfixBalanced(l: string, op: string, r: string)
    requires Balanced(l) && Balanced(op) && Balanced(r)
    ensures Balanced("(" + l + " " + op + " " + r + ")")
  {
    BalancedBasics();
    var a := l + " ";
    BalancedConcat(l, " ");
    var b := a + op;
    BalancedConcat(a, op);
    var c := b + " ";
    BalancedConcat(b, " ");
    var d := c + r;
    BalancedConcat(c, r);
    Wrap("(", d, ")");
    assert "(" + l + " " + op + " " + r + ")" == "(" + d + ")";
  }

  lemma PrefixBalanced(op: string, r: string)
    requires Balanced(op) && Balanced(r)
    ensures Balanced("(" + op + r + ")")
  {
    BalancedConcat(op, r);
    Wrap("(", op + r, ")");
    assert "(" + op + r + ")" == "(" + (op + r) + ")";
  }

  lemma IndexBalanced(l: string, idx: string)
    requires Balanced(l) && Balanced(idx)
    ensures Balanced("(" + l + "[" + idx + "])")
  {
    Wrap("[", idx, "]");
    BalancedConcat(l, "[" + idx + "]");
    Wrap("(", l + ("[" + idx + "]"), ")");
    assert "(" + l + "[" + idx + "])" == "(" + (l + ("[" + idx + "]")) + ")";
  }

  lemma CallBalanced(f: string, args: string)
    requires Balanced(f) && Balanced(args)
    ensures Balanced(f + "(" + args + ")")
  {
    Wrap("(", args, ")");
    BalancedConcat(f, "(" + args + ")");
    assert f + "(" + args + ")" == f + ("(" + args + ")");
  }

  /**
   * The printer wraps every prefix, infix and index expression in one pair of
   * parentheses, so the printed form of an operator tree is balanced.
   */
  lemma {:induction false} PrintedOperatorTreeBalanced(n: Node)
    requires OperatorTree(n)
    ensures Balanced(ToString(n))
    ensures n.PrefixExpression? || n.InfixExpression? || n.IndexExpression? ==>
      ToString(n)[0] == '(' && ToString(n)[|ToString(n)| - 1] == ')'
    decreases n
  {
    match n
    case PrefixExpression(_, op, right) =>
      PrintedOperatorTreeBalanced(right);
      PrefixBalanced(op, ToString(right));
    case InfixExpression(_, left, op, right) =>
      PrintedOperatorTreeBalanced(left);
      PrintedOperatorTreeBalanced(right);
      InfixBalanced(ToString(left), op, ToString(right));
    case IndexExpression(_, left, index) =>
      PrintedOperatorTreeBalanced(left);
      PrintedOperatorTreeBalanced(index);
      IndexBalanced(ToString(left), ToString(index));
    case CallExpression(_, f, args) =>
      PrintedOperatorTreeBalanced(f);
      var parts := seq(|args|, i requires 0 <= i < |args| => ToString(args[i]));
      forall i | 0 <= i < |args| ensures Balanced(parts[i]) {
        PrintedOperatorTreeBalanced(args[i]);
      }
      BalancedBasics();
      JoinBalanced(parts, ", ");
      CallBalanced(ToString(f), Join(parts, ", "));
    case ArrayLiteral(_, elems) =>
      var parts := seq(|elems|, i requires 0 <= i < |elems| => ToString(elems[i]));
      forall i | 0 <= i < |elems| ensures Balanced(parts[i]) {
        PrintedOperatorTreeBalanced(elems[i]);
      }
      BalancedBasics();
      JoinBalanced(parts, ", ");
      Wrap("[", Join(parts, ", "), "]");
    case _ =>
  }

  /** A program's literal comes from its first statement; with no statements it is empty. */
  lemma ProgramTokens(stmts: seq<Node>)
    ensures TokenLine(Program(stmts)) == 1
    ensures |stmts| == 0 ==> TokenLiteral(Program(stmts)) == ""
    ensures |stmts| > 0 ==> TokenLiteral(Program(stmts)) == TokenLiteral(stmts[0])
  {
  }

  /**
   * A program prints as its statements run together, as the source's loop
   * appends each statement's text; a block puts a comma between them, as
   * `join` does. Both print nothing when empty.
   */
  lemma ProgramAndBlockPrinting(tok: Token, stmts: seq<Node>, t: Node)
    ensures ToString(Program([])) == "" && ToString(BlockStatement(tok, [])) == ""
    ensures ToString(Program(stmts + [t])) == ToString(Program(stmts)) + ToString(t)
    ensures |stmts| == 0 ==> ToString(BlockStatement(tok, stmts + [t])) == ToString(t)
    ensures |stmts| > 0 ==> ToString(BlockStatement(tok, stmts + [t])) == ToString(BlockStatement(tok, stmts)) + "," + ToString(t)
  {
    var all := stmts + [t];
    var parts := seq(|stmts|, i requires 0 <= i < |stmts| => ToString(stmts[i]));
    var parts' := seq(|all|, i requires 0 <= i < |all| => ToString(all[i]));
    assert parts' == parts + [ToString(t)];
    ConcatAppend(parts, ToString(t));
    if |stmts| > 0 {
      JoinAppend(parts, ToString(t), ",");
    }
  }

  lemma {:induction false} ConcatAppend(parts: seq<string>, x: string)
    ensures Concat(parts + [x]) == Concat(parts) + x
  {
    if |parts| > 0 {
      assert (parts + [x])[1..] == parts[1..] + [x];
      ConcatAppend(parts[1..], x);
    }
  }

  lemma {:induction false} JoinAppend(parts: seq<string>, x: string, sep: string)
    requires |parts| > 0
    ensures Join(parts + [x], sep) == Join(parts, sep) + sep + x
  {
    if |parts| > 1 {
      assert (parts + [x])[1..] == parts[1..] + [x];
      JoinAppend(parts[1..], x, sep);
    }
  }

  /** `let myVar = anotherVar;` prints back as itself. */
  lemma LetPrinting()
    ensures ToString(LetStatement(Token(Let, "let", 1), Identifier(Token(Ident, "myVar", 1), "myVar"),
      Identifier(Token(Ident, "anotherVar", 1), "anotherVar"))) == "let myVar = anotherVar;"
  {
    var name := Identifier(Token(Ident, "myVar", 1), "myVar");
    var value := Identifier(Token(Ident, "anotherVar", 1), "anotherVar");
    assert ToString(name) == "myVar" && ToString(value) == "anotherVar";
    var s := "let" + " " + "myVar" + " = " + "anotherVar" + ";";
    assert ToString(LetStatement(Token(Let, "let", 1), name, value)) == s;
    assert s == "let myVar = anotherVar;";
  }
}
