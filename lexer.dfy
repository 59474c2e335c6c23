/**
 * The character scanner of the TypeScript interpreter (ts/src/lexer/index.ts),
 * and the character classes and run-scanning functions it shares with the Go
 * scanner (go/lexer/lexer.go).
 *
 * `Scan(input, pos)` is the specification of one call of `nextToken` made
 * while the lexer stands at `pos`: the token it returns and the position it
 * leaves the lexer at.  The class `Lexer` keeps the source's fields and is
 * proved to follow `Scan`.
 */
module Lexing {
  import opened Tokens

  /** The TypeScript scanner passes no line to `newToken`; its tokens carry this line. */
  const NoLine: int := 0

  /** The character at `i`, or NUL past the end (what `readChar` stores in `ch`). */
  function CharAt(input: string, i: nat): char
  {
    if i < |input| then input[i] else '\0'
  }

  predicate IsLetter(c: char)
  {
    ('a' <= c <= 'z') || ('A' <= c <= 'Z') || c == '_'
  }

  predicate IsDigit(c: char)
  {
    '0' <= c <= '9'
  }

  predicate IsLetterOrDigit(c: char)
  {
    IsLetter(c) || IsDigit(c)
  }

  predicate IsWhitespace(c: char)
  {
    c == ' ' || c == '\t' || c == '\n' || c == '\r'
  }

  /** The first position at or after `p` that does not hold a whitespace character. */
  function SkipSpaces(input: string, p: nat): (q: nat)
    ensures p <= q
    ensures !IsWhitespace(CharAt(input, q))
    ensures q == p || q <= |input|
    ensures forall i :: p <= i < q ==> IsWhitespace(CharAt(input, i))
    decreases |input| - p
  {
    if IsWhitespace(CharAt(input, p)) then SkipSpaces(input, p + 1) else p
  }

  /** The end of the maximal run of letters and digits that starts at `p`. */
  function IdentEnd(input: string, p: nat): (q: nat)
    ensures p <= q
    ensures !IsLetterOrDigit(CharAt(input, q))
    ensures q == p || q <= |input|
    ensures forall i :: p <= i < q ==> IsLetterOrDigit(CharAt(input, i))
    decreases |input| - p
  {
    if IsLetterOrDigit(CharAt(input, p)) then IdentEnd(input, p + 1) else p
  }

  /** The end of the maximal run of digits that starts at `p`. */
  function DigitsEnd(input: string, p: nat): (q: nat)
    ensures p <= q
    ensures !IsDigit(CharAt(input, q))
    ensures q == p || q <= |input|
    ensures forall i :: p <= i < q ==> IsDigit(CharAt(input, i))
    decreases |input| - p
  {
    if IsDigit(CharAt(input, p)) then DigitsEnd(input, p + 1) else p
  }

  /** A digit run, then a `.` and a second digit run when a digit follows the `.`. */
  function NumberEnd(input: string, p: nat): (q: nat)
    ensures p <= q && (q == p || q <= |input|)
    ensures forall i :: p <= i < q ==> IsDigit(CharAt(input, i)) || CharAt(input, i) == '.'
  {
    var q := DigitsEnd(input, p);
    if CharAt(input, q) == '.' && IsDigit(CharAt(input, q + 1)) then DigitsEnd(input, q + 1) else q
  }

  /** Characters that are a token on their own in the TypeScript scanner. */
  const Singles: map<char, Kind> :=
    map['+' := Plus, '-' := Minus, '/' := Slash, '*' := Asterisk, '<' := Lt, '>' := Gt,
        ';' := Semicolon, '(' := LParen, ')' := RParen, ',' := Comma, '{' := LBrace, '}' := RBrace]

  /** The token and the next position of one `nextToken` call made at `pos`. */
  function Scan(input: string, pos: nat): (Token, nat)
  {
    var p := SkipSpaces(input, pos);
    var c := CharAt(input, p);
    if c == '=' then
      if CharAt(input, p + 1) == '=' then (Token(Eq, "==", NoLine), p + 2) else (Token(Assign, "=", NoLine), p + 1)
    else if c == '!' then
      if CharAt(input, p + 1) == '=' then (Token(NotEq, "!=", NoLine), p + 2) else (Token(Bang, "!", NoLine), p + 1)
    else if c in Singles then (Token(Singles[c], [c], NoLine), p + 1)
    else if c == '\0' then (Token(EOF, "EOF", NoLine), p + 1)
    else if IsLetter(c) then
      var q := IdentEnd(input, p);
      (Token(LookupIdent(input[p..q]), input[p..q], NoLine), q)
    else if IsDigit(c) then
      var q := NumberEnd(input, p);
      (Token(if '.' in input[p..q] then Float else Int, input[p..q], NoLine), q)
    else (Token(Illegal, [c], NoLine), p + 1)
  }

  /** The scanner always moves forward, and stays within the input until it reports EOF. */
  lemma ScanAdvances(input: string, pos: nat)
    ensures Scan(input, pos).1 > pos
    ensures Scan(input, pos).0.kind != EOF ==> Scan(input, pos).1 <= |input|
  {
    var p := SkipSpaces(input, pos);
    var c := CharAt(input, p);
    if IsDigit(c) {
      assert DigitsEnd(input, p) > p by { assert IsDigit(CharAt(input, p)); }
    }
  }

  /** Past the end of the input the scanner returns EOF, literal "EOF", forever. */
  lemma ScanAtEnd(input: string, pos: nat)
    requires pos >= |input|
    ensures Scan(input, pos) == (Token(EOF, "EOF", NoLine), pos + 1)
  {
  }

  /** Whitespace never reaches a literal; the token starts after the skipped whitespace. */
  lemma ScanSkipsWhitespace(input: string, pos: nat)
    ensures forall i :: 0 <= i < |Scan(input, pos).0.literal| ==> !IsWhitespace(Scan(input, pos).0.literal[i])
  {
    var p := SkipSpaces(input, pos);
    var c := CharAt(input, p);
    if IsLetter(c) {
      ScanIdentifier(input, pos);
    } else if IsDigit(c) {
      ScanNumber(input, pos);
    }
  }

  /**
   * An identifier token's literal is a maximal run of letters and digits
   * starting with a letter, and its kind is the keyword lookup of the literal.
   */
  lemma ScanIdentifier(input: string, pos: nat)
    requires IsLetter(CharAt(input, SkipSpaces(input, pos)))
    ensures var (t, next) := Scan(input, pos);
      && t.kind == LookupIdent(t.literal)
      && |t.literal| > 0 && IsLetter(t.literal[0])
      && (forall i :: 0 <= i < |t.literal| ==> IsLetterOrDigit(t.literal[i]))
      && next <= |input| && t.literal == input[next - |t.literal|..next]
      && !IsLetterOrDigit(CharAt(input, next))
  {
    var p := SkipSpaces(input, pos);
    var q := IdentEnd(input, p);
    assert q > p;
    forall i | 0 <= i < q - p
      ensures IsLetterOrDigit(input[p..q][i])
    {
      assert input[p..q][i] == CharAt(input, p + i);
    }
  }

  /** The shape of a number literal: digits, optionally one `.` and digits. */
  lemma NumberShape(input: string, p: nat)
    requires IsDigit(CharAt(input, p))
    ensures var q := NumberEnd(input, p);
      && p < q <= |input| && IsDigit(CharAt(input, q - 1))
      && (forall i :: p <= i < q ==> IsDigit(CharAt(input, i)) || CharAt(input, i) == '.')
      && (forall i, j :: p <= i < j < q ==> !(CharAt(input, i) == '.' && CharAt(input, j) == '.'))
  {
    var d := DigitsEnd(input, p);
    assert d > p;
    if CharAt(input, d) == '.' && IsDigit(CharAt(input, d + 1)) {
      var q := DigitsEnd(input, d + 1);
      assert q > d + 1;
      assert forall i :: p <= i < q && i != d ==> IsDigit(CharAt(input, i));
    }
  }

  /**
   * A number token is a digit run optionally followed by `.` and at least one
   * digit; it is FLOAT exactly when its literal contains a `.`.
   */
  lemma ScanNumber(input: string, pos: nat)
    requires IsDigit(CharAt(input, SkipSpaces(input, pos)))
    ensures var (t, next) := Scan(input, pos);
      && (t.kind == Float <==> '.' in t.literal)
      && t.kind in {Int, Float}
      && |t.literal| > 0 && IsDigit(t.literal[0]) && IsDigit(t.literal[|t.literal| - 1])
      && (forall i :: 0 <= i < |t.literal| ==> IsDigit(t.literal[i]) || t.literal[i] == '.')
      && next <= |input| && t.literal == input[next - |t.literal|..next]
  {
    var p := SkipSpaces(input, pos);
    NumberShape(input, p);
    var q := NumberEnd(input, p);
    var lit := input[p..q];
    forall i | 0 <= i < |lit|
      ensures IsDigit(lit[i]) || lit[i] == '.'
    {
      assert lit[i] == CharAt(input, p + i);
    }
    assert lit[|lit| - 1] == CharAt(input, q - 1);
    assert Scan(input, pos) == (Token(if '.' in lit then Float else Int, lit, NoLine), q);
  }

  /** `==` and `!=` take one character of lookahead; `=` and `!` alone are ASSIGN and BANG. */
  lemma ScanEqualsAndBang(input: string, pos: nat)
    requires CharAt(input, SkipSpaces(input, pos)) in {'=', '!'}
    ensures var p := SkipSpaces(input, pos);
      var t := Scan(input, pos).0;
      if CharAt(input, p + 1) == '=' then t.literal == [input[p], '='] && t.kind in {Eq, NotEq}
      else t.literal == [input[p]] && t.kind in {Assign, Bang}
  {
  }

  /**
   * `<`, `>` are always one-character tokens, and the characters the Go
   * scanner knows but this one does not (quote, brackets, colon) are ILLEGAL.
   */
  lemma ScanSingleCharacters(input: string, pos: nat)
    requires CharAt(input, SkipSpaces(input, pos)) in {'<', '>', '"', '[', ']', ':'}
    ensures var c := CharAt(input, SkipSpaces(input, pos));
      var (t, next) := Scan(input, pos);
      && t.literal == [c] && next == SkipSpaces(input, pos) + 1
      && (c == '<' ==> t.kind == Lt) && (c == '>' ==> t.kind == Gt)
      && (c in {'"', '[', ']', ':'} ==> t.kind == Illegal)
  {
  }

  /** All tokens of an input, from `pos` up to and including the first EOF. */
  function Tokenize(input: string, pos: nat): (ts: seq<Token>)
    requires pos <= |input|
    ensures |ts| > 0 && ts[|ts| - 1].kind == EOF
    ensures forall i :: 0 <= i < |ts| - 1 ==> ts[i].kind != EOF
    decreases |input| - pos
  {
    ScanAdvances(input, pos);
    var (t, next) := Scan(input, pos);
    if t.kind == EOF then [t] else [t] + Tokenize(input, next)
  }

  /** The scanner object: `ch` is always the character at `position`. */
  class Lexer {
    const input: string
    var position: nat
    var readPosition: nat
    var ch: char

    ghost predicate Valid()
      reads this
    {
      readPosition == position + 1 && ch == CharAt(input, position)
    }

    constructor (input: string)
      ensures Valid() && this.input == input && position == 0
    {
      this.input := input;
      position, readPosition, ch := 0, 0, '\0';
      new;
      ReadChar();
    }

    /** Moves one character on; NUL past the end. */
    method ReadChar()
      modifies this
      ensures position == old(readPosition) && readPosition == position + 1
      ensures ch == CharAt(input, position)
    {
      if readPosition >= |input| {
        ch := '\0';
      } else {
        ch := input[readPosition];
      }
      position := readPosition;
      readPosition := readPosition + 1;
    }

    /** The character after the current one, without moving. */
    function PeekChar(): (c: char)
      reads this
      requires Valid()
      ensures c == CharAt(input, position + 1)
    {
      if readPosition >= |input| then '\0' else input[readPosition]
    }

    method SkipWhiteSpace()
      requires Valid()
      modifies this
      ensures Valid() && position == SkipSpaces(input, old(position))
    {
      while ch == ' ' || ch == '\t' || ch == '\n' || ch == '\r'
        invariant Valid() && old(position) <= position
        invariant SkipSpaces(input, position) == SkipSpaces(input, old(position))
        decreases |input| - position
      {
        ReadChar();
      }
    }

    method ReadNumber() returns (s: string)
      requires Valid() && IsDigit(ch)
      modifies this
      ensures Valid() && position == NumberEnd(input, old(position))
      ensures old(position) <= position <= |input| && s == input[old(position)..position]
    {
      var start := position;
      while IsDigit(ch)
        invariant Valid() && start <= position
        invariant DigitsEnd(input, position) == DigitsEnd(input, start)
        decreases |input| - position
      {
        ReadChar();
      }
      if ch == '.' && IsDigit(PeekChar()) {
        ReadChar();
        ghost var dot := position;
        while IsDigit(ch)
          invariant Valid() && dot <= position
          invariant DigitsEnd(input, position) == DigitsEnd(input, dot)
          decreases |input| - position
        {
          ReadChar();
        }
      }
      s := input[start..position];
    }

    method ReadIdentifier() returns (s: string)
      requires Valid() && IsLetter(ch)
      modifies this
      ensures Valid() && position == IdentEnd(input, old(position))
      ensures old(position) <= position <= |input| && s == input[old(position)..position]
    {
      var start := position;
      if IsLetter(ch) {
        ReadChar();
      }
      while IsLetterOrDigit(ch)
        invariant Valid() && start < position
        invariant IdentEnd(input, position) == IdentEnd(input, start)
        decreases |input| - position
      {
        ReadChar();
      }
      s := input[start..position];
    }

    /** One token; the lexer moves to where `Scan` says. */
    method NextToken() returns (tok: Token)
      requires Valid()
      modifies this
      ensures Valid() && (tok, position) == Scan(input, old(position))
    {
      SkipWhiteSpace();
      ghost var p := position;
      assert p == SkipSpaces(input, old(position));
      if ch == '=' {
        if PeekChar() == '=' {
          var c := ch;
          ReadChar();
          tok := NewToken(Eq, [c] + [ch], NoLine);
        } else {
          tok := NewToken(Assign, [ch], NoLine);
        }
      } else if ch == '!' {
        if PeekChar() == '=' {
          var c := ch;
          ReadChar();
          tok := NewToken(NotEq, [c] + [ch], NoLine);
        } else {
          tok := NewToken(Bang, [ch], NoLine);
        }
      } else if ch in Singles {
        tok := NewToken(Singles[ch], [ch], NoLine);
      } else if ch == '\0' {
        tok := NewToken(EOF, "EOF", NoLine);
      } else if IsLetter(ch) {
        var literal := ReadIdentifier();
        tok := NewToken(LookupIdent(literal), literal, NoLine);
        assert (tok, position) == Scan(input, old(position));
        return;
      } else if IsDigit(ch) {
        var kind := Int;
        var literal := ReadNumber();
        if '.' in literal {
          kind := Float;
        }
        tok := NewToken(kind, literal, NoLine);
        assert (tok, position) == Scan(input, old(position));
        return;
      } else {
        tok := NewToken(Illegal, [ch], NoLine);
      }
      assert tok == Scan(input, old(position)).0;
      assert position + 1 == Scan(input, old(position)).1;
      ReadChar();
    }
  }
}
