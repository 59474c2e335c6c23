/**
 * The character scanner of the Go port (go/lexer/lexer.go).  Compared with
 * the TypeScript scanner it counts lines, knows `<=`, `>=`, `:`, brackets and
 * string literals, and its EOF token has an empty literal.  String escapes
 * are decoded by rewriting the input in place, so the input is a variable of
 * the scanner here as well.
 *
 * `GoScan(input, pos, line)` specifies one `NextToken` call; the class
 * `GoLexer` keeps the source's fields and is proved to follow it.
 */
module GoLexing {
  import opened Wrappers
  import opened Tokens
  import opened Lexing

  /** Whitespace skipping that also counts the newlines it passes. */
  function SkipLines(input: string, p: nat, line: int): (r: (nat, int))
    ensures r.0 == SkipSpaces(input, p)
    ensures r.1 == line + NewlinesBetween(input, p, r.0)
    decreases |input| - p
  {
    if IsWhitespace(CharAt(input, p)) then
      SkipLines(input, p + 1, if CharAt(input, p) == '\n' then line + 1 else line)
    else (p, line)
  }

  /** How many newline characters lie in [p, q). */
  function NewlinesBetween(input: string, p: nat, q: nat): (n: nat)
    ensures n <= if p <= q then q - p else 0
    decreases if p <= q then q - p else 0
  {
    if p >= q then 0
    else (if CharAt(input, p) == '\n' then 1 else 0) + NewlinesBetween(input, p + 1, q)
  }

  /** The character an escape `\c` inside a string stands for, if `c` is a recognised escape letter. */
  function Escape(c: char): (r: Option<char>)
  {
    if c == 'n' then Some('\n')
    else if c == 't' then Some('\t')
    else if c == '\\' then Some('\\')
    else if c == 'r' then Some('\r')
    else if c in {'v', '"', 'a', 'b', 'f'} then Some('\r')
    else None
  }

  /** No escape produces a quote or NUL, so decoding never ends or breaks a string. */
  lemma EscapeResults(c: char)
    ensures Escape(c).Some? ==> Escape(c).value in {'\n', '\t', '\\', '\r'}
    ensures Escape(c).Some? <==> c in {'n', 't', '\\', 'r', 'v', '"', 'a', 'b', 'f'}
  {
  }

  /**
   * The loop of `readString` started with the scanner at `p`: it returns the
   * rewritten input, the position it stopped at and whether the input ended
   * before a closing quote.
   */
  function StringLoop(input: string, p: nat): (r: (string, nat, bool))
    ensures p < r.1
    ensures !r.2 ==> r.1 < |r.0| && r.0[r.1] == '"'
    ensures r.2 ==> CharAt(r.0, r.1) == '\0'
    decreases |input| - p
  {
    var q := p + 1;
    var c := CharAt(input, q);
    var escape := if c == '\\' then Escape(CharAt(input, q + 1)) else None;
    var input' := if escape.Some? then input[..q] + [escape.value] + input[q + 2..] else input;
    if c == '\0' then (input', q, true)
    else if c == '"' then (input', q, false)
    else StringLoop(input', q)
  }

  /** Characters that are a token on their own in the Go scanner. */
  const GoSingles: map<char, Kind> :=
    map['+' := Plus, '-' := Minus, '/' := Slash, '*' := Asterisk, ':' := Colon,
        ';' := Semicolon, '(' := LParen, ')' := RParen, ',' := Comma, '{' := LBrace,
        '}' := RBrace, '[' := LBracket, ']' := RBracket]

  /** Characters that start a one- or two-character operator, with both kinds. */
  const OneOrTwo: map<char, (Kind, Kind)> :=
    map['=' := (Assign, Eq), '!' := (Bang, NotEq), '<' := (Lt, Lte), '>' := (Gt, Gte)]

  datatype Step = Step(tok: Token, input: string, next: nat, line: int)

  /** One `NextToken` call at `pos` with line counter `line`. */
  function GoScan(input: string, pos: nat, line: int): Step
  {
    var (p, l) := SkipLines(input, pos, line);
    GoScanAt(input, p, l)
  }

  /** The token that starts at `p`, once whitespace is skipped. */
  function GoScanAt(input: string, p: nat, l: int): Step
  {
    var c := CharAt(input, p);
    if c in OneOrTwo then
      if CharAt(input, p + 1) == '=' then Step(Token(OneOrTwo[c].1, [c, '='], l), input, p + 2, l)
      else Step(Token(OneOrTwo[c].0, [c], l), input, p + 1, l)
    else if c == '"' then
      var (input', q, err) := StringLoop(input, p);
      if err then Step(Token(Illegal, ['\0'], l), input', q + 1, l)
      else Step(Token(Str, input'[p + 1..q], l), input', q + 1, l)
    else if c in GoSingles then Step(Token(GoSingles[c], [c], l), input, p + 1, l)
    else if c == '\0' then Step(Token(EOF, "", l), input, p + 1, l)
    else if IsLetter(c) then
      var q := IdentEnd(input, p);
      Step(Token(LookupIdent(input[p..q]), input[p..q], l), input, q, l)
    else if IsDigit(c) then
      var q := NumberEnd(input, p);
      Step(Token(if '.' in input[p..q] then Float else Int, input[p..q], l), input, q, l)
    else Step(Token(Illegal, [c], l), input, p + 1, l)
  }

  /**
   * The line counter grows by exactly the number of newlines skipped as
   * whitespace before the token; the token carries the counter's new value.
   */
  lemma GoScanLines(input: string, pos: nat, line: int)
    ensures var st := GoScan(input, pos, line);
      var p := SkipSpaces(input, pos);
      && st.line == line + NewlinesBetween(input, pos, p)
      && st.tok.line == st.line
      && st.line >= line
  {
  }

  /** The reference decoding of the text between the quotes of a string literal. */
  function Unescape(raw: string): (s: string)
    ensures |s| <= |raw|
  {
    if raw == [] then []
    else if raw[0] == '\\' && |raw| >= 2 && Escape(raw[1]).Some? then [Escape(raw[1]).value] + Unescape(raw[2..])
    else [raw[0]] + Unescape(raw[1..])
  }

  /**
   * Text that the string loop reads up to the quote after it without
   * stopping early: a run of escape units, each either a recognised pair
   * `\c` (which may be `\"`) or one character that is neither a quote nor
   * NUL nor a backslash starting a recognised pair. A backslash at the very
   * end would pair with the closing quote, so it is not a unit.
   */
  predicate StringBody(raw: string)
    decreases |raw|
  {
    if raw == [] then true
    else if raw[0] == '\\' && |raw| >= 2 && Escape(raw[1]).Some? then StringBody(raw[2..])
    else
      && raw[0] != '"' && raw[0] != '\0'
      && (raw[0] == '\\' ==> |raw| >= 2)
      && StringBody(raw[1..])
  }

  /** One turn of the string loop over an escape sequence: it writes the decoded character. */
  lemma EscapeStep(pre: string, raw: string, rest: string)
    requires |pre| > 0 && StringBody(raw) && |raw| >= 2 && raw[0] == '\\'
    requires Escape(raw[1]).Some?
    ensures var x := Escape(raw[1]).value;
      && StringBody(raw[2..])
      && StringLoop(pre + raw + ['"'] + rest, |pre| - 1) == StringLoop((pre + [x]) + raw[2..] + ['"'] + rest, |pre + [x]| - 1)
      && pre + Unescape(raw) == (pre + [x]) + Unescape(raw[2..])
  {
    var input := pre + raw + ['"'] + rest;
    var q := |pre|;
    var x := Escape(raw[1]).value;
    assert CharAt(input, q) == raw[0];
    assert CharAt(input, q + 1) == raw[1];
    assert input[..q] + [x] + input[q + 2..] == (pre + [x]) + raw[2..] + ['"'] + rest;
    assert Unescape(raw) == [x] + Unescape(raw[2..]);
  }

  /** One turn of the string loop over any other character: it is kept. */
  lemma PlainStep(pre: string, raw: string, rest: string)
    requires |pre| > 0 && StringBody(raw) && |raw| > 0
    requires raw[0] == '\\' && |raw| >= 2 ==> Escape(raw[1]).None?
    ensures && StringBody(raw[1..])
      && StringLoop(pre + raw + ['"'] + rest, |pre| - 1) == StringLoop((pre + [raw[0]]) + raw[1..] + ['"'] + rest, |pre + [raw[0]]| - 1)
      && pre + Unescape(raw) == (pre + [raw[0]]) + Unescape(raw[1..])
  {
    var input := pre + raw + ['"'] + rest;
    var q := |pre|;
    assert CharAt(input, q) == raw[0];
    assert raw[0] == '\\' ==> CharAt(input, q + 1) == raw[1];
    assert input == (pre + [raw[0]]) + raw[1..] + ['"'] + rest;
    assert Unescape(raw) == [raw[0]] + Unescape(raw[1..]);
  }

  /**
   * The loop of `readString` decodes the body in place: it leaves everything
   * before the body as it was, writes the decoded body and stops on the
   * closing quote.
   */
  lemma {:induction false} StringLoopDecodes(pre: string, raw: string, rest: string)
    requires |pre| > 0 && StringBody(raw)
    ensures StringLoop(pre + raw + ['"'] + rest, |pre| - 1) ==
      (pre + Unescape(raw) + ['"'] + rest, |pre| + |Unescape(raw)|, false)
    decreases |raw|, 1
  {
    if raw == [] {
      assert CharAt(pre + raw + ['"'] + rest, |pre|) == '"';
    } else if raw[0] == '\\' && |raw| >= 2 && Escape(raw[1]).Some? {
      EscapeDecodes(pre, raw, rest);
    } else {
      PlainDecodes(pre, raw, rest);
    }
  }

  /** `StringLoopDecodes` on a body that starts with a recognised escape pair. */
  lemma {:induction false} EscapeDecodes(pre: string, raw: string, rest: string)
    requires |pre| > 0 && StringBody(raw) && |raw| >= 2 && raw[0] == '\\' && Escape(raw[1]).Some?
    ensures StringLoop(pre + raw + ['"'] + rest, |pre| - 1) ==
      (pre + Unescape(raw) + ['"'] + rest, |pre| + |Unescape(raw)|, false)
    decreases |raw|, 0
  {
    EscapeStep(pre, raw, rest);
    var pre' := pre + [Escape(raw[1]).value];
    StringLoopDecodes(pre', raw[2..], rest);
    assert pre' + Unescape(raw[2..]) == pre + Unescape(raw);
  }

  /** `StringLoopDecodes` on a body that starts with a character kept as it is. */
  lemma {:induction false} PlainDecodes(pre: string, raw: string, rest: string)
    requires |pre| > 0 && StringBody(raw) && |raw| > 0
    requires raw[0] == '\\' && |raw| >= 2 ==> Escape(raw[1]).None?
    ensures StringLoop(pre + raw + ['"'] + rest, |pre| - 1) ==
      (pre + Unescape(raw) + ['"'] + rest, |pre| + |Unescape(raw)|, false)
    decreases |raw|, 0
  {
    PlainStep(pre, raw, rest);
    var pre' := pre + [raw[0]];
    StringLoopDecodes(pre', raw[1..], rest);
    assert pre' + Unescape(raw[1..]) == pre + Unescape(raw);
  }

  /**
   * A quoted string whose body is a run of escape units scans to a STRING token whose literal is the decoded body, at
   * the current line; the scanner stops just after the closing quote.
   */
  lemma ScanString(pre: string, raw: string, rest: string, line: int)
    requires StringBody(raw)
    ensures var st := GoScan(pre + ['"'] + raw + ['"'] + rest, |pre|, line);
      && st.tok == Token(Str, Unescape(raw), line)
      && st.input == pre + ['"'] + Unescape(raw) + ['"'] + rest
      && st.next == |pre| + |Unescape(raw)| + 2
      && st.line == line
  {
    var input := pre + ['"'] + raw + ['"'] + rest;
    assert CharAt(input, |pre|) == '"';
    assert SkipLines(input, |pre|, line) == (|pre|, line);
    assert input == (pre + ['"']) + raw + ['"'] + rest;
    StringLoopDecodes(pre + ['"'], raw, rest);
    var out := (pre + ['"']) + Unescape(raw) + ['"'] + rest;
    assert out[|pre| + 1..|pre| + 1 + |Unescape(raw)|] == Unescape(raw);
    assert GoScan(input, |pre|, line) == GoScanAt(input, |pre|, line);
  }

  /** `"a\"b"`: the escaped quote does not end the string, and decodes as the other escapes outside `n t \ r` do. */
  lemma EscapedQuoteInString(line: int)
    ensures GoScan("\"a\\\"b\"", 0, line).tok == Token(Str, "a\rb", line)
  {
    var raw := "a\\\"b";
    assert StringBody(raw) by {
      assert StringBody(raw[1..]) by {
        assert raw[1..][2..] == "b";
        assert StringBody("b") by { assert "b"[1..] == []; }
      }
    }
    assert Unescape(raw) == "a\rb" by {
      assert raw[1..][2..] == "b";
      assert Unescape("b") == "b" by { assert "b"[1..] == []; }
    }
    assert [] + ['"'] + raw + ['"'] + [] == "\"a\\\"b\"";
    ScanString([], raw, [], line);
  }

  /**
   * When no quote follows, the string loop runs into the end of the input:
   * the token is ILLEGAL with a NUL literal.
   */
  lemma {:induction false} StringLoopUnterminated(pre: string, raw: string)
    requires |pre| > 0 && forall i :: 0 <= i < |raw| ==> raw[i] != '"'
    ensures StringLoop(pre + raw, |pre| - 1).2
    decreases |raw|
  {
    var input := pre + raw;
    var q := |pre|;
    if raw != [] && raw[0] != '\0' {
      assert CharAt(input, q) == raw[0];
      if raw[0] == '\\' && Escape(CharAt(input, q + 1)).Some? {
        var x := Escape(CharAt(input, q + 1)).value;
        EscapeResults(CharAt(input, q + 1));
        assert input[..q] + [x] + input[q + 2..] == (pre + [x]) + raw[2..];
        StringLoopUnterminated(pre + [x], raw[2..]);
      } else {
        assert input == (pre + [raw[0]]) + raw[1..];
        StringLoopUnterminated(pre + [raw[0]], raw[1..]);
      }
    } else if raw != [] {
      assert CharAt(input, q) == '\0';
    }
  }

  lemma ScanUnterminatedString(pre: string, raw: string, line: int)
    requires forall i :: 0 <= i < |raw| ==> raw[i] != '"'
    ensures GoScan(pre + ['"'] + raw, |pre|, line).tok == Token(Illegal, ['\0'], line)
  {
    var input := pre + ['"'] + raw;
    assert CharAt(input, |pre|) == '"';
    assert SkipLines(input, |pre|, line) == (|pre|, line);
    assert input == (pre + ['"']) + raw;
    StringLoopUnterminated(pre + ['"'], raw);
  }

  /** `==`, `!=`, `<=`, `>=` are chosen by one character of lookahead. */
  lemma GoScanOperators(input: string, pos: nat, line: int)
    requires CharAt(input, SkipSpaces(input, pos)) in {'=', '!', '<', '>'}
    ensures var p := SkipSpaces(input, pos);
      var t := GoScan(input, pos, line).tok;
      if CharAt(input, p + 1) == '=' then |t.literal| == 2 && t.literal[1] == '=' && t.kind in {Eq, NotEq, Lte, Gte}
      else |t.literal| == 1 && t.kind in {Assign, Bang, Lt, Gt}
  {
  }

  /** Past the end of the input: EOF with an empty literal, at the current line. */
  lemma GoScanAtEnd(input: string, pos: nat, line: int)
    requires pos >= |input|
    ensures GoScan(input, pos, line) == Step(Token(EOF, "", line), input, pos + 1, line)
  {
  }

  /** Identifiers and numbers are scanned as in the TypeScript scanner, with the current line. */
  lemma GoScanAgreesOnWords(input: string, pos: nat, line: int)
    requires IsLetterOrDigit(CharAt(input, SkipSpaces(input, pos)))
    ensures var st := GoScan(input, pos, line);
      var (t, next) := Scan(input, pos);
      && st.tok == Token(t.kind, t.literal, st.line)
      && st.next == next && st.input == input
  {
  }

  /** The Go scanner object; `ch` is the character at `position` between calls. */
  class GoLexer {
    var input: string
    var position: nat
    var readPosition: nat
    var ch: char
    var lineNumber: int

    ghost predicate Valid()
      reads this
    {
      readPosition == position + 1 && ch == CharAt(input, position)
    }

    /** `New`: the line counter starts at 1 and the first character is read. */
    constructor (input: string)
      ensures Valid() && this.input == input && position == 0 && lineNumber == 1
    {
      this.input := input;
      position, readPosition, ch, lineNumber := 0, 0, '\0', 1;
      new;
      ReadChar();
    }

    method ReadChar()
      modifies this`ch, this`position, this`readPosition
      ensures position == old(readPosition) && readPosition == position + 1
      ensures ch == CharAt(input, position)
    {
      if readPosition >= |input| {
        ch := '\0';
      } else {
        ch := input[readPosition];
      }
      position := readPosition;
      readPosition := readPosition + 1;
    }

    function PeekChar(): (c: char)
      reads this
      ensures c == CharAt(input, readPosition)
    {
      if readPosition >= |input| then '\0' else input[readPosition]
    }

    method SkipWhitespace()
      requires Valid()
      modifies this`ch, this`position, this`readPosition, this`lineNumber
      ensures Valid() && (position, lineNumber) == SkipLines(input, old(position), old(lineNumber))
    {
      while ch == ' ' || ch == '\t' || ch == '\n' || ch == '\r'
        invariant Valid()
        invariant SkipLines(input, position, lineNumber) == SkipLines(input, old(position), old(lineNumber))
        decreases |input| - position
      {
        if ch == '\n' {
          lineNumber := lineNumber + 1;
        }
        ReadChar();
      }
    }

    method ReadIdentifier() returns (s: string)
      requires Valid() && IsLetter(ch)
      modifies this`ch, this`position, this`readPosition
      ensures Valid() && position == IdentEnd(input, old(position))
      ensures old(position) <= position <= |input| && s == input[old(position)..position]
    {
      var start := position;
      if IsLetter(ch) {
        ReadChar();
      }
      while IsLetterOrDigit(ch)
        invariant Valid() && start < position
        invariant IdentEnd(input, position) == IdentEnd(input, start)
        decreases |input| - position
      {
        ReadChar();
      }
      s := input[start..position];
    }

    method ReadNumber() returns (s: string)
      requires Valid() && IsDigit(ch)
      modifies this`ch, this`position, this`readPosition
      ensures Valid() && position == NumberEnd(input, old(position))
      ensures old(position) <= position <= |input| && s == input[old(position)..position]
    {
      var start := position;
      while IsDigit(ch)
        invariant Valid() && start <= position
        invariant DigitsEnd(input, position) == DigitsEnd(input, start)
        decreases |input| - position
      {
        ReadChar();
      }
      if ch == '.' && IsDigit(PeekChar()) {
        ReadChar();
        ghost var dot := position;
        while IsDigit(ch)
          invariant Valid() && dot <= position
          invariant DigitsEnd(input, position) == DigitsEnd(input, dot)
          decreases |input| - position
        {
          ReadChar();
        }
      }
      s := input[start..position];
    }

    /**
     * Reads a string literal whose opening quote is the current character,
     * decoding escapes by rewriting the input.
     */
    method ReadString() returns (s: string, isErr: bool)
      requires Valid()
      modifies this`ch, this`position, this`readPosition, this`input
      ensures Valid()
      ensures (input, position, isErr) == StringLoop(old(input), old(position))
      ensures s == if isErr then "" else input[old(position) + 1..position]
    {
      var start := position + 1;
      while true
        invariant readPosition == position + 1 && start == old(position) + 1
        invariant StringLoop(input, position) == StringLoop(old(input), old(position))
        decreases |input| - position
      {
        ReadChar();
        if ch == '\\' {
          var escape := Escape(PeekChar());
          if escape.Some? {
            input := input[..position] + [escape.value] + input[position + 2..];
          }
        }
        if ch == '\0' {
          return "", true;
        }
        if ch == '"' {
          break;
        }
      }
      s, isErr := input[start..position], false;
    }

    /** One token; the scanner moves to where `GoScan` says. */
    method NextToken() returns (tok: Token)
      requires Valid()
      modifies this
      ensures Valid()
      ensures GoScan(old(input), old(position), old(lineNumber)) == Step(tok, input, position, lineNumber)
    {
      SkipWhitespace();
      tok := ScanToken();
    }

    /** The rest of `NextToken`, on the first character after the whitespace. */
    method ScanToken() returns (tok: Token)
      requires Valid()
      modifies this`ch, this`position, this`readPosition, this`input
      ensures Valid()
      ensures GoScanAt(old(input), old(position), lineNumber) == Step(tok, input, position, lineNumber)
    {
      if ch in OneOrTwo {
        if PeekChar() == '=' {
          var c := ch;
          ReadChar();
          tok := Token(OneOrTwo[c].1, [c] + [ch], lineNumber);
        } else {
          tok := NewToken(OneOrTwo[ch].0, [ch], lineNumber);
        }
      } else if ch == '"' {
        var str, isErr := ReadString();
        if isErr {
          tok := NewToken(Illegal, [ch], lineNumber);
        } else {
          tok := Token(Str, str, lineNumber);
        }
      } else if ch in GoSingles {
        tok := NewToken(GoSingles[ch], [ch], lineNumber);
      } else if ch == '\0' {
        tok := Token(EOF, "", lineNumber);
      } else if IsLetter(ch) {
        var literal := ReadIdentifier();
        tok := Token(LookupIdent(literal), literal, lineNumber);
        return;
      } else if IsDigit(ch) {
        var literal := ReadNumber();
        tok := Token(if '.' in literal then Float else Int, literal, lineNumber);
        return;
      } else {
        tok := NewToken(Illegal, [ch], lineNumber);
      }
      ReadChar();
    }
  }
}
