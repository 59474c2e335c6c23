/**
 * Token kinds, the keyword table and the token record of the interpreter
 * (ts/src/token/index.ts).  The kind of a token is a string in the source;
 * here it is an enumeration together with the string the source uses for it.
 */
module Tokens {
  import opened Wrappers

  datatype Kind =
    | Illegal | EOF | Ident | Int | Float | Str
    | Assign | Eq | NotEq | Plus | Minus | Bang | Asterisk | Slash
    | Lt | Gt | Lte | Gte
    | Colon | Comma | Semicolon | LParen | RParen | LBrace | RBrace | LBracket | RBracket
    | Function | Let | True | False | If | Else | Return | Macro | While | For

  /** The string the source uses for each kind (operators and delimiters are spelled as the symbol). */
  function Spelling(k: Kind): string
  {
    match k
    case Illegal => "ILLEGAL"
    case EOF => "EOF"
    case Ident => "IDENT"
    case Int => "INT"
    case Float => "FLOAT"
    case Str => "STRING"
    case Assign => "="
    case Eq => "=="
    case NotEq => "!="
    case Plus => "+"
    case Minus => "-"
    case Bang => "!"
    case Asterisk => "*"
    case Slash => "/"
    case Lt => "<"
    case Gt => ">"
    case Lte => "<="
    case Gte => ">="
    case Colon => ":"
    case Comma => ","
    case Semicolon => ";"
    case LParen => "("
    case RParen => ")"
    case LBrace => "{"
    case RBrace => "}"
    case LBracket => "["
    case RBracket => "]"
    case Function => "FUNCTION"
    case Let => "LET"
    case True => "TRUE"
    case False => "FALSE"
    case If => "IF"
    case Else => "ELSE"
    case Return => "RETURN"
    case Macro => "MACRO"
    case While => "WHILE"
    case For => "FOR"
  }

  /** Kinds whose spelling is the symbol they stand for. */
  predicate IsSymbolKind(k: Kind)
  {
    k in {Assign, Eq, NotEq, Plus, Minus, Bang, Asterisk, Slash, Lt, Gt, Lte, Gte,
          Colon, Comma, Semicolon, LParen, RParen, LBrace, RBrace, LBracket, RBracket}
  }

  /** The kind a spelling names, if any: the inverse of Spelling. */
  function KindOf(s: string): (r: Option<Kind>)
  {
    if |s| == 0 then None
    else match s[0]
      case 'I' =>
        if s == "ILLEGAL" then Some(Illegal) else if s == "IDENT" then Some(Ident)
        else if s == "INT" then Some(Int) else if s == "IF" then Some(If) else None
      case 'E' => if s == "EOF" then Some(EOF) else if s == "ELSE" then Some(Else) else None
      case 'F' =>
        if s == "FLOAT" then Some(Float) else if s == "FUNCTION" then Some(Function)
        else if s == "FALSE" then Some(False) else if s == "FOR" then Some(For) else None
      case 'S' => if s == "STRING" then Some(Str) else None
      case 'L' => if s == "LET" then Some(Let) else None
      case 'T' => if s == "TRUE" then Some(True) else None
      case 'R' => if s == "RETURN" then Some(Return) else None
      case 'M' => if s == "MACRO" then Some(Macro) else None
      case 'W' => if s == "WHILE" then Some(While) else None
      case '=' => if s == "=" then Some(Assign) else if s == "==" then Some(Eq) else None
      case '!' => if s == "!" then Some(Bang) else if s == "!=" then Some(NotEq) else None
      case '<' => if s == "<" then Some(Lt) else if s == "<=" then Some(Lte) else None
      case '>' => if s == ">" then Some(Gt) else if s == ">=" then Some(Gte) else None
      case '+' => if s == "+" then Some(Plus) else None
      case '-' => if s == "-" then Some(Minus) else None
      case '*' => if s == "*" then Some(Asterisk) else None
      case '/' => if s == "/" then Some(Slash) else None
      case ':' => if s == ":" then Some(Colon) else None
      case ',' => if s == "," then Some(Comma) else None
      case ';' => if s == ";" then Some(Semicolon) else None
      case '(' => if s == "(" then Some(LParen) else None
      case ')' => if s == ")" then Some(RParen) else None
      case '{' => if s == "{" then Some(LBrace) else None
      case '}' => if s == "}" then Some(RBrace) else None
      case '[' => if s == "[" then Some(LBracket) else None
      case ']' => if s == "]" then Some(RBracket) else None
      case _ => None
  }

  /**
   * Every kind is spelled by a different string, so comparing spellings (as
   * the source does) is the same as comparing kinds.
   */
  lemma SpellingRoundTrip(k: Kind)
    ensures KindOf(Spelling(k)) == Some(k)
  {
  }

  lemma SpellingInjective(a: Kind, b: Kind)
    ensures Spelling(a) == Spelling(b) <==> a == b
  {
    SpellingRoundTrip(a);
    SpellingRoundTrip(b);
  }

  /**
   * Operator and delimiter kinds are spelled as a one- or two-character
   * symbol; every other kind is spelled as an upper-case name.
   */
  lemma SymbolSpelling(k: Kind)
    ensures IsSymbolKind(k) ==> 1 <= |Spelling(k)| <= 2
    ensures IsSymbolKind(k) <==> forall i :: 0 <= i < |Spelling(k)| ==> !('A' <= Spelling(k)[i] <= 'Z')
  {
    if !IsSymbolKind(k) {
      assert 'A' <= Spelling(k)[0] <= 'Z';
    }
  }

  /** There is no `break` kind: the word is not a spelling of any kind. */
  lemma NoBreakKind()
    ensures KindOf("BREAK") == None
  {
  }

  /** The keyword table. */
  const Keywords: map<string, Kind> :=
    map["fn" := Function, "let" := Let, "true" := True, "false" := False, "if" := If,
        "else" := Else, "return" := Return, "macro" := Macro, "while" := While, "for" := For]

  /**
   * The kind of an identifier-shaped word: its keyword kind, or IDENT, as
   * a lookup in a true map gives it. The scanners use this lookup; see
   * `LookupIdentAsWritten` for the TypeScript table read as written.
   */
  function LookupIdent(ident: string): (k: Kind)
  {
    if ident in Keywords then Keywords[ident] else Ident
  }

  /** Exactly the ten keywords map to something other than IDENT. */
  lemma LookupIdentKeywords(ident: string)
    ensures LookupIdent(ident) != Ident <==>
      ident in {"fn", "let", "true", "false", "if", "else", "return", "macro", "while", "for"}
  {
  }

  lemma LookupIdentExamples()
    ensures LookupIdent("fn") == Function && LookupIdent("macro") == Macro
    ensures LookupIdent("while") == While && LookupIdent("for") == For
    ensures LookupIdent("break") == Ident && LookupIdent("foobar") == Ident
  {
  }

  /**
   * The members every JavaScript object inherits from `Object.prototype`.
   * They are all identifier-shaped, so the scanner can produce each of them.
   */
  const InheritedMembers: set<string> :=
    {"constructor", "hasOwnProperty", "isPrototypeOf", "propertyIsEnumerable", "toLocaleString",
     "toString", "valueOf", "__proto__", "__defineGetter__", "__defineSetter__", "__lookupGetter__",
     "__lookupSetter__"}

  /** What reading a property of the keyword table gives: a kind, or an inherited member (a function or an object). */
  datatype TableEntry = KindEntry(kind: Kind) | InheritedEntry(member: string)

  /**
   * `lookupIdent` as written: a property read on a plain object, so a word
   * that is not a keyword but names an inherited member yields that member,
   * which is truthy and therefore returned instead of IDENT.
   */
  function LookupIdentAsWritten(ident: string): (e: TableEntry)
    ensures e.InheritedEntry? <==> ident !in Keywords && ident in InheritedMembers
  {
    if ident in Keywords then KindEntry(Keywords[ident])
    else if ident in InheritedMembers then InheritedEntry(ident)
    else KindEntry(Ident)
  }

  /**
   * The two lookups agree on every word except the inherited member names,
   * where the written one gives no token kind at all: `let toString = 1;`
   * does not get an IDENT token for `toString`.
   */
  lemma LookupIdentAsWrittenDiffers(ident: string)
    ensures LookupIdentAsWritten(ident) == KindEntry(LookupIdent(ident)) <==> ident !in InheritedMembers
    ensures LookupIdentAsWritten("toString") == InheritedEntry("toString") && LookupIdent("toString") == Ident
  {
    if ident in InheritedMembers {
      assert ident !in Keywords;
    }
  }

  datatype Token = Token(kind: Kind, literal: string, line: int)

  /** Builds a token carrying exactly the given kind, literal and line. */
  function NewToken(kind: Kind, literal: string, line: int): (t: Token)
    ensures t.kind == kind && t.literal == literal && t.line == line
  {
    Token(kind, literal, line)
  }
}
