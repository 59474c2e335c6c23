# Monkey interpreter core, modelled in Dafny

This project models the core of a tree-walking interpreter for the Monkey
language, written in TypeScript, together with the partial Go port that sits
beside it. The model covers:

- the tokens and both lexers (TypeScript and Go);
- the AST with its printer (`toString`, `tokenLiteral`, `tokenLine`);
- the Pratt parser, as pure functions over a cursor (`Parsing`) and as the
  `Parser` class whose `while` loops are proved equal to those functions
  (`ParserObject`);
- the object model: values, `inspect`, hash keys and the insertion-ordered
  hash map;
- the TypeScript and Go environments;
- the TypeScript evaluator with its builtins, `quote`/`unquote` and macro
  definition and expansion;
- the Go evaluator;
- `modify` in both dialects.

The evaluator runs on an explicit state:

- a heap of objects addressed by references, so that `==` on non-numbers can
  be object identity and `add` can update a hash in place;
- an arena of environment frames, each with its own store and the index of
  its enclosing frame.

Evaluation is a function with a `fuel` bound. The loops of the source
(`evalProgram`, `evalBlockStatement`, `evalExpressions`, `evalHashLiteral`,
`extendFunctionEnv`, `evalWhileStatement`, `defineMacros`, `quoteArgs`) also
exist as methods with `while` loops, each proved equal to its function.

The lexers are classes whose fields (`position`, `readPosition`, `ch`, and in
Go also `lineNumber` and the input) change in place. Each method is proved
equal to a scanning function.

The source has a few quirks. The model keeps them as written, except where an item says otherwise:

- The Go lexer turns the escapes `\v`, `\"`, `\a`, `\b` and `\f` into a
  carriage return.
- The TypeScript keyword lookup reads a plain object, so a word such as
  `toString` is not an identifier there. This is modelled beside the
  intended lookup, and the lexers use the intended one (see "## Findings").
- The error messages of `last`, `rest` and `push` name `first`, and `add`'s
  message says "argument to `first` must be HASHMAP".
- `last` on a non-empty array reads an unbound global `length`. That is a
  host `ReferenceError`.
- The TypeScript lexer passes no line number, so its tokens carry no line.
- There is no `BREAK` token kind, so `break` lexes as an identifier and
  `parseBreakStatement` is never reached.
- The evaluator's `AssignStatement` import is not exported by the AST module.
  Assignments, `for`, `break` and macro literals therefore evaluate to
  `undefined`.
- `quote()` with no argument makes the host throw.
- `==` on two strings compares object identity, so two equal strings built
  separately are not `==`. The string branch of `evalStringInfixExpression`
  for `==`/`!=` is never reached.

## Model

| member | source | states |
|---|---|---|
| Tokens.SpellingRoundTrip | ts/src/token/index.ts:11-53 | every token kind's type string reads back as that kind |
| Tokens.SpellingInjective | ts/src/token/index.ts:11-53 | two kinds have the same type string exactly when they are the same kind |
| Tokens.SymbolSpelling | ts/src/token/index.ts:20-41 | the operator and delimiter kinds are exactly those spelled as their one- or two-character symbol; the others are upper-case names |
| Tokens.NoBreakKind | ts/src/token/index.ts:11-53 | no kind is spelled `BREAK` |
| Tokens.LookupIdentKeywords | ts/src/token/index.ts:55-70 | a word is something other than IDENT exactly when it is one of the ten keywords |
| Tokens.LookupIdentExamples | ts/src/token/index.ts:55-70 | `fn`, `macro`, `while`, `for` map to their keyword kinds; `break` and ordinary names are IDENT |
| Tokens.LookupIdentAsWritten | ts/src/token/index.ts:55-70 | the keyword table read as a plain JavaScript object answers a member inherited from `Object.prototype` exactly when the word is such a member and no keyword |
| Tokens.LookupIdentAsWrittenDiffers | ts/src/token/index.ts:55-70 | the table as written agrees with the keyword lookup exactly on the words that are not inherited members; `toString` is one where they differ |
| Lexing.SkipSpaces | ts/src/lexer/index.ts:134-143 | the first position at or after `p` that is not a space, tab, newline or carriage return; everything skipped is whitespace |
| Lexing.IdentEnd | ts/src/lexer/index.ts:119-126 | the end of the longest run of letters, digits and `_` from `p` |
| Lexing.DigitsEnd | ts/src/lexer/index.ts:146-160 | the end of the longest run of digits from `p` |
| Lexing.NumberEnd | ts/src/lexer/index.ts:106-118 | a number literal covers only digits and `.` |
| Lexing.ScanAdvances | ts/src/lexer/index.ts:11-95 | `nextToken` always moves forward, and stays within the input until EOF |
| Lexing.ScanAtEnd | ts/src/lexer/index.ts:72-74 | at the end of the input the token is EOF, literal `EOF` |
| Lexing.ScanSkipsWhitespace | ts/src/lexer/index.ts:11-95 | no token literal contains whitespace |
| Lexing.ScanIdentifier | ts/src/lexer/index.ts:76-80 | a word is read whole (a letter then letters/digits, up to the first other character) and its kind is the intended keyword lookup of it |
| Lexing.NumberShape | ts/src/lexer/index.ts:106-118 | a number starts and ends with a digit and holds at most one `.` |
| Lexing.ScanNumber | ts/src/lexer/index.ts:81-88 | a number literal is FLOAT exactly when it contains `.`, otherwise INT, and is a slice of the input |
| Lexing.ScanEqualsAndBang | ts/src/lexer/index.ts:16-41 | `=`/`!` followed by `=` is the two-character EQ/NOT_EQ token, otherwise ASSIGN/BANG |
| Lexing.ScanSingleCharacters | ts/src/lexer/index.ts:48-53 | `<` and `>` are one-character LT/GT (never `<=`/`>=`), and `"`, `[`, `]`, `:` are ILLEGAL |
| Lexing.Tokenize | ts/src/parser/index.ts:110-117 | the tokens the parser pulls from the lexer end with exactly one EOF |
| Lexing.Scan | ts/src/lexer/index.ts:11-95 | no contract of its own; specified by ScanAdvances, ScanAtEnd, ScanSkipsWhitespace, ScanIdentifier, ScanNumber, ScanEqualsAndBang and ScanSingleCharacters, and equal to `Lexer.NextToken` |
| Lexing.Lexer.constructor | ts/src/lexer/index.ts:7-9 | a new lexer is positioned on the first character |
| Lexing.Lexer.ReadChar | ts/src/lexer/index.ts:97-105 | advances one character; `ch` is NUL past the end |
| Lexing.Lexer.PeekChar | ts/src/lexer/index.ts:128-132 | the character after the current one, NUL past the end |
| Lexing.Lexer.SkipWhiteSpace | ts/src/lexer/index.ts:134-143 | the loop stops where `SkipSpaces` does |
| Lexing.Lexer.ReadNumber | ts/src/lexer/index.ts:106-118 | the loop stops where `NumberEnd` does and returns the slice read |
| Lexing.Lexer.ReadIdentifier | ts/src/lexer/index.ts:119-126 | the loop stops where `IdentEnd` does and returns the slice read |
| Lexing.Lexer.NextToken | ts/src/lexer/index.ts:11-95 | the token and the new position are those of the scanning function |
| GoLexing.SkipLines | go/lexer/lexer.go:155-162 | skipping whitespace stops where the TypeScript lexer does and adds one line per newline skipped |
| GoLexing.EscapeResults | go/lexer/lexer.go:186-206 | exactly `n t \ r v " a b f` are escapes, and each decodes to newline, tab, backslash or carriage return |
| GoLexing.StringLoop | go/lexer/lexer.go:182-216 | reading a string always advances; it stops on its closing `"` or reports the missing one at the end of input |
| GoLexing.GoScanLines | go/lexer/lexer.go:32-134 | a token carries the line reached after the newlines skipped before it, and the line count never decreases |
| GoLexing.Unescape | go/lexer/lexer.go:186-206 | the decoded body of a string is never longer than the raw one |
| GoLexing.StringLoopDecodes | go/lexer/lexer.go:182-216 | on any body made of escape units (a recognised `\c` pair, `\"` included, or one character that is not `"`, not NUL and not a backslash starting such a pair), reading a string rewrites the input to the decoded body and stops on the closing quote |
| GoLexing.ScanString | go/lexer/lexer.go:47-56 | a closed string literal whose body is made of escape units is one STRING token holding the decoded body, on the current line |
| GoLexing.EscapedQuoteInString | go/lexer/lexer.go:182-216 | `"a\"b"` is one STRING token: the escaped quote does not end it and decodes to a carriage return |
| GoLexing.StringLoopUnterminated | go/lexer/lexer.go:182-216 | a string without its closing quote is reported as an error |
| GoLexing.ScanUnterminatedString | go/lexer/lexer.go:47-56 | an unterminated string is an ILLEGAL token whose literal is NUL |
| GoLexing.GoScanOperators | go/lexer/lexer.go:32-134 | `= ! < >` followed by `=` form the two-character EQ, NOT_EQ, LTE, GTE tokens, otherwise single-character tokens |
| GoLexing.GoScanAtEnd | go/lexer/lexer.go:110-113 | at the end of input the token is EOF with an empty literal |
| GoLexing.GoScanAgreesOnWords | go/lexer/lexer.go:114-127 | identifiers, keywords and numbers lex exactly as in the TypeScript lexer, but carry the current line |
| GoLexing.GoScan | go/lexer/lexer.go:32-134 | no contract of its own; specified by GoScanLines, ScanString, ScanUnterminatedString, GoScanOperators, GoScanAtEnd and GoScanAgreesOnWords, and equal to `GoLexer.NextToken` |
| GoLexing.GoLexer.constructor | go/lexer/lexer.go:26-30 | `New` starts on the first character at line 1 |
| GoLexing.GoLexer.ReadChar | go/lexer/lexer.go:16-24 | advances one character; NUL past the end |
| GoLexing.GoLexer.PeekChar | go/lexer/lexer.go:148-154 | the next character, NUL past the end |
| GoLexing.GoLexer.SkipWhitespace | go/lexer/lexer.go:155-162 | the loop stops where `SkipLines` does, with the same line count |
| GoLexing.GoLexer.ReadIdentifier | go/lexer/lexer.go:138-147 | the loop stops where `IdentEnd` does and returns the slice read |
| GoLexing.GoLexer.ReadNumber | go/lexer/lexer.go:169-181 | the loop stops where `NumberEnd` does and returns the slice read |
| GoLexing.GoLexer.ReadString | go/lexer/lexer.go:182-216 | the input rewrite, stop position and error flag are those of `StringLoop`, and the result is the decoded body |
| GoLexing.GoLexer.NextToken | go/lexer/lexer.go:32-134 | the token, the rewritten input, the position and the line are those of the scanning function |
| Ast.JoinBalanced | ts/src/ast/index.ts:257-260 | joining balanced argument texts with a balanced separator keeps brackets balanced |
| Ast.InfixBalanced | ts/src/ast/index.ts:181-185 | an infix expression prints as a parenthesised, balanced text |
| Ast.PrefixBalanced | ts/src/ast/index.ts:162-164 | a prefix expression prints as a parenthesised, balanced text |
| Ast.IndexBalanced | ts/src/ast/index.ts:304-306 | an index expression prints as `(left[index])`, balanced |
| Ast.CallBalanced | ts/src/ast/index.ts:257-260 | a call prints as `callee(args)`, balanced |
| Ast.PrintedOperatorTreeBalanced | ts/src/ast/index.ts:162-306 | every expression built from identifiers, literals, prefix, infix, index, call and array nodes prints with balanced brackets, and operator nodes print wrapped in parentheses |
| Ast.ProgramAndBlockPrinting | ts/src/ast/index.ts:28-34 | for any statements, an empty program or block prints as nothing; appending a statement to a program appends its text; appending one to a non-empty block appends `,` and its text, and a block of one statement prints as that statement |
| Ast.LetPrinting | ts/src/ast/index.ts:64-71 | `let myVar = anotherVar;` prints back as written |
| Rewriting.VisitList | ts/src/ast/modify.ts:148-156 | visiting a list keeps its length and leaves the items before the current index as they were |
| Rewriting.VisitPairs | ts/src/ast/modify.ts:157-167 | visiting hash pairs keeps their number, and a failure leaves the pairs before it untouched |
| Rewriting.PostOrder | ts/src/ast/modify.ts:21-170 | the post-order of a node ends with the node itself |
| Rewriting.ModifyVisitsInPostOrder | ts/src/ast/modify.ts:21-170 | `modify` with a modifier that changes nothing returns the node and calls the modifier on every node, children before parents, left to right |
| Rewriting.ChildInPostOrder | ts/src/ast/modify.ts:26-34 | a child slot visited by the identity modifier stays the same and logs that child's post-order |
| Rewriting.ChildrenInPostOrder | ts/src/ast/modify.ts:21-168 | visiting a node's children logs all of its post-order except the node itself |
| Rewriting.InfixInPostOrder | ts/src/ast/modify.ts:44-58 | an infix node visits its left operand, then its right one, then itself |
| Rewriting.IndexInPostOrder | ts/src/ast/modify.ts:68-82 | an index node visits the indexed operand, then the index, then itself |
| Rewriting.FunctionInPostOrder | ts/src/ast/modify.ts:133-147 | a function literal visits its parameters, then its body |
| Rewriting.IfInPostOrder | ts/src/ast/modify.ts:83-105 | an `if` visits condition, consequence, then the alternative when present |
| Rewriting.ModifyLeavesOtherKinds | ts/src/ast/modify.ts:169 | a node with no children that `modify` descends into is handed straight to the modifier |
| Rewriting.InfixStopsAtFailedLeft | ts/src/ast/modify.ts:44-58 | when the left operand's rewrite fails, the infix node fails too; the right operand is not visited and the left slot keeps what was written into it |
| Rewriting.ListStopsAtFailure | ts/src/ast/modify.ts:148-156 | a failed list visit stopped at some element: earlier ones rewritten, that one's partial rewrite kept, later ones untouched |
| Rewriting.TurnOneIntoTwoInInfix | ts/src/ast/modify.ts:44-58 | the turn-one-into-two modifier rewrites both operands of `1 + 2` |
| Rewriting.ModifyMaps | ts/src/ast/modify.ts:21-170 | on every tree, `modify` with the turn-one-into-two modifier succeeds and returns the tree mapped bottom-up (every integer literal 1 reached through the visited kinds becomes 2, everything else kept), with the node left holding its mapped children |
| Rewriting.ChildMaps | ts/src/ast/modify.ts:26-34 | a child slot gets the child mapped bottom-up |
| Rewriting.ListMaps | ts/src/ast/modify.ts:148-156 | a list of children keeps the items before the index and maps every one from it on |
| Rewriting.PairsMap | ts/src/ast/modify.ts:157-167 | a hash literal keeps the pairs before the index and maps the key and value of every one from it on |
| Rewriting.ChildrenMap | ts/src/ast/modify.ts:21-168 | visiting the children of any node gives the node with its visited children mapped |
| Rewriting.Modify | ts/src/ast/modify.ts:21-170 | no contract of its own; specified by ModifyVisitsInPostOrder (order of calls), ModifyMaps (result with a modifier that changes nodes), ModifyLeavesOtherKinds, InfixStopsAtFailedLeft, ListStopsAtFailure and GoRejectsStatementForExpression |
| Rewriting.GoRejectsStatementForExpression | go/ast/modify.go:15-20 | in Go, a rewrite of an expression statement's expression into a statement fails (the type assertion), where TypeScript stores it |
| Numerals.DigitChar | ts/src/object/index.ts:33-35 | the character of a decimal digit has that digit's value |
| Numerals.NatText | ts/src/object/index.ts:33-35 | a natural number prints as digits without a leading zero |
| Numerals.IntText | ts/src/object/index.ts:33-35 | an integer prints with a leading `-` exactly when it is negative |
| Numerals.NatTextRoundTrip | ts/src/object/index.ts:33-35 | reading the printed digits of a natural number gives it back |
| Numerals.ParseDecimal | ts/src/parser/index.ts:214-231 | on a digit string the number read is the digits' value |
| Numerals.IntTextParses | ts/src/parser/index.ts:214-231 | the parser reads the printed form of a natural number back as that number |
| Numerals.FractionText | ts/src/object/index.ts:47-49 | the fraction digits printed are decimal digits, at most the number asked for |
| Numerals.TrimZeros | ts/src/object/index.ts:47-49 | the result is a prefix of the digits that does not end in `0`, and everything dropped is `0` |
| Numerals.FloatText | ts/src/object/index.ts:47-49 | a float with an integral value prints like that integer |
| Objects.TypeTagsDistinct | ts/src/object/index.ts:5-19 | two objects have the same type string exactly when they are of the same kind |
| Objects.HashKeyOf | ts/src/object/index.ts:27-132 | exactly integers, floats, booleans and strings are hashable |
| Objects.HashKeysCollide | ts/src/object/index.ts:36-66 | `1`, `1.0` and `true` share one hash key, as do `0` and `false`; a string's key depends only on its text |
| Objects.FindPair | ts/src/object/index.ts:168-184 | a pair found under a key is in the map with that key, and a miss means no pair has it |
| Objects.PutPairFinds | ts/src/evaluator/index.ts:301-323 | after a store, the key finds the stored pair |
| Objects.PutPairKeepsOthers | ts/src/evaluator/index.ts:301-323 | a store under one key leaves every other key's pair as it was |
| Objects.PutPairMembers | ts/src/evaluator/index.ts:301-323 | a store adds no pair other than the one stored |
| Objects.PutPairUnique | ts/src/evaluator/index.ts:301-323 | a store keeps every key in the map unique |
| Objects.PutPairOrder | ts/src/object/index.ts:168-184 | replacing a key keeps its place in insertion order; a new key goes last |
| Objects.InspectAll | ts/src/object/index.ts:153-156 | there is one inspected text per element |
| Objects.InspectPairs | ts/src/object/index.ts:175-183 | there is one inspected text per pair |
| Objects.InspectErrorAndReturn | ts/src/object/index.ts:84-97 | an error inspects as `ERROR: ` plus its message; a return value as its inner value |
| Objects.InspectIntegerReadsBack | ts/src/object/index.ts:33-35 | the inspected text of a non-negative integer reads back as that integer |
| Objects.InspectArray | ts/src/object/index.ts:153-156 | an array inspects as `[` its elements' texts joined by `, ` `]` |
| Objects.InspectHash | ts/src/object/index.ts:175-183 | a hash inspects as `{` the texts `key: value` of its pairs, in insertion order, joined by `, ` `}` |
| Objects.InspectPairsElements | ts/src/object/index.ts:175-183 | the i-th text is the i-th pair's key text, `: `, and its value text |
| Objects.SelfContainingHashNeverInspects | ts/src/object/index.ts:175-183 | a hash that holds itself as a value has no inspected text at any depth |
| Objects.Inspect | ts/src/object/index.ts:27-210 | no contract of its own; specified by InspectErrorAndReturn, InspectIntegerReadsBack, InspectArray and InspectHash |
| Objects.PutPair | ts/src/evaluator/index.ts:301-323 | no contract of its own; specified by PutPairFinds, PutPairKeepsOthers, PutPairMembers, PutPairUnique and PutPairOrder |
| Environments.Lookup | ts/src/object/enviroment.ts:15-21 | a name is found exactly when some store of the chain binds it, and the value is the innermost binding |
| Environments.LookupAfterSet | ts/src/object/enviroment.ts:36-39 | after `set`, the name reads back the new value and other names read as before |
| Environments.Environment.Stores | ts/src/object/enviroment.ts:5-6 | an environment's chain of stores starts with its own |
| Environments.Environment.New | ts/src/object/enviroment.ts:8-10 | a new environment has an empty store and no outer one |
| Environments.Environment.Enclosed | ts/src/object/enviroment.ts:12-14 | an enclosed environment has an empty store in front of its outer chain |
| Environments.Environment.Get | ts/src/object/enviroment.ts:15-21 | `get` returns the innermost binding along the chain (Go: go/object/environment.go:19-25) |
| Environments.Environment.GetCurrScope | ts/src/object/enviroment.ts:32-34 | the lookup along a chain made of this environment's own store alone (Go: go/object/environment.go:42-45) |
| Environments.Environment.Set | ts/src/object/enviroment.ts:36-39 | the store gains or replaces exactly that binding, and the value is returned (Go: go/object/environment.go:47-50) |
| Environments.Environment.Unset | ts/src/object/enviroment.ts:36-39 | storing `undefined` makes the name read as unbound here |
| Environments.GetEnvAgreesWithGet | ts/src/object/enviroment.ts:23-30 | `getEnv` finds an environment exactly when `get` finds a value; it is this one exactly when bound here, otherwise the enclosing one |
| Environments.CurrScopeThenOuter | ts/src/object/enviroment.ts:15-34 | `getCurrScope` and `get` agree on a name bound here; otherwise `get` asks the enclosing environment, and the two differ exactly when the name is unbound here but bound further out |
| Environments.GetEnvStopsOneLevelOut | go/object/environment.go:27-40 | a name bound two levels out is reported in the enclosing environment, whose own scope does not hold it |
| Environments.ArenaGetIsLookup | ts/src/object/enviroment.ts:15-21 | looking a name up through the arena's frames is the lookup along the chain of stores |
| Environments.ArenaSet | ts/src/object/enviroment.ts:36-39 | `set` on a frame changes that frame's store only |
| Environments.ArenaUnset | ts/src/object/enviroment.ts:36-39 | binding `undefined` removes the name from that frame's store only |
| Environments.ArenaGetAfterSet | ts/src/object/enviroment.ts:15-39 | a set name reads back its value; an unset one falls back to the enclosing frames |
| Runtime.BuiltinRef | ts/src/evaluator/index.ts:354-364 | a name resolves to a builtin exactly when it is one of the builtin names |
| Runtime.Initial | ts/src/evaluator/index.ts:48-50 | the initial state holds the shared TRUE, FALSE and NULL, the builtins and one empty global frame |
| Runtime.SetLineError | ts/src/evaluator/index.ts:586-596 | an error result is retagged with the node's line; nothing else changes |
| Runtime.LastRetagWins | ts/src/evaluator/index.ts:586-596 | when nested nodes retag the same error, the outermost node's line wins |
| Runtime.BangNegatesTruthiness | ts/src/evaluator/index.ts:387-401 | `!x` is TRUE exactly when `x` is not truthy |
| Runtime.BoolRefRoundTrip | ts/src/evaluator/index.ts:366-372 | the shared object a native boolean maps to holds that boolean and is truthy exactly when it is true |
| Runtime.IsTruthy | ts/src/evaluator/index.ts:570-584 | no contract of its own; specified by BangNegatesTruthiness, BoolRefRoundTrip and EvaluatorFacts.IfChoosesByTruthiness |
| Runtime.IntegerArithmetic | ts/src/evaluator/index.ts:419-443 | integer `+ - * /` yield a new integer: the exact sum, difference, product, and the floor of the quotient |
| Runtime.ComparisonsShareBooleans | ts/src/evaluator/index.ts:444-461 | number comparisons yield the shared TRUE exactly when the comparison holds, allocating nothing |
| Runtime.EqualityIsIdentity | ts/src/evaluator/index.ts:478-483 | `==`/`!=` on anything but two numbers compare object identity |
| Runtime.EqualStringsAtTwoSlots | ts/src/evaluator/index.ts:478-483 | two distinct string objects with the same text are not `==` |
| Runtime.InfixErrors | ts/src/evaluator/index.ts:484-517 | mismatched types give `type mismatch`, string `+` concatenates, anything else gives `unknown operator` |
| Runtime.ArrayIndexBounds | ts/src/evaluator/index.ts:280-288 | an array index in range yields the element, otherwise NULL |
| Runtime.HashIndex | ts/src/evaluator/index.ts:290-299 | a hashable index yields the stored value or NULL; another index yields `unusable as hash key` |
| Runtime.IndexNotSupported | ts/src/evaluator/index.ts:268-278 | indexing anything else yields `index operator not supported` |
| Runtime.EvalInfix | ts/src/evaluator/index.ts:469-495 | no contract of its own; specified by IntegerArithmetic, ComparisonsShareBooleans, EqualityIsIdentity, EqualStringsAtTwoSlots and InfixErrors |
| Builtins.ArityCheckedFirst | ts/src/evaluator/builtins.ts:18-22 | a call with the wrong number of arguments yields the `wrong number of arguments` error and nothing else |
| Builtins.LenResult | ts/src/evaluator/builtins.ts:16-33 | `len` is a string's length or an array's size, otherwise an error |
| Builtins.ArrayBuiltinsRejectOthers | ts/src/evaluator/builtins.ts:35-113 | `first`, `last`, `rest` and `push` on a non-array report the error that names `first` |
| Builtins.FirstAndRest | ts/src/evaluator/builtins.ts:35-95 | `first` is the first element or NULL; `rest` is a new array without it, or NULL when empty |
| Builtins.LastResult | ts/src/evaluator/builtins.ts:55-73 | `last` is NULL on an empty array and a host `ReferenceError` otherwise |
| Builtins.PushMakesNewArray | ts/src/evaluator/builtins.ts:97-113 | `push` returns a new array with the value appended and leaves the original untouched |
| Builtins.AddUpdatesInPlace | ts/src/evaluator/builtins.ts:115-135 | `add` stores the pair in the same hash object, which it returns, and leaves other keys and objects unchanged |
| Builtins.AddErrors | ts/src/evaluator/builtins.ts:115-135 | `add` on a non-hash or with an unhashable key reports the matching error |
| Builtins.PrintResult | ts/src/evaluator/builtins.ts:137-145 | `print` changes no state; it answers NULL exactly when every argument inspects, and aborts exactly when some argument does not |
| Builtins.PrintUndefinedElement | ts/src/evaluator/builtins.ts:137-145 | `print` of an array holding an undefined element aborts, as `inspect()` reads a property of `undefined` |
| Builtins.PrintSelfContainingHash | ts/src/evaluator/builtins.ts:137-145 | `print` of a hash that holds itself aborts, as its `inspect()` never finishes |
| Builtins.ApplyBuiltin | ts/src/evaluator/builtins.ts:16-135 | no contract of its own; specified by ArityCheckedFirst, LenResult, ArrayBuiltinsRejectOthers, FirstAndRest, LastResult, PushMakesNewArray, AddUpdatesInPlace, AddErrors and PrintResult |
| Evaluation.Bind | ts/src/object/enviroment.ts:36-39 | binding never touches the heap or the number of frames |
| Evaluation.ExtendEnv | ts/src/evaluator/index.ts:547-554 | binding the parameters never touches the heap or the number of frames |
| Evaluation.ConvertObjectToNode | ts/src/evaluator/quote_unquote.ts:54-85 | exactly integers, floats, booleans and quotes convert back to AST nodes |
| Evaluation.Eval | ts/src/evaluator/index.ts:52-219 | no contract of its own; specified by the lemmas of EvaluatorFacts (programs, `let`, calls, `if`, `while`, function literals, quoting) and equal to the loops of EvaluatorLoops |
| Evaluation.EvalIf | ts/src/evaluator/index.ts:325-340 | no contract of its own; specified by EvaluatorFacts.IfChoosesByTruthiness |
| Evaluation.Apply | ts/src/evaluator/index.ts:531-545 | no contract of its own; specified by EvaluatorFacts.CallFrame and EvaluatorFacts.NotAFunction |
| Evaluation.QuoteCall | ts/src/evaluator/quote_unquote.ts:14-23 | no contract of its own; specified by EvaluatorFacts.QuoteKeepsCallsUnevaluated, QuoteOfUnquotedInteger and QuoteOfUnconvertible |
| EvaluatorFacts.ProgramUnwrapsWhatBlockKeeps | ts/src/evaluator/index.ts:221-254 | a program evaluates like a block whose return value is then unwrapped |
| EvaluatorFacts.LetRejectsBoundNames | ts/src/evaluator/index.ts:64-79 | `let` of a name visible from the current scope yields `Identifier x already exists` on the statement's line |
| EvaluatorFacts.LetBindsLocally | ts/src/evaluator/index.ts:64-79 | `let` of a fresh name binds it in the current frame only and yields nothing |
| EvaluatorFacts.ExtendEnvBindsParameters | ts/src/evaluator/index.ts:547-554 | each parameter that is the last one with its name is bound to its argument (a missing argument leaves it unbound), so with repeated names the last argument wins; nothing else changes |
| EvaluatorFacts.BoundParameter | ts/src/evaluator/index.ts:547-554 | the last parameter with a name is bound to its argument in the new frame, and the heap and frame count are kept |
| EvaluatorFacts.CallFrame | ts/src/evaluator/index.ts:531-554 | a call runs in a new frame enclosed by the function's own environment, binding exactly the parameter names, each to the argument of its last occurrence |
| EvaluatorFacts.NotAFunction | ts/src/evaluator/index.ts:531-545 | calling a non-function yields `not a function` |
| EvaluatorFacts.IntegerInfixLiterals | ts/src/evaluator/index.ts:182-200 | `a op b` on integer literals evaluates to the integer result |
| EvaluatorFacts.UnboundIdentifierTaggedByOuterNode | ts/src/evaluator/index.ts:97-103 | an unbound identifier's error carries the line of the enclosing infix node |
| EvaluatorFacts.IfFalseWithoutElse | ts/src/evaluator/index.ts:325-340 | `if (false)` without `else` yields NULL |
| EvaluatorFacts.IfZeroTakesElse | ts/src/evaluator/index.ts:570-584 | `0` is not truthy: `if (0)` takes the alternative |
| EvaluatorFacts.IfChoosesByTruthiness | ts/src/evaluator/index.ts:325-340 | for any condition: an error is passed on retagged; a truthy value runs the consequence; a falsy one runs the alternative, or yields NULL when there is none |
| EvaluatorFacts.WhileFalsyCondition | ts/src/evaluator/index.ts:342-352 | a `while` whose condition is falsy at once yields nothing and keeps the state the condition left |
| EvaluatorFacts.WhileLoopYieldsNothing | ts/src/evaluator/index.ts:342-352 | the loop discards every result of the body, return values and errors included: when it completes it yields nothing |
| EvaluatorFacts.WhileYieldsOnlyConditionErrors | ts/src/evaluator/index.ts:342-352 | a `while` yields a value only when its first condition is an error |
| EvaluatorFacts.FunctionLiteralCaptures | ts/src/evaluator/index.ts:163-167 | a function literal yields a function object closing over the current frame |
| EvaluatorFacts.UnquoteOnlyRewritesUnquoteCalls | ts/src/evaluator/quote_unquote.ts:25-52 | only `unquote` calls with one argument are replaced |
| EvaluatorFacts.ConvertedNodes | ts/src/evaluator/quote_unquote.ts:54-85 | integers become integer literals, booleans boolean literals, quotes their node; other values do not convert |
| EvaluatorFacts.QuoteKeepsCallsUnevaluated | ts/src/evaluator/quote_unquote.ts:14-23 | `quote` of a call that is not `unquote` returns the call unevaluated |
| EvaluatorFacts.QuoteOfUnquotedInteger | ts/src/evaluator/quote_unquote.ts:25-85 | `quote(unquote(e))` with `e` an integer yields that integer's literal |
| EvaluatorFacts.QuoteOfUnconvertible | ts/src/evaluator/quote_unquote.ts:25-44 | an `unquote` whose value cannot convert yields `Failed to evaluate unquote inside of a macro` |
| EvaluatorLoops.RunProgram | ts/src/evaluator/index.ts:221-237 | the loop of `evalProgram` computes the program's result |
| EvaluatorLoops.RunBlock | ts/src/evaluator/index.ts:239-254 | the loop of `evalBlockStatement` computes the block's result |
| EvaluatorLoops.RunExpressions | ts/src/evaluator/index.ts:256-266 | the loop of `evalExpressions` computes the argument values |
| EvaluatorLoops.RunHashLiteral | ts/src/evaluator/index.ts:301-323 | the loop of `evalHashLiteral` builds the hash |
| EvaluatorLoops.BindParameters | ts/src/evaluator/index.ts:547-554 | the loop of `extendFunctionEnv` binds the parameters |
| EvaluatorLoops.RunWhile | ts/src/evaluator/index.ts:342-352 | the loop of `evalWhileStatement` computes the loop's result |
| Macros.Kept | ts/src/evaluator/macro_expansion.ts:16-30 | the statements left after definitions are removed contain no macro definition |
| Macros.KeptNoDefinitions | ts/src/evaluator/macro_expansion.ts:16-30 | a program without macro definitions is left unchanged |
| Macros.DefineMacros | ts/src/evaluator/macro_expansion.ts:16-30 | the collect loop binds every macro definition in order, and the statements left are exactly the non-definitions |
| Macros.RemoveDefinitions | ts/src/evaluator/macro_expansion.ts:26-28 | splicing the collected positions out from the back removes exactly the macro definitions |
| Macros.DefineFromShape | ts/src/evaluator/macro_expansion.ts:40-48 | defining macros only adds objects to the heap and no frames |
| Macros.DefineFromBindsOnlyMacros | ts/src/evaluator/macro_expansion.ts:32-48 | names that no definition uses keep their bindings |
| Macros.LastDefinitionWins | ts/src/evaluator/macro_expansion.ts:40-48 | the last definition of a name is the macro bound to it |
| Macros.GetMacroCall | ts/src/evaluator/macro_expansion.ts:80-91 | a macro call is recognised only when the callee is bound to a macro |
| Macros.QuoteArgs | ts/src/evaluator/macro_expansion.ts:93-99 | each argument is wrapped in a new quote object, in order |
| Macros.QuoteArgsLoop | ts/src/evaluator/macro_expansion.ts:93-99 | the loop builds the same quotes |
| Macros.ExpandLeavesOtherNodes | ts/src/evaluator/macro_expansion.ts:50-78 | nodes that are not macro calls are left as they are |
| Macros.MacroArgumentsQuoted | ts/src/evaluator/macro_expansion.ts:101-109 | the macro body runs in a frame enclosed by the macro's environment, with each parameter that is the last with its name bound to its argument quoted |
| Macros.MacroResults | ts/src/evaluator/macro_expansion.ts:50-78 | a quote result replaces the call; an error becomes an error literal; anything else is the `only support returning AST-nodes` error |
| Macros.NestedMacroCallsNotExpanded | ts/src/evaluator/macro_expansion.ts:50-78 | a call whose callee is not a macro stays as it is |
| Macros.ExpandMacros | ts/src/evaluator/macro_expansion.ts:50-78 | no contract of its own; specified by GetMacroCall, QuoteArgs, MacroArgumentsQuoted, MacroResults, ExpandLeavesOtherNodes and NestedMacroCallsNotExpanded |
| Macros.DefineFrom | ts/src/evaluator/macro_expansion.ts:32-48 | no contract of its own; specified by DefineFromShape, DefineFromBindsOnlyMacros and LastDefinitionWins |
| GoEvaluation.TruncatedDivision | go/evaluator/evaluator.go:93-109 | Go's integer quotient truncates: the remainder is smaller than the divisor and takes the dividend's sign |
| GoEvaluation.FloatArithmetic | go/evaluator/evaluator.go:111-127 | on finite operands `+ - * /` are the exact results, division finite exactly when the divisor is not zero and undone by multiplying back; `+` and `*` commute, NaN absorbs, and `x - x` is zero or NaN |
| GoEvaluation.FloatDivisionByZero | go/evaluator/evaluator.go:122-123 | a float divided by `0.0` is +Inf, -Inf or NaN, never a panic |
| GoEvaluation.DivisionByZeroDoesNotStop | go/evaluator/evaluator.go:40-46 | `1.0 / 0.0` is +Inf, and the program `1.0 / 0.0; 5` answers 5 |
| GoEvaluation.ProgramAnswersLast | go/evaluator/evaluator.go:40-46 | a program yields its last statement's value (nil when empty) unless a statement panics |
| GoEvaluation.NoPanicBefore | go/evaluator/evaluator.go:40-46 | `evalStatements` up to `k` is the `k`-th statement's value when nothing before panics |
| GoEvaluation.BangTable | go/evaluator/evaluator.go:66-77 | `!x` is TRUE exactly for FALSE and NULL |
| GoEvaluation.MinusTwice | go/evaluator/evaluator.go:79-91 | negating a number twice gives it back; `-` of a non-number is NULL |
| GoEvaluation.InfixNullCases | go/evaluator/evaluator.go:93-150 | comparisons and non-number operands give NULL |
| GoEvaluation.IntegerLiteralInfix | go/evaluator/evaluator.go:93-109 | integer `+`, `-` and `*` are exact, `/` is the quotient truncated toward zero (the remainder smaller than the divisor and of the dividend's sign), and division by zero panics |
| GoEvaluation.MixedOperandsAreFloats | go/evaluator/evaluator.go:129-157 | an integer with a float is computed as floats: exact `+ - *` and `/`, and a zero divisor gives a non-finite float |
| GoEvaluation.BooleanLiteralsAreShared | go/evaluator/evaluator.go:14-38 | boolean literals yield the shared TRUE/FALSE, and `!` flips them |
| GoEvaluation.UnlistedNodesAreNil | go/evaluator/evaluator.go:14-38 | nodes `Eval` does not list yield nil; `-nil` panics and `!nil` is FALSE |
| GoEvaluation.Eval | go/evaluator/evaluator.go:14-38 | no contract of its own; specified by ProgramAnswersLast, NoPanicBefore, BangTable, MinusTwice, InfixNullCases, IntegerLiteralInfix, MixedOperandsAreFloats, BooleanLiteralsAreShared and UnlistedNodesAreNil |
| Parsing.Next | ts/src/parser/index.ts:114-117 | the peek token becomes the current one; the position stays on EOF once there |
| Parsing.ExpectPeek | ts/src/parser/index.ts:124-136 | it advances exactly when the next token has the kind expected, otherwise records the `expected next token to be` error on that token's line |
| Parsing.SkipSemicolon | ts/src/parser/index.ts:534-538 | every following `;` is skipped, and nothing else |
| Parsing.CheckSemicolonError | ts/src/parser/index.ts:557-566 | it reports a missing `;` with one error exactly when the next token is not `;` |
| Parsing.ParseIntegerLiteral | ts/src/parser/index.ts:214-222 | an integer literal holds the number its text reads as, or the parse records one error |
| Parsing.ParseFloatLiteral | ts/src/parser/index.ts:223-231 | a float literal holds the number its text reads as, or the parse records one error |
| Parsing.ParseFunctionParameters | ts/src/parser/index.ts:389-408 | the parameters are identifiers and the parse ends on `)`, or it records an error |
| Parsing.ParseStatement | ts/src/parser/index.ts:432-447 | the result is a statement; a dropped one always leaves an error; the parser moves forward |
| Parsing.ParseLetStatement | ts/src/parser/index.ts:449-459 | a `let` names an identifier and ends on its `;`, or the parse records an error |
| Parsing.ParseReturnStatement | ts/src/parser/index.ts:476-486 | a `return` ends on its `;`, or the parse records an error |
| Parsing.ParseWhileStatement | ts/src/parser/index.ts:338-349 | a `while` statement, or an error recorded |
| Parsing.ParseForStatement | ts/src/parser/index.ts:351-373 | a `for` statement, or an error recorded; ParserFacts.ForWithoutInitOrUpdate states the statement with init and update left out |
| Parsing.ParseExpressionStatement | ts/src/parser/index.ts:494-514 | an expression statement around an expression, or an error recorded |
| Parsing.ParseBlockStatement | ts/src/parser/index.ts:516-527 | a block of statements on its `{` token, ending on `}` or EOF |
| Parsing.ParseExpression | ts/src/parser/index.ts:233-252 | without a prefix rule it records `no prefix parse function`; otherwise it stops where the next token does not bind tighter than the precedence |
| Parsing.ParsePrefixExpression | ts/src/parser/index.ts:254-261 | a prefix expression carries the operator token's literal |
| Parsing.ParseGroupedExpression | ts/src/parser/index.ts:302-309 | a grouped expression ends on its `)` |
| Parsing.ParseIfExpression | ts/src/parser/index.ts:311-336 | an `if` expression ends on its closing `}` |
| Parsing.ParseFunctionLiteral | ts/src/parser/index.ts:375-387 | a function literal ends on its closing `}` |
| Parsing.ParseMacroLiteral | ts/src/parser/index.ts:540-555 | a macro literal ends on its closing `}` |
| Parsing.ParseArrayLiteral | ts/src/parser/index.ts:186-191 | an array literal ends on its `]` |
| Parsing.ParseExpressionList | ts/src/parser/index.ts:193-212 | an empty list is read at once; otherwise expressions up to the closing token; a first element that does not parse gives no list |
| Parsing.ListLoop | ts/src/parser/index.ts:200-211 | the items read so far are kept; an element after `,` that does not parse, or a token that is neither `,` nor the closing one, gives no list |
| Parsing.ParseHashLiteral | ts/src/parser/index.ts:276-300 | a hash literal ends on its `}` |
| Parsing.HashValue | ts/src/parser/index.ts:276-300 | a pair read goes into the hash after the pairs before it, keeping its key |
| Parsing.ParseInfix | ts/src/parser/index.ts:263-274 | an infix rule yields an expression only from a left operand |
| Parsing.ParseInfixExpression | ts/src/parser/index.ts:263-274 | an infix expression has the left operand given and the operator token's literal |
| Parsing.ParseIndexExpression | ts/src/parser/index.ts:172-184 | an index expression has the left operand given and ends on `]` |
| Parsing.ParseCallExpression | ts/src/parser/index.ts:410-418 | a call has the left operand as callee and ends on `)` |
| Parsing.ParseAssignExpression | ts/src/parser/index.ts:461-474 | an assignment needs an identifier on the left, otherwise it records `expected valid identifier` |
| Parsing.ParseProgram | ts/src/parser/index.ts:420-430 | the program holds only statements |
| Parsing.ProgramLoop | ts/src/parser/index.ts:420-430 | the loop runs to EOF and keeps the statements parsed before |
| ParserFacts.InfixRulesMatchPrecedences | ts/src/parser/index.ts:31-57 | a token binds as an operator exactly when an infix rule is registered for it |
| ParserFacts.IdentifierAlone | ts/src/parser/index.ts:233-252 | an identifier not followed by a tighter operator is the whole expression |
| ParserFacts.InfixWithIdentifier | ts/src/parser/index.ts:263-274 | `op y` followed by a looser token takes `y` as right operand |
| ParserFacts.IdentifierThenLoop | ts/src/parser/index.ts:233-252 | an identifier is followed by the infix loop |
| ParserFacts.InfixRightOperand | ts/src/parser/index.ts:263-274 | the right operand is parsed at the operator's own precedence |
| ParserFacts.LeftAssociative | ts/src/parser/index.ts:233-274 | `x op1 y op2 z` with `op2` not binding tighter groups as `((x op1 y) op2 z)` |
| ParserFacts.TighterRightOperand | ts/src/parser/index.ts:233-274 | parsed at `op1`'s precedence, `y op2 z` with a tighter `op2` is one operand ending on `z` |
| ParserFacts.TighterOperatorFirst | ts/src/parser/index.ts:233-274 | `x op1 y op2 z` with `op2` binding tighter groups as `(x op1 (y op2 z))` |
| ParserFacts.LetWithSemicolon | ts/src/parser/index.ts:449-459 | `let x = y;` parses to the `let` statement with no error |
| ParserFacts.LetWithoutSemicolon | ts/src/parser/index.ts:449-459 | `let x = y` without `;` is dropped with the `expected next token to be ;` error |
| ParserFacts.EmptyFunctionExpression | ts/src/parser/index.ts:375-408 | `fn ( ) { }` parses to a function with no parameters and an empty body |
| ParserFacts.FunctionStatementWithoutSemicolon | ts/src/parser/index.ts:494-514 | the statement `fn ( ) { }` is kept without its `;`, with no error |
| ParserFacts.KeywordLedStatementNeedsNoSemicolon | ts/src/parser/index.ts:494-514 | any expression statement whose expression's token literal is `if` or `fn` is kept on its first token, skips any `;` that follows, and records no error of its own |
| ParserFacts.ForWithoutInitOrUpdate | ts/src/parser/index.ts:351-373 | `for ( ; cond ; ) { ... }` is a `for` statement with no init and no update, the condition read after the first `;` and the block after `)` |
| ParserFacts.ForConditionWithoutUpdate | ts/src/parser/index.ts:351-373 | from the `;` after the init, a condition followed by `; )` gives a statement with no update |
| ParserFacts.NeedsSemicolon | ts/src/parser/index.ts:494-514 | an expression statement whose expression's token literal is neither `if` nor `fn` yields no statement when no `;` follows, and records the `expected next token to be ;` error |
| ParserFacts.PlainIdentifierLiteral | ts/src/token/index.ts:55-70 | a word the keyword table does not map is neither `if` nor `fn`, so identifier statements always need their `;` |
| ParserObject.Parser.constructor | ts/src/parser/index.ts:68-112 | a new parser stands on the first token with no errors |
| ParserObject.Parser.NextToken | ts/src/parser/index.ts:114-117 | the position moves as `Next` does |
| ParserObject.Parser.PeekError | ts/src/parser/index.ts:124-127 | the error list gains the `expected next token` message |
| ParserObject.Parser.ExpectPeek | ts/src/parser/index.ts:128-136 | the outcome and new state are those of `Parsing.ExpectPeek` |
| ParserObject.Parser.SkipSemicolon | ts/src/parser/index.ts:534-538 | the loop stops where `Parsing.SkipSemicolon` does |
| ParserObject.Parser.CheckSemicolonError | ts/src/parser/index.ts:557-566 | the outcome and new state are those of `Parsing.CheckSemicolonError` |
| ParserObject.Parser.NoPrefixParseFnError | ts/src/parser/index.ts:155-158 | the error list gains the `no prefix parse function` message |
| ParserObject.Parser.ParseExpression | ts/src/parser/index.ts:233-252 | the loop yields the expression and state of `Parsing.ParseExpression` |
| ParserObject.Parser.ParseExpressionList | ts/src/parser/index.ts:193-212 | the loop yields the list and state of `Parsing.ParseExpressionList` |
| ParserObject.Parser.ParseFunctionParameters | ts/src/parser/index.ts:389-408 | the loop yields the parameters and state of `Parsing.ParseFunctionParameters` |
| ParserObject.Parser.ParseHashLiteral | ts/src/parser/index.ts:276-300 | the loop yields the hash and state of `Parsing.ParseHashLiteral` |
| ParserObject.Parser.ParsePair | ts/src/parser/index.ts:280-296 | one turn of the hash loop, as `Parsing.HashLoop` takes it |
| ParserObject.Parser.ParseValue | ts/src/parser/index.ts:285-296 | the value half of that turn, as `Parsing.HashValue` takes it |
| ParserObject.Parser.ParseBlockStatement | ts/src/parser/index.ts:516-527 | the loop yields the block and state of `Parsing.ParseBlockStatement` |
| ParserObject.Parser.ParseProgram | ts/src/parser/index.ts:420-430 | the loop yields the statements and state of `Parsing.ProgramLoop` |
| ParserObject.Parse | ts/src/parser/index.ts:420-430 | a fresh parser run to the end yields the program and errors of `Parsing.ParseProgram`, made of statements only |

## Left out

- The command-line entry points and both REPLs are not modelled, and neither is the console output of the `print` builtin. They are console I/O.
- Builtins.ApplyBuiltin: `print` takes an argument whose `inspect()` does not finish within `|heap| + 1` levels to throw, standing for the stack overflow of a value that contains itself. That this depth is enough for every value without a cycle is not proved. An undefined argument aborts as a TypeError and any other failure as one `Uninspectable` abort, whichever argument the source reaches first; the arguments before it, which the source still logs, are not modelled.
- Rewriting.VisitPairs: in the Go dialect the model visits hash pairs in their sequence order. go/ast/modify.go:111 ranges over a Go map, so the modifier meets the pairs in an unspecified order, and the rebuilt map is keyed by the rewritten key nodes.
- Floating-point arithmetic on finite values is exact `real` arithmetic, with no rounding to the nearest double, and `Numerals.FloatText` prints a float with a bounded number of fraction digits instead of JavaScript's shortest round-trip form.
- Runtime.IntegerArithmetic: integers are unbounded. JavaScript numbers above 2^53 lose precision, and integer division by zero (Infinity or NaN floored) is a host abort in the model.
- GoEvaluation.IntegerLiteralInfix: Go's int64 wrap-around is not modelled, because integers are unbounded.
- GoEvaluation.FloatInfix: float64 is modelled as an exact real or one of +Inf, -Inf and NaN. There is no signed zero, so `1.0 / -0.0` gives +Inf where Go gives -Inf. There is no rounding, so no finite result overflows to an infinity.
- Lexing.Scan and Lexing.ScanIdentifier use the intended keyword lookup, `Tokens.LookupIdent`. The source calls the table as written, which answers an inherited member for `toString`, `constructor` or `valueOf`. That behaviour is modelled by `Tokens.LookupIdentAsWritten` and reported under "## Findings".
- Character encoding is not modelled. Both lexers read a `string` one character at a time. The Go lexer reads bytes, so `é` gives two ILLEGAL tokens there but one in the model. The TypeScript lexer reads UTF-16 code units.
- Builtins.LenResult: the length of a string counts characters. JavaScript's `.length` counts UTF-16 code units, so the two differ on characters outside the Basic Multilingual Plane.
- Rewriting.ModifyMaps: the full-tree result is proved for the turn-one-into-two modifier and the TypeScript dialect. Other modifiers are covered only by the call-order and failure lemmas.
- Objects.HashKeyOf: a string's SHA-256-derived number key is a separate key space. The rare string whose digest number equals an integer key would collide with it in the source but does not in the model.
- Evaluation: `Eval` is bounded by fuel. Running out of fuel is an abort outcome standing for a program that does not terminate, so properties hold only for runs that finish within the fuel given.
- Builtins.LastResult: `last` on a non-empty array reads an unbound global. It is modelled as a host `ReferenceError`, not as the last element the name suggests.
- Parsing.ParseStatement: `parseBreakStatement` is not modelled as reachable, because no token kind is `BREAK`.
- The TypeScript lexer passes no line to its tokens, so they carry no line. `lexer.lineNumber`, read by `parseIllegal` and two error messages, is taken to be the line of the peek token.
- Number literals are read as exact decimals. JavaScript's rounding of a literal to the nearest double is not modelled.
- ParserObject.Parser: only the rules that loop (`parseProgram`, `parseBlockStatement`, `parseExpression`, `parseExpressionList`, `parseFunctionParameters`, `parseHashLiteral`, `skipSemicolon`) are methods. The other rules are pure functions of module `Parsing`, which these methods call.
- Parsing.ParseWhileStatement: that a `while` statement needs no `;` is stated only by the function's definition (it ends with `SkipSemicolon`, not `CheckSemicolonError`). No lemma states it.
- Environments.Environment: the store is a map. The source's plain-object store also answers members inherited from `Object.prototype`, which is not modelled.
- Macros.DefineMacros: `defineMacros` splices the program's own statement list in place. The model returns the remaining statements as a new sequence.
- Rewriting: `modify` writes rewritten children into the node in place. The model returns that in-place state as a value (`after`). Aliasing between AST nodes shared elsewhere is not modelled.

## Findings

| source | as written | input that shows it | evidently intended | confidence | as-written member | corrected member |
|---|---|---|---|---|---|---|
| ts/src/token/index.ts:55-70 | `keywords[ident] \|\| IDENT` reads a plain object, so words that name members inherited from `Object.prototype` get a function instead of IDENT | `let toString = 1;` yields no IDENT token for `toString`, so `expectPeek(IDENT)` fails | every word that is not one of the ten keywords is IDENT | not executed | Tokens.LookupIdentAsWritten, Tokens.LookupIdentAsWrittenDiffers | Tokens.LookupIdent, Tokens.LookupIdentKeywords |
