/**
 * Properties of the TypeScript evaluator (ts/src/evaluator/index.ts,
 * ts/src/evaluator/quote_unquote.ts).
 */
module EvaluatorFacts {
  import opened Wrappers
  import opened Ast
  import Tokens
  import opened Objects
  import opened Environments
  import opened Numerals
  import opened Runtime
  import opened Builtins
  import opened Rewriting
  import opened Evaluation

  /** `unwrapReturnValue` applied to a completed step. */
  function UnwrapStep(s: Step<Option<Ref>>): Step<Option<Ref>>
  {
    match s.c
    case Normal(v) => Step(Normal(Unwrap(s.st, v)), s.st)
    case Thrown(_) => s
  }

  predicate NotReturnValue(st: State, v: Option<Ref>)
  {
    v.None? || !Deref(st, v.value).ReturnValue?
  }

  /**
   * A program and a block stop at the same statement, the first whose
   * value is a return value or an error; the program gives the value a
   * return wraps and the block keeps it wrapped.
   */
  lemma {:induction false} ProgramUnwrapsWhatBlockKeeps(stmts: seq<Node>, i: nat, env: nat, st: State, result: Option<Ref>, fuel: nat)
    requires NotReturnValue(st, result)
    ensures EvalProgram(stmts, i, env, st, result, fuel) == UnwrapStep(EvalBlock(stmts, i, env, st, result, fuel))
    decreases |stmts| - i
  {
    if i < |stmts| {
      var s := Eval(stmts[i], env, st, fuel);
      match s.c
      case Thrown(_) =>
      case Normal(v) =>
        if v.Some? && Deref(s.st, v.value).ReturnValue? {
        } else if IsError(s.st, v) {
        } else {
          ProgramUnwrapsWhatBlockKeeps(stmts, i + 1, env, s.st, v, fuel);
        }
    }
  }

  /**
   * `let` evaluates its value first; when the value is not an error and the
   * name is bound anywhere along the chain, the result is a new error naming
   * it, on the line of the `let`, and no binding changes.
   */
  lemma LetRejectsBoundNames(tok: Tokens.Token, name: Node, value: Node, env: nat, st: State, fuel: nat)
    requires fuel > 0
    requires var s := Eval(value, env, st, fuel - 1);
      s.c.Normal? && !IsError(s.st, s.c.value) && ArenaGet(s.st.frames, env, NameOf(name)).Some?
    ensures var s := Eval(value, env, st, fuel - 1);
      var r := Eval(LetStatement(tok, name, value), env, st, fuel);
      && r.c == Normal(Some(|s.st.heap|))
      && r.st.frames == s.st.frames
      && r.st.heap == s.st.heap + [ErrorObj("Identifier " + NameOf(name) + " already exists", tok.line)]
  {
  }

  /**
   * A `let` whose name is unbound binds the value in the current frame only,
   * where looking the name up now finds it, and produces no value.
   */
  lemma LetBindsLocally(tok: Tokens.Token, name: Node, value: Node, env: nat, st: State, fuel: nat)
    requires fuel > 0
    requires var s := Eval(value, env, st, fuel - 1);
      && s.c.Normal? && s.c.value.Some? && !IsError(s.st, s.c.value)
      && env < |s.st.frames| && ArenaGet(s.st.frames, env, NameOf(name)).None?
    ensures var s := Eval(value, env, st, fuel - 1);
      var r := Eval(LetStatement(tok, name, value), env, st, fuel);
      && r.c == Normal(None)
      && r.st.heap == s.st.heap
      && ArenaGet(r.st.frames, env, NameOf(name)) == s.c.value
      && |r.st.frames| == |s.st.frames|
      && (forall j :: 0 <= j < |r.st.frames| && j != env ==> r.st.frames[j] == s.st.frames[j])
  {
    var s := Eval(value, env, st, fuel - 1);
    ArenaGetAfterSet(s.st.frames, env, NameOf(name), s.c.value.value);
  }

  /**
   * Parameter `j` is the last one with its name. Binding goes left to right,
   * so with `fn(x, x)` the second `x`, and so the second argument, wins.
   */
  predicate LastWithName(params: seq<Node>, j: nat)
  {
    forall m :: j < m < |params| ==> NameOf(params[m]) != NameOf(params[j])
  }

  /** The binding `extendFunctionEnv` gives parameter `j`: its argument, or none when that is missing or undefined. */
  function ArgFor(args: seq<Option<Ref>>, j: nat): Option<Ref>
  {
    if j < |args| then args[j] else None
  }

  /**
   * Binding parameters `i..` positionally writes only frame `frame`: each of
   * those parameter names is bound to the argument of the last parameter
   * with that name (unbound when that argument is missing), every other
   * name keeps its binding, and the frame's outer link and all other frames
   * are unchanged.
   */
  lemma {:induction false} ExtendEnvBindsParameters(st: State, frame: nat, params: seq<Node>, args: seq<Option<Ref>>, i: nat)
    requires frame < |st.frames| && i <= |params|
    ensures var st' := ExtendEnv(st, frame, params, args, i);
      && st'.frames[frame].outer == st.frames[frame].outer
      && (forall j :: 0 <= j < |st.frames| && j != frame ==> st'.frames[j] == st.frames[j])
      && (forall j :: i <= j < |params| && LastWithName(params, j) ==>
            (NameOf(params[j]) in st'.frames[frame].store <==> ArgFor(args, j).Some?)
            && (ArgFor(args, j).Some? ==> st'.frames[frame].store[NameOf(params[j])] == ArgFor(args, j).value))
      && (forall k :: (forall j :: i <= j < |params| ==> NameOf(params[j]) != k) ==>
            (k in st'.frames[frame].store <==> k in st.frames[frame].store)
            && (k in st.frames[frame].store ==> st'.frames[frame].store[k] == st.frames[frame].store[k]))
    decreases |params| - i
  {
    if i < |params| {
      var st1 := Bind(st, frame, NameOf(params[i]), ArgFor(args, i));
      assert ExtendEnv(st, frame, params, args, i) == ExtendEnv(st1, frame, params, args, i + 1);
      ExtendEnvBindsParameters(st1, frame, params, args, i + 1);
    }
  }

  /** The binding one parameter gets, when it is the last with its name and has an argument. */
  lemma BoundParameter(st: State, frame: nat, params: seq<Node>, args: seq<Option<Ref>>, j: nat)
    requires frame < |st.frames| && j < |params| && j < |args| && args[j].Some? && LastWithName(params, j)
    ensures var st' := ExtendEnv(st, frame, params, args, 0);
      && |st'.frames| == |st.frames| && st'.heap == st.heap
      && NameOf(params[j]) in st'.frames[frame].store
      && st'.frames[frame].store[NameOf(params[j])] == args[j].value
  {
    ExtendEnvBindsParameters(st, frame, params, args, 0);
  }

  /**
   * Calling a FunctionObj evaluates its body in a new frame, appended to the
   * arena, whose outer frame is the one the function captured and whose
   * store binds exactly the parameters given arguments, a repeated name
   * to the argument of its last occurrence.
   */
  lemma CallFrame(st: State, fn: Ref, params: seq<Node>, body: Node, fenv: nat, args: seq<Option<Ref>>)
    requires Deref(st, fn) == FunctionObj(params, body, fenv)
    ensures var frame := |st.frames|;
      var st1 := ExtendEnv(State(st.heap, st.frames + [Frame(map[], Some(fenv))]), frame, params, args, 0);
      && st1.heap == st.heap && st1.frames[..frame] == st.frames
      && st1.frames[frame].outer == Some(fenv)
      && (forall j :: 0 <= j < |params| && LastWithName(params, j) ==>
            ArenaGet(st1.frames, frame, NameOf(params[j])) ==
              if ArgFor(args, j).Some? then ArgFor(args, j)
              else if fenv < frame then ArenaGet(st.frames, fenv, NameOf(params[j])) else None)
      && (forall k :: k in st1.frames[frame].store ==> exists j :: 0 <= j < |params| && NameOf(params[j]) == k)
  {
    var frame := |st.frames|;
    var st0 := State(st.heap, st.frames + [Frame(map[], Some(fenv))]);
    var st1 := ExtendEnv(st0, frame, params, args, 0);
    ExtendEnvBindsParameters(st0, frame, params, args, 0);
    assert st1.frames[..frame] == st.frames;
    forall j | 0 <= j < |params| && LastWithName(params, j)
      ensures ArenaGet(st1.frames, frame, NameOf(params[j])) ==
              if ArgFor(args, j).Some? then ArgFor(args, j)
              else if fenv < frame then ArenaGet(st.frames, fenv, NameOf(params[j])) else None
    {
      if ArgFor(args, j).None? && fenv < frame {
        ArenaGetPrefix(st.frames, st1.frames, fenv, NameOf(params[j]));
      }
    }
  }

  /** Applying a callee that is neither a function nor a builtin is the error `not a function: TYPE`. */
  lemma NotAFunction(st: State, fn: Ref, args: seq<Option<Ref>>, fuel: nat)
    requires !Deref(st, fn).FunctionObj? && !Deref(st, fn).Builtin?
    ensures var s := Apply(fn, args, st, fuel);
      s.c == Normal(Some(|st.heap|)) && s.st.heap == st.heap + [ErrorObj("not a function: " + TypeOf(Deref(st, fn)), 0)]
  {
  }

  /** Two Integer literals combine into the Integer rounded down from the exact result. */
  lemma IntegerInfixLiterals(tok: Tokens.Token, t1: Tokens.Token, a: int, op: string, t2: Tokens.Token, b: int, env: nat, st: State, fuel: nat)
    requires fuel >= 2 && op in {"+", "-", "*", "/"} && (op == "/" ==> b != 0)
    ensures var r := Eval(InfixExpression(tok, IntegerLiteral(t1, a), op, IntegerLiteral(t2, b)), env, st, fuel);
      && r.c == Normal(Some(|st.heap| + 2))
      && Deref(r.st, |st.heap| + 2) == Integer(
        if op == "+" then a + b
        else if op == "-" then a - b
        else if op == "*" then a * b
        else if b > 0 then a / b
        else (-a) / (-b))
  {
    var st1 := Alloc(st, Integer(a)).1;
    var st2 := Alloc(st1, Integer(b)).1;
    var n := InfixExpression(tok, IntegerLiteral(t1, a), op, IntegerLiteral(t2, b));
    assert Eval(n, env, st, fuel) == EvalInfixExpression(n, IntegerLiteral(t1, a), op, IntegerLiteral(t2, b), env, st, fuel - 1);
    assert Eval(IntegerLiteral(t1, a), env, st, fuel - 1) == Step(Normal(Some(|st.heap|)), st1);
    assert Eval(IntegerLiteral(t2, b), env, st1, fuel - 1) == Step(Normal(Some(|st.heap| + 1)), st2);
    assert Deref(st1, |st.heap|) == Integer(a);
    assert Deref(st2, |st.heap|) == Integer(a);
    assert Deref(st2, |st.heap| + 1) == Integer(b);
    assert EvalInfix(st2, op, Some(|st.heap|), Some(|st.heap| + 1)) == NumberInfix(st2, op, Integer(a), Integer(b));
    IntegerArithmetic(st2, op, a, b);
  }

  /**
   * An unbound identifier inside an infix expression gives the error
   * `identifier not found`, re-tagged with the infix node's line: the
   * outermost node that passes an error on decides its line.
   */
  lemma UnboundIdentifierTaggedByOuterNode(tok: Tokens.Token, t: Tokens.Token, x: string, op: string, right: Node, env: nat, st: State, fuel: nat)
    requires fuel >= 2 && ArenaGet(st.frames, env, x).None? && BuiltinRef(x).None?
    ensures var r := Eval(InfixExpression(tok, Identifier(t, x), op, right), env, st, fuel);
      r.c == Normal(Some(|st.heap|)) && r.st.heap == st.heap + [ErrorObj("identifier not found: " + x, tok.line)]
  {
    var e := NewError(st, "identifier not found: " + x);
    var s := Retag(e.st, Identifier(t, x), e.c.value);
    assert Eval(Identifier(t, x), env, st, fuel - 1) == s;
    LastRetagWins(e.st, Identifier(t, x), InfixExpression(tok, Identifier(t, x), op, right), e.c.value);
  }

  /**
   * `if` evaluates its condition once and then exactly one branch: the
   * consequence when the condition's value is truthy, otherwise the
   * alternative, or NULL when there is none. An error in the condition is
   * passed on, re-tagged with the `if`'s line, and no branch runs.
   */
  lemma IfChoosesByTruthiness(tok: Tokens.Token, cond: Node, cons: Node, alt: Option<Node>, env: nat, st: State, fuel: nat)
    requires fuel > 0
    requires Eval(cond, env, st, fuel - 1).c.Normal?
    ensures var c := Eval(cond, env, st, fuel - 1);
      var cv := c.c.value;
      var r := Eval(IfExpression(tok, cond, cons, alt), env, st, fuel);
      && (IsError(c.st, cv) ==> r == Retag(c.st, IfExpression(tok, cond, cons, alt), cv))
      && (!IsError(c.st, cv) && cv.Some? && IsTruthy(c.st, cv.value) ==> r == Eval(cons, env, c.st, fuel - 1))
      && (!IsError(c.st, cv) && cv.Some? && !IsTruthy(c.st, cv.value) && alt.Some? ==> r == Eval(alt.value, env, c.st, fuel - 1))
      && (!IsError(c.st, cv) && cv.Some? && !IsTruthy(c.st, cv.value) && alt.None? ==> r == Step(Normal(Some(NULL)), c.st))
  {
  }

  /**
   * A `while` whose condition is falsy at the first test runs no round: it
   * yields nothing and leaves the state as the condition left it.
   */
  lemma WhileFalsyCondition(tok: Tokens.Token, cond: Node, body: Node, env: nat, st: State, fuel: nat)
    requires fuel > 0
    requires var c := Eval(cond, env, st, fuel - 1);
      c.c.Normal? && c.c.value.Some? && !IsError(c.st, c.c.value) && !IsTruthy(c.st, c.c.value.value)
    ensures var c := Eval(cond, env, st, fuel - 1);
      Eval(WhileStatement(tok, cond, body), env, st, fuel) == Step(Normal(None), c.st)
  {
    var n := WhileStatement(tok, cond, body);
    var c := Eval(cond, env, st, fuel - 1);
    WhileDispatch(tok, cond, body, env, st, fuel);
    assert EvalWhile(n, cond, body, env, st, fuel - 1) == WhileLoop(cond, body, env, c.st, c.c.value, fuel - 1);
  }

  /** `evalNode` hands a `while` statement to `evalWhileStatement`. */
  lemma WhileDispatch(tok: Tokens.Token, cond: Node, body: Node, env: nat, st: State, fuel: nat)
    requires fuel > 0
    ensures var n := WhileStatement(tok, cond, body);
      Eval(n, env, st, fuel) == EvalWhile(n, cond, body, env, st, fuel - 1)
  {
  }

  /**
   * The loop of `while` discards what each round of the body gives, return
   * values and errors included: when it completes, it yields nothing.
   */
  lemma {:induction false} WhileLoopYieldsNothing(cond: Node, body: Node, env: nat, st: State, cv: Option<Ref>, fuel: nat)
    ensures var r := WhileLoop(cond, body, env, st, cv, fuel);
      r.c.Normal? ==> r.c.value == None
    decreases fuel
  {
    if cv.Some? && IsTruthy(st, cv.value) && fuel > 0 {
      var b := if body.BlockStatement? then EvalBlock(body.statements, 0, env, st, None, fuel - 1)
               else Step(Thrown(TypeError), st);
      if b.c.Normal? {
        var c := Eval(cond, env, b.st, fuel - 1);
        if c.c.Normal? {
          WhileLoopYieldsNothing(cond, body, env, c.st, c.c.value, fuel - 1);
        }
      }
    }
  }

  /**
   * So a `while` statement yields a value only when its first test of the
   * condition is an error; `while (true) { return 1; }` never returns 1.
   */
  lemma WhileYieldsOnlyConditionErrors(tok: Tokens.Token, cond: Node, body: Node, env: nat, st: State, fuel: nat)
    requires fuel > 0
    ensures var r := Eval(WhileStatement(tok, cond, body), env, st, fuel);
      var c := Eval(cond, env, st, fuel - 1);
      r.c.Normal? && r.c.value.Some? ==> c.c.Normal? && IsError(c.st, c.c.value)
  {
    var c := Eval(cond, env, st, fuel - 1);
    WhileDispatch(tok, cond, body, env, st, fuel);
    if c.c.Normal? {
      WhileLoopYieldsNothing(cond, body, env, c.st, c.c.value, fuel - 1);
    }
  }

  /** An `if` whose condition is `false` and which has no `else` yields NULL and changes nothing. */
  lemma IfFalseWithoutElse(tok: Tokens.Token, t: Tokens.Token, cons: Node, env: nat, st: State, fuel: nat)
    requires fuel >= 2 && HasSingletons(st)
    ensures Eval(IfExpression(tok, BooleanLiteral(t, false), cons, None), env, st, fuel) == Step(Normal(Some(NULL)), st)
  {
    var n := IfExpression(tok, BooleanLiteral(t, false), cons, None);
    assert Eval(n, env, st, fuel) == EvalIf(n, BooleanLiteral(t, false), cons, None, env, st, fuel - 1);
    assert Eval(BooleanLiteral(t, false), env, st, fuel - 1) == Step(Normal(Some(FALSE)), st);
    assert !IsTruthy(st, FALSE);
  }

  /** An `if` whose condition is numeric zero takes the `else` branch: zero is falsy. */
  lemma IfZeroTakesElse(tok: Tokens.Token, t: Tokens.Token, cons: Node, alt: Node, env: nat, st: State, fuel: nat)
    requires fuel >= 2 && |st.heap| > NULL
    ensures var st' := Alloc(st, Integer(0)).1;
      Eval(IfExpression(tok, IntegerLiteral(t, 0), cons, Some(alt)), env, st, fuel) == Eval(alt, env, st', fuel - 1)
  {
    var st' := Alloc(st, Integer(0)).1;
    assert Eval(IntegerLiteral(t, 0), env, st, fuel - 1) == Step(Normal(Some(|st.heap|)), st');
    assert !IsTruthy(st', |st.heap|);
  }

  /** A function literal evaluates to a FunctionObj that captures the current frame. */
  lemma FunctionLiteralCaptures(tok: Tokens.Token, params: seq<Node>, body: Node, env: nat, st: State, fuel: nat)
    requires fuel > 0
    ensures var r := Eval(FunctionLiteral(tok, params, body), env, st, fuel);
      r.c == Normal(Some(|st.heap|)) && Deref(r.st, |st.heap|) == FunctionObj(params, body, env)
  {
  }

  /** The unquote modifier leaves every node but an unquote call with exactly one argument as it is. */
  lemma UnquoteOnlyRewritesUnquoteCalls(x: Node, u: Unquoting, env: nat, fuel: nat)
    requires !IsUnquoteCall(x) || |x.arguments| != 1
    ensures UnquoteStep(x, u, env, fuel) == (Some(x), u)
  {
  }

  /**
   * `convertObjectToASTNode`: an Integer becomes an IntegerLiteral whose INT
   * token spells its decimal text on the call's line; a Bool a
   * BooleanLiteral with the TRUE or FALSE token; a Quote its node; strings,
   * arrays, hashes, null, errors, functions and no value convert to nothing.
   */
  lemma ConvertedNodes(st: State, v: Option<Ref>, node: Node)
    ensures v.Some? && Deref(st, v.value).Integer? ==>
      var i := Deref(st, v.value).intValue;
      ConvertObjectToNode(st, v, node) == Some(IntegerLiteral(Tokens.Token(Tokens.Int, IntText(i), TokenLine(node)), i))
    ensures v.Some? && Deref(st, v.value).Bool? ==>
      var b := Deref(st, v.value).boolValue;
      && ConvertObjectToNode(st, v, node).Some?
      && ConvertObjectToNode(st, v, node).value.BooleanLiteral?
      && ConvertObjectToNode(st, v, node).value.boolValue == b
      && ConvertObjectToNode(st, v, node).value.token.kind == (if b then Tokens.True else Tokens.False)
    ensures v.Some? && Deref(st, v.value).Quote? ==> ConvertObjectToNode(st, v, node) == Some(Deref(st, v.value).node)
    ensures (v.None? || Deref(st, v.value).StringObj? || Deref(st, v.value).ArrayObj? || Deref(st, v.value).HashObj?
             || Deref(st, v.value).Null? || Deref(st, v.value).ErrorObj? || Deref(st, v.value).FunctionObj?) ==>
      ConvertObjectToNode(st, v, node).None?
  {
  }

  /**
   * A call that is not an unquote call is quoted as it is, arguments
   * included: `modify` does not descend into calls, so an unquote among
   * the arguments is never evaluated.
   */
  lemma QuoteKeepsCallsUnevaluated(tok: Tokens.Token, callee: Node, args: seq<Node>, rest: seq<Node>, env: nat, st: State, fuel: nat)
    requires TokenLiteral(callee) != "unquote"
    ensures QuoteCall([CallExpression(tok, callee, args)] + rest, env, st, fuel) == Yield(st, Quote(CallExpression(tok, callee, args)))
  {
    var x := CallExpression(tok, callee, args);
    ModifyLeavesOtherKinds(TypeScript, x, Unquoting(st, None), (y: Node, u: Unquoting) => UnquoteStep(y, u, env, fuel));
  }

  /**
   * `quote(unquote(e))` where `e` evaluates to an Integer gives a Quote of
   * an IntegerLiteral with that value, spelled in decimal on the unquote
   * call's line.
   */
  lemma QuoteOfUnquotedInteger(tok: Tokens.Token, callee: Node, e: Node, env: nat, st: State, fuel: nat)
    requires TokenLiteral(callee) == "unquote"
    requires var s := Eval(e, env, st, fuel);
      s.c.Normal? && s.c.value.Some? && Deref(s.st, s.c.value.value).Integer?
    ensures var s := Eval(e, env, st, fuel);
      var i := Deref(s.st, s.c.value.value).intValue;
      QuoteCall([CallExpression(tok, callee, [e])], env, st, fuel) ==
        Yield(s.st, Quote(IntegerLiteral(Tokens.Token(Tokens.Int, IntText(i), tok.line), i)))
  {
    var x := CallExpression(tok, callee, [e]);
    ModifyLeavesOtherKinds(TypeScript, x, Unquoting(st, None), (y: Node, u: Unquoting) => UnquoteStep(y, u, env, fuel));
  }

  /**
   * An unquote whose argument evaluates to something that does not convert
   * back to a node makes `quote` give the error `Failed to evaluate unquote
   * inside of a macro` on the quoted node's line.
   */
  lemma QuoteOfUnconvertible(tok: Tokens.Token, callee: Node, e: Node, env: nat, st: State, fuel: nat)
    requires TokenLiteral(callee) == "unquote"
    requires var s := Eval(e, env, st, fuel);
      s.c.Normal? && ConvertObjectToNode(s.st, s.c.value, CallExpression(tok, callee, [e])).None?
    ensures var s := Eval(e, env, st, fuel);
      QuoteCall([CallExpression(tok, callee, [e])], env, st, fuel) ==
        Yield(s.st, ErrorObj("Failed to evaluate unquote inside of a macro", tok.line))
  {
    var x := CallExpression(tok, callee, [e]);
    ModifyLeavesOtherKinds(TypeScript, x, Unquoting(st, None), (y: Node, u: Unquoting) => UnquoteStep(y, u, env, fuel));
  }
}
