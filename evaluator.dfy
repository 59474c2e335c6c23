/**
 * `evalCode` and its helpers (ts/src/evaluator/index.ts), with `quote` and
 * `unquote` (ts/src/evaluator/quote_unquote.ts), which call back into it.
 *
 * Evaluation is a function of the node, the index of the current frame and
 * the state; `fuel` bounds the number of nested steps and loop iterations,
 * standing for programs that do not terminate.  A value the source leaves
 * `undefined` is `None`.
 */
module Evaluation {
  import opened Wrappers
  import opened Ast
  import Tokens
  import opened Objects
  import opened Environments
  import opened Numerals
  import opened Runtime
  import opened Builtins
  import opened Rewriting

  /** The key under which a parameter or a `let` name is bound: an identifier's name. */
  function NameOf(n: Node): string
  {
    if n.Identifier? then n.ident else TokenLiteral(n)
  }

  /** `env.set(name, value)` on frame `env`; binding `undefined` removes the binding. */
  function Bind(st: State, env: nat, name: string, v: Option<Ref>): (st': State)
    ensures st'.heap == st.heap && |st'.frames| == |st.frames|
  {
    if env >= |st.frames| then st
    else match v
      case Some(r) => State(st.heap, ArenaSet(st.frames, env, name, r))
      case None => State(st.heap, ArenaUnset(st.frames, env, name))
  }

  /** `unwrapReturnValue`. */
  function Unwrap(st: State, v: Option<Ref>): Option<Ref>
  {
    if v.Some? && Deref(st, v.value).ReturnValue? then Deref(st, v.value).inner else v
  }

  /** Re-tags the result of an operation when it is an error, as most cases of `evalCode` do. */
  function RetagIfError(s: Step<Option<Ref>>, node: Node): Step<Option<Ref>>
  {
    if s.c.Normal? && IsError(s.st, s.c.value) then Retag(s.st, node, s.c.value) else s
  }

  /** `evalCode(node, env)`. */
  function Eval(n: Node, env: nat, st: State, fuel: nat): Step<Option<Ref>>
    decreases fuel, 0
  {
    if fuel == 0 then Step(Thrown(OutOfFuel), st)
    else
      var f := fuel - 1;
      match n
      case Program(stmts) => EvalProgram(stmts, 0, env, st, None, f)
      case ExpressionStatement(_, e) => Eval(e, env, st, f)
      case BlockStatement(_, stmts) => EvalBlock(stmts, 0, env, st, None, f)
      case LetStatement(_, name, value) => EvalLet(n, name, value, env, st, f)
      case Identifier(_, name) => EvalIdentifier(n, name, env, st)
      case CallExpression(_, callee, args) => EvalCall(n, callee, args, env, st, f)
      case IntegerLiteral(_, v) => Yield(st, Integer(v))
      case FloatLiteral(_, v) => Yield(st, Float(v))
      case BooleanLiteral(_, b) => Step(Normal(Some(BoolRef(b))), st)
      case StringLiteral(_, s) => Yield(st, StringObj(s))
      case ArrayLiteral(_, elems) => EvalArray(n, elems, env, st, f)
      case IndexExpression(_, left, index) => EvalIndexExpression(n, left, index, env, st, f)
      case HashLiteral(_, pairs) => RetagIfError(EvalHash(n, pairs, 0, env, st, [], f), n)
      case FunctionLiteral(_, params, body) => Yield(st, FunctionObj(params, body, env))
      case PrefixExpression(_, op, right) => EvalPrefixExpression(n, op, right, env, st, f)
      case InfixExpression(_, left, op, right) => EvalInfixExpression(n, left, op, right, env, st, f)
      case IfExpression(_, cond, cons, alt) => EvalIf(n, cond, cons, alt, env, st, f)
      case ReturnStatement(_, value) => EvalReturn(n, value, env, st, f)
      case WhileStatement(_, cond, body) => EvalWhile(n, cond, body, env, st, f)
      case ErrorLiteral(message, line) => Yield(st, ErrorObj(message, line))
      case _ => Step(Normal(None), st)
  }

  /** `evalProgram` from statement `i` on, `result` holding the last statement's value. */
  function EvalProgram(stmts: seq<Node>, i: nat, env: nat, st: State, result: Option<Ref>, fuel: nat): Step<Option<Ref>>
    decreases fuel, 1, |stmts| - i
  {
    if i >= |stmts| then Step(Normal(result), st)
    else
      var s := Eval(stmts[i], env, st, fuel);
      match s.c
      case Thrown(_) => s
      case Normal(v) =>
        if v.Some? && Deref(s.st, v.value).ReturnValue? then Step(Normal(Deref(s.st, v.value).inner), s.st)
        else if IsError(s.st, v) then s
        else EvalProgram(stmts, i + 1, env, s.st, v, fuel)
  }

  /** `evalBlockStatement` from statement `i` on: stops at a return value or an error, keeping it as it is. */
  function EvalBlock(stmts: seq<Node>, i: nat, env: nat, st: State, result: Option<Ref>, fuel: nat): Step<Option<Ref>>
    decreases fuel, 1, |stmts| - i
  {
    if i >= |stmts| then Step(Normal(result), st)
    else
      var s := Eval(stmts[i], env, st, fuel);
      match s.c
      case Thrown(_) => s
      case Normal(v) =>
        if v.Some? && (Deref(s.st, v.value).ReturnValue? || Deref(s.st, v.value).ErrorObj?) then s
        else EvalBlock(stmts, i + 1, env, s.st, v, fuel)
  }

  /** `evalExpressions` from expression `i` on: the values in order, or just the first error. */
  function EvalExpressions(exps: seq<Node>, i: nat, env: nat, st: State, acc: seq<Option<Ref>>, fuel: nat): Step<seq<Option<Ref>>>
    decreases fuel, 1, |exps| - i
  {
    if i >= |exps| then Step(Normal(acc), st)
    else
      var s := Eval(exps[i], env, st, fuel);
      match s.c
      case Thrown(h) => Step(Thrown(h), s.st)
      case Normal(v) =>
        if IsError(s.st, v) then Step(Normal([v]), s.st)
        else EvalExpressions(exps, i + 1, env, s.st, acc + [v], fuel)
  }

  /** The `LetStatement` case: the value first, then the check that the name is unbound along the chain. */
  function EvalLet(n: Node, name: Node, value: Node, env: nat, st: State, fuel: nat): Step<Option<Ref>>
    decreases fuel, 1
  {
    var s := Eval(value, env, st, fuel);
    match s.c
    case Thrown(_) => s
    case Normal(v) =>
      if IsError(s.st, v) then Retag(s.st, n, v)
      else if ArenaGet(s.st.frames, env, NameOf(name)).Some? then
        Yield(s.st, ErrorObj("Identifier " + NameOf(name) + " already exists", TokenLine(n)))
      else Step(Normal(None), Bind(s.st, env, NameOf(name), v))
  }

  /** `evalIdentifier`: the environment chain first, then the builtins. */
  function EvalIdentifier(n: Node, name: string, env: nat, st: State): Step<Option<Ref>>
  {
    match ArenaGet(st.frames, env, name)
    case Some(r) => RetagIfError(Step(Normal(Some(r)), st), n)
    case None =>
      match BuiltinRef(name)
      case Some(r) => Step(Normal(Some(r)), st)
      case None => RetagIfError(NewError(st, "identifier not found: " + name), n)
  }

  /** The `CallExpression` case. */
  function EvalCall(n: Node, callee: Node, args: seq<Node>, env: nat, st: State, fuel: nat): Step<Option<Ref>>
    decreases fuel, 5
  {
    if TokenLiteral(callee) == "quote" then QuoteCall(args, env, st, fuel)
    else
      var fn := Eval(callee, env, st, fuel);
      match fn.c
      case Thrown(_) => fn
      case Normal(fv) =>
        if IsError(fn.st, fv) then Retag(fn.st, n, fv)
        else
          var a := EvalExpressions(args, 0, env, fn.st, [], fuel);
          match a.c
          case Thrown(h) => Step(Thrown(h), a.st)
          case Normal(vals) =>
            if |vals| == 1 && IsError(a.st, vals[0]) then Retag(a.st, n, vals[0])
            else if fv.None? then Step(Thrown(TypeError), a.st)
            else RetagIfError(Apply(fv.value, vals, a.st, fuel), n)
  }

  /** `extendFunctionEnv` from parameter `i` on: parameters bound positionally in frame `frame`. */
  function ExtendEnv(st: State, frame: nat, params: seq<Node>, args: seq<Option<Ref>>, i: nat): (st': State)
    ensures st'.heap == st.heap && |st'.frames| == |st.frames|
    decreases |params| - i
  {
    if i >= |params| then st
    else ExtendEnv(Bind(st, frame, NameOf(params[i]), if i < |args| then args[i] else None), frame, params, args, i + 1)
  }

  /** `applyFunction`. */
  function Apply(fn: Ref, args: seq<Option<Ref>>, st: State, fuel: nat): Step<Option<Ref>>
    decreases fuel, 1
  {
    match Deref(st, fn)
    case FunctionObj(params, body, fenv) =>
      var frame := |st.frames|;
      var st1 := ExtendEnv(State(st.heap, st.frames + [Frame(map[], Some(fenv))]), frame, params, args, 0);
      var s := Eval(body, frame, st1, fuel);
      (match s.c
       case Thrown(_) => s
       case Normal(v) => Step(Normal(Unwrap(s.st, v)), s.st))
    case Builtin(b) => ApplyBuiltin(st, b, args)
    case o => NewError(st, "not a function: " + TypeOf(o))
  }

  /** The `ArrayLiteral` case. */
  function EvalArray(n: Node, elems: seq<Node>, env: nat, st: State, fuel: nat): Step<Option<Ref>>
    decreases fuel, 2
  {
    var a := EvalExpressions(elems, 0, env, st, [], fuel);
    match a.c
    case Thrown(h) => Step(Thrown(h), a.st)
    case Normal(vals) =>
      if |vals| == 1 && IsError(a.st, vals[0]) then Retag(a.st, n, vals[0])
      else Yield(a.st, ArrayObj(vals))
  }

  /** The `IndexExpression` case; an error in the left operand is passed on without re-tagging. */
  function EvalIndexExpression(n: Node, left: Node, index: Node, env: nat, st: State, fuel: nat): Step<Option<Ref>>
    decreases fuel, 1
  {
    var l := Eval(left, env, st, fuel);
    match l.c
    case Thrown(_) => l
    case Normal(lv) =>
      if IsError(l.st, lv) then l
      else
        var i := Eval(index, env, l.st, fuel);
        match i.c
        case Thrown(_) => i
        case Normal(iv) =>
          if IsError(i.st, iv) then Retag(i.st, n, iv)
          else RetagIfError(EvalIndex(i.st, lv, iv), n)
  }

  /** `evalHashLiteral` from pair `i` on, `acc` holding the map built so far. */
  function EvalHash(n: Node, pairs: seq<(Node, Node)>, i: nat, env: nat, st: State, acc: seq<HashPair>, fuel: nat): Step<Option<Ref>>
    decreases fuel, 1, |pairs| - i
  {
    if i >= |pairs| then Yield(st, HashObj(acc))
    else
      var k := Eval(pairs[i].0, env, st, fuel);
      match k.c
      case Thrown(_) => k
      case Normal(kv) =>
        if IsError(k.st, kv) then Retag(k.st, n, kv)
        else if kv.None? then Step(Normal(None), k.st)
        else
          var key := Deref(k.st, kv.value);
          match HashKeyOf(key)
          case None => NewError(k.st, "unusable as hash key: " + TypeOf(key))
          case Some(hk) =>
            var v := Eval(pairs[i].1, env, k.st, fuel);
            match v.c
            case Thrown(_) => v
            case Normal(vv) =>
              if IsError(v.st, vv) then Retag(v.st, n, vv)
              else if vv.None? then Step(Normal(None), v.st)
              else EvalHash(n, pairs, i + 1, env, v.st, PutPair(acc, HashPair(hk, kv.value, vv)), fuel)
  }

  /** The `PrefixExpression` case. */
  function EvalPrefixExpression(n: Node, op: string, right: Node, env: nat, st: State, fuel: nat): Step<Option<Ref>>
    decreases fuel, 1
  {
    var r := Eval(right, env, st, fuel);
    match r.c
    case Thrown(_) => r
    case Normal(rv) =>
      if IsError(r.st, rv) then Retag(r.st, n, rv)
      else RetagIfError(EvalPrefix(r.st, op, rv), n)
  }

  /** The `InfixExpression` case. */
  function EvalInfixExpression(n: Node, left: Node, op: string, right: Node, env: nat, st: State, fuel: nat): Step<Option<Ref>>
    decreases fuel, 1
  {
    var l := Eval(left, env, st, fuel);
    match l.c
    case Thrown(_) => l
    case Normal(lv) =>
      if IsError(l.st, lv) then Retag(l.st, n, lv)
      else
        var r := Eval(right, env, l.st, fuel);
        match r.c
        case Thrown(_) => r
        case Normal(rv) =>
          if IsError(r.st, rv) then Retag(r.st, n, rv)
          else RetagIfError(EvalInfix(r.st, op, lv, rv), n)
  }

  /** `evalIfExpression`. */
  function EvalIf(n: Node, cond: Node, cons: Node, alt: Option<Node>, env: nat, st: State, fuel: nat): Step<Option<Ref>>
    decreases fuel, 1
  {
    var c := Eval(cond, env, st, fuel);
    match c.c
    case Thrown(_) => c
    case Normal(cv) =>
      if IsError(c.st, cv) then Retag(c.st, n, cv)
      else if cv.None? then Step(Thrown(TypeError), c.st)
      else if IsTruthy(c.st, cv.value) then Eval(cons, env, c.st, fuel)
      else
        match alt
        case Some(a) => Eval(a, env, c.st, fuel)
        case None => Step(Normal(Some(NULL)), c.st)
  }

  /** The `ReturnStatement` case. */
  function EvalReturn(n: Node, value: Node, env: nat, st: State, fuel: nat): Step<Option<Ref>>
    decreases fuel, 1
  {
    var v := Eval(value, env, st, fuel);
    match v.c
    case Thrown(_) => v
    case Normal(x) =>
      if IsError(v.st, x) then Retag(v.st, n, x)
      else Yield(v.st, ReturnValue(x))
  }

  /** `evalWhileStatement`: only an error in the first test of the condition is reported. */
  function EvalWhile(n: Node, cond: Node, body: Node, env: nat, st: State, fuel: nat): Step<Option<Ref>>
    decreases fuel, 2
  {
    var c := Eval(cond, env, st, fuel);
    match c.c
    case Thrown(_) => c
    case Normal(cv) =>
      if IsError(c.st, cv) then Retag(c.st, n, cv)
      else WhileLoop(cond, body, env, c.st, cv, fuel)
  }

  /**
   * The loop of `evalWhileStatement`: the body's results, return values and
   * errors included, are discarded; each round costs one unit of fuel.
   */
  function WhileLoop(cond: Node, body: Node, env: nat, st: State, cv: Option<Ref>, fuel: nat): Step<Option<Ref>>
    decreases fuel, 1
  {
    if cv.None? then Step(Thrown(TypeError), st)
    else if !IsTruthy(st, cv.value) then Step(Normal(None), st)
    else if fuel == 0 then Step(Thrown(OutOfFuel), st)
    else
      var b := if body.BlockStatement? then EvalBlock(body.statements, 0, env, st, None, fuel - 1)
               else Step(Thrown(TypeError), st);
      match b.c
      case Thrown(h) => Step(Thrown(h), b.st)
      case Normal(_) =>
        var c := Eval(cond, env, b.st, fuel - 1);
        match c.c
        case Thrown(_) => c
        case Normal(cv') => WhileLoop(cond, body, env, c.st, cv', fuel - 1)
  }

  /** What `evalUnquoteCalls` threads through `modify`: the state, and the host exception that ended it, if any. */
  datatype Unquoting = Unquoting(st: State, thrown: Option<Host>)

  /** `isUnquoteCall`. */
  predicate IsUnquoteCall(n: Node)
  {
    n.CallExpression? && TokenLiteral(n.callee) == "unquote"
  }

  /** `convertObjectToASTNode`: numbers and booleans become literals on the call's line, a Quote its node. */
  function ConvertObjectToNode(st: State, v: Option<Ref>, node: Node): (r: Option<Node>)
    ensures r.Some? <==> v.Some? && (Deref(st, v.value).Integer? || Deref(st, v.value).Float? || Deref(st, v.value).Bool? || Deref(st, v.value).Quote?)
  {
    if v.None? then None
    else
      match Deref(st, v.value)
      case Integer(i) => Some(IntegerLiteral(Tokens.Token(Tokens.Int, IntText(i), TokenLine(node)), i))
      case Float(x) => Some(FloatLiteral(Tokens.Token(Tokens.Float, FloatText(x), TokenLine(node)), x))
      case Bool(b) =>
        Some(BooleanLiteral(if b then Tokens.Token(Tokens.True, "true", TokenLine(node))
                            else Tokens.Token(Tokens.False, "false", TokenLine(node)), b))
      case Quote(q) => Some(q)
      case _ => None
  }

  /** The modifier of `evalUnquoteCalls`; once the host has thrown nothing more is evaluated. */
  function UnquoteStep(x: Node, u: Unquoting, env: nat, fuel: nat): (Option<Node>, Unquoting)
    decreases fuel, 2
  {
    if u.thrown.Some? || !IsUnquoteCall(x) || |x.arguments| != 1 then (Some(x), u)
    else
      var s := Eval(x.arguments[0], env, u.st, fuel);
      match s.c
      case Thrown(h) => (Some(x), Unquoting(s.st, Some(h)))
      case Normal(v) => (ConvertObjectToNode(s.st, v, x), Unquoting(s.st, None))
  }

  /** `evalUnquoteCalls`: `modify` with the unquote modifier. */
  function EvalUnquoteCalls(node: Node, env: nat, st: State, fuel: nat): Rewrite<Unquoting>
    decreases fuel, 3
  {
    Modify(TypeScript, node, Unquoting(st, None), (x: Node, u: Unquoting) => UnquoteStep(x, u, env, fuel))
  }

  /** `quote(args[0], env)`, reached for any callee whose token literal is "quote". */
  function QuoteCall(args: seq<Node>, env: nat, st: State, fuel: nat): Step<Option<Ref>>
    decreases fuel, 4
  {
    if |args| == 0 then Step(Thrown(TypeError), st)
    else
      var r := EvalUnquoteCalls(args[0], env, st, fuel);
      if r.state.thrown.Some? then Step(Thrown(r.state.thrown.value), r.state.st)
      else
        match r.result
        case None => Yield(r.state.st, ErrorObj("Failed to evaluate unquote inside of a macro", TokenLine(args[0])))
        case Some(q) => Yield(r.state.st, Quote(q))
  }
}
