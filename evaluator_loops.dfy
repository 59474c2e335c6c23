/**
 * The loops of ts/src/evaluator/index.ts, written as the source writes
 * them, each proved to compute what the evaluator's function for it
 * computes.
 */
module EvaluatorLoops {
  import opened Wrappers
  import opened Ast
  import opened Objects
  import opened Runtime
  import opened Evaluation

  /** `evalProgram`: runs the statements until a return value or an error. */
  method RunProgram(stmts: seq<Node>, env: nat, st: State, fuel: nat) returns (s: Step<Option<Ref>>)
    ensures s == EvalProgram(stmts, 0, env, st, None, fuel)
  {
    var result: Option<Ref> := None;
    var cur := st;
    var i := 0;
    while i < |stmts|
      invariant i <= |stmts|
      invariant EvalProgram(stmts, i, env, cur, result, fuel) == EvalProgram(stmts, 0, env, st, None, fuel)
      decreases |stmts| - i
    {
      var r := Eval(stmts[i], env, cur, fuel);
      if r.c.Thrown? {
        return r;
      }
      result := r.c.value;
      cur := r.st;
      if result.Some? && Deref(cur, result.value).ReturnValue? {
        return Step(Normal(Deref(cur, result.value).inner), cur);
      }
      if IsError(cur, result) {
        return r;
      }
      i := i + 1;
    }
    return Step(Normal(result), cur);
  }

  /** `evalBlockStatement`: runs the statements until a return value or an error, which it passes on wrapped. */
  method RunBlock(stmts: seq<Node>, env: nat, st: State, fuel: nat) returns (s: Step<Option<Ref>>)
    ensures s == EvalBlock(stmts, 0, env, st, None, fuel)
  {
    var result: Option<Ref> := None;
    var cur := st;
    var i := 0;
    while i < |stmts|
      invariant i <= |stmts|
      invariant EvalBlock(stmts, i, env, cur, result, fuel) == EvalBlock(stmts, 0, env, st, None, fuel)
      decreases |stmts| - i
    {
      var r := Eval(stmts[i], env, cur, fuel);
      if r.c.Thrown? {
        return r;
      }
      result := r.c.value;
      cur := r.st;
      if result.Some? {
        var rt := TypeOf(Deref(cur, result.value));
        if rt == "RETURN_VALUE" || rt == "ERROR" {
          return r;
        }
      }
      i := i + 1;
    }
    return Step(Normal(result), cur);
  }

  /** `evalExpressions`: the values in order, or a one-element list holding the first error. */
  method RunExpressions(exps: seq<Node>, env: nat, st: State, fuel: nat) returns (s: Step<seq<Option<Ref>>>)
    ensures s == EvalExpressions(exps, 0, env, st, [], fuel)
  {
    var result: seq<Option<Ref>> := [];
    var cur := st;
    var i := 0;
    while i < |exps|
      invariant i <= |exps|
      invariant EvalExpressions(exps, i, env, cur, result, fuel) == EvalExpressions(exps, 0, env, st, [], fuel)
      decreases |exps| - i
    {
      var r := Eval(exps[i], env, cur, fuel);
      if r.c.Thrown? {
        return Step(Thrown(r.c.reason), r.st);
      }
      cur := r.st;
      if IsError(cur, r.c.value) {
        return Step(Normal([r.c.value]), cur);
      }
      result := result + [r.c.value];
      i := i + 1;
    }
    return Step(Normal(result), cur);
  }

  /** `evalHashLiteral`: evaluates each key, then its value, and sets the pair in a new map. */
  method RunHashLiteral(n: Node, pairs: seq<(Node, Node)>, env: nat, st: State, fuel: nat) returns (s: Step<Option<Ref>>)
    ensures s == EvalHash(n, pairs, 0, env, st, [], fuel)
  {
    var pairsSoFar: seq<HashPair> := [];
    var cur := st;
    var i := 0;
    while i < |pairs|
      invariant i <= |pairs|
      invariant EvalHash(n, pairs, i, env, cur, pairsSoFar, fuel) == EvalHash(n, pairs, 0, env, st, [], fuel)
      decreases |pairs| - i
    {
      var k := Eval(pairs[i].0, env, cur, fuel);
      if k.c.Thrown? {
        return k;
      }
      cur := k.st;
      if IsError(cur, k.c.value) {
        return Retag(cur, n, k.c.value);
      }
      if k.c.value.None? {
        return Step(Normal(None), cur);
      }
      var key := Deref(cur, k.c.value.value);
      var hk := HashKeyOf(key);
      if hk.None? {
        return NewError(cur, "unusable as hash key: " + TypeOf(key));
      }
      var v := Eval(pairs[i].1, env, cur, fuel);
      if v.c.Thrown? {
        return v;
      }
      cur := v.st;
      if IsError(cur, v.c.value) {
        return Retag(cur, n, v.c.value);
      }
      if v.c.value.None? {
        return Step(Normal(None), cur);
      }
      pairsSoFar := PutPair(pairsSoFar, HashPair(hk.value, k.c.value.value, v.c.value));
      i := i + 1;
    }
    return Yield(cur, HashObj(pairsSoFar));
  }

  /** `extendFunctionEnv`: binds each parameter, in order, to its argument in frame `frame`. */
  method BindParameters(st: State, frame: nat, params: seq<Node>, args: seq<Option<Ref>>) returns (st': State)
    ensures st' == ExtendEnv(st, frame, params, args, 0)
  {
    st' := st;
    for i := 0 to |params|
      invariant ExtendEnv(st', frame, params, args, i) == ExtendEnv(st, frame, params, args, 0)
    {
      st' := Bind(st', frame, NameOf(params[i]), if i < |args| then args[i] else None);
    }
  }

  /**
   * `evalWhileStatement`: tests the condition, then runs the body and tests
   * again for as long as it is truthy, one unit of fuel per round.
   */
  method RunWhile(n: Node, cond: Node, body: Node, env: nat, st: State, fuel: nat) returns (s: Step<Option<Ref>>)
    ensures s == EvalWhile(n, cond, body, env, st, fuel)
  {
    var c := Eval(cond, env, st, fuel);
    if c.c.Thrown? {
      return c;
    }
    if IsError(c.st, c.c.value) {
      return Retag(c.st, n, c.c.value);
    }
    var cur := c.st;
    var cv := c.c.value;
    var f := fuel;
    while true
      invariant WhileLoop(cond, body, env, cur, cv, f) == EvalWhile(n, cond, body, env, st, fuel)
      decreases f
    {
      if cv.None? {
        return Step(Thrown(TypeError), cur);
      }
      if !IsTruthy(cur, cv.value) {
        return Step(Normal(None), cur);
      }
      if f == 0 {
        return Step(Thrown(OutOfFuel), cur);
      }
      var b: Step<Option<Ref>>;
      if body.BlockStatement? {
        b := RunBlock(body.statements, env, cur, f - 1);
      } else {
        b := Step(Thrown(TypeError), cur);
      }
      if b.c.Thrown? {
        return Step(Thrown(b.c.reason), b.st);
      }
      var c' := Eval(cond, env, b.st, f - 1);
      if c'.c.Thrown? {
        return c';
      }
      cur := c'.st;
      cv := c'.c.value;
      f := f - 1;
    }
  }
}
