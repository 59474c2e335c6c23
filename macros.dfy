/**
 * Macro definition and expansion (ts/src/evaluator/macro_expansion.ts).
 *
 * `defineMacros` takes the top-level `let <name> = macro(...) {...}`
 * statements out of a program and binds each as a Macro object in the given
 * frame; `expandMacros` walks the program with `modify` and replaces each
 * call of a bound macro by the node its body evaluates to.
 */
module Macros {
  import opened Wrappers
  import opened Ast
  import opened Objects
  import opened Environments
  import opened Runtime
  import opened Rewriting
  import opened Evaluation
  import opened EvaluatorFacts

  /** `isMacroDefinition`. */
  predicate IsMacroDefinition(s: Node)
  {
    s.LetStatement? && s.value.MacroLiteral?
  }

  /** The statements `defineMacros` keeps, in their order. */
  function Kept(stmts: seq<Node>): (r: seq<Node>)
    ensures |r| <= |stmts|
    ensures forall k :: 0 <= k < |r| ==> !IsMacroDefinition(r[k])
  {
    if |stmts| == 0 then []
    else if IsMacroDefinition(stmts[0]) then Kept(stmts[1..])
    else [stmts[0]] + Kept(stmts[1..])
  }

  /** `addMacro`: binds a Macro of the literal's parameters and body, closing over frame `env`. */
  function AddMacro(st: State, stmt: Node, env: nat): (st': State)
    requires IsMacroDefinition(stmt)
  {
    var (r, st1) := Alloc(st, Macro(stmt.value.parameters, stmt.value.body, env));
    Bind(st1, env, NameOf(stmt.name), Some(r))
  }

  /** The bindings made by the definitions among statements `i..`, in order. */
  function DefineFrom(stmts: seq<Node>, i: nat, env: nat, st: State): State
    decreases |stmts| - i
  {
    if i >= |stmts| then st
    else if IsMacroDefinition(stmts[i]) then DefineFrom(stmts, i + 1, env, AddMacro(st, stmts[i], env))
    else DefineFrom(stmts, i + 1, env, st)
  }

  /** No statement of `s` is a macro definition. */
  predicate NoDefinitions(s: seq<Node>)
  {
    forall k :: 0 <= k < |s| ==> !IsMacroDefinition(s[k])
  }

  lemma {:induction false} KeptConcat(a: seq<Node>, b: seq<Node>)
    ensures Kept(a + b) == Kept(a) + Kept(b)
    decreases |a|
  {
    if |a| > 0 {
      assert (a + b)[0] == a[0];
      assert (a + b)[1..] == a[1..] + b;
      KeptConcat(a[1..], b);
    } else {
      assert a + b == b;
    }
  }

  lemma {:induction false} KeptNoDefinitions(s: seq<Node>)
    requires NoDefinitions(s)
    ensures Kept(s) == s
    decreases |s|
  {
    if |s| > 0 {
      KeptNoDefinitions(s[1..]);
    }
  }

  /**
   * `definitions` lists, in increasing order, exactly the positions of the
   * macro definitions in `program`.
   */
  predicate Collected(program: seq<Node>, definitions: seq<nat>, upto: nat)
  {
    && (forall j :: 0 <= j < |definitions| ==> definitions[j] < upto && definitions[j] < |program| && IsMacroDefinition(program[definitions[j]]))
    && (forall j, k :: 0 <= j < k < |definitions| ==> definitions[j] < definitions[k])
    && (forall m :: 0 <= m < upto && m < |program| && IsMacroDefinition(program[m]) ==> m in definitions)
  }

  /** Between two consecutive collected positions (or after the last) there is no definition. */
  lemma GapHasNoDefinitions(program: seq<Node>, definitions: seq<nat>, i: nat)
    requires Collected(program, definitions, |program|) && i <= |definitions|
    ensures var lo := if i == 0 then 0 else definitions[i - 1] + 1;
      var hi := if i < |definitions| then definitions[i] else |program|;
      lo <= hi <= |program| && NoDefinitions(program[lo..hi])
  {
    var lo := if i == 0 then 0 else definitions[i - 1] + 1;
    var hi := if i < |definitions| then definitions[i] else |program|;
    forall m | lo <= m < hi
      ensures !IsMacroDefinition(program[m])
    {
      if IsMacroDefinition(program[m]) {
        assert false;
      }
    }
    assert forall k :: 0 <= k < hi - lo ==> program[lo..hi][k] == program[lo + k];
  }

  /** Recording position `i` keeps the collected list exact. */
  lemma CollectStep(program: seq<Node>, definitions: seq<nat>, i: nat)
    requires i < |program| && Collected(program, definitions, i)
    ensures IsMacroDefinition(program[i]) ==> Collected(program, definitions + [i], i + 1)
    ensures !IsMacroDefinition(program[i]) ==> Collected(program, definitions, i + 1)
  {
    if IsMacroDefinition(program[i]) {
      var ds := definitions + [i];
      forall m | 0 <= m < i + 1 && m < |program| && IsMacroDefinition(program[m])
        ensures m in ds
      {
        if m < i {
          assert m in definitions;
        } else {
          assert ds[|definitions|] == m;
        }
      }
    }
  }

  /** Splicing out the definition at `d` extends the filtered suffix down to `d`. */
  lemma SpliceStep(program: seq<Node>, d: nat, b: nat, stmts: seq<Node>)
    requires d < b <= |program| && IsMacroDefinition(program[d]) && NoDefinitions(program[d + 1..b])
    requires stmts == program[..b] + Kept(program[b..])
    ensures stmts[..d] + stmts[d + 1..] == program[..d] + Kept(program[d..])
  {
    KeptNoDefinitions(program[d + 1..b]);
    assert program[d..] == [program[d]] + (program[d + 1..b] + program[b..]);
    KeptConcat(program[d + 1..b], program[b..]);
    assert Kept(program[d..]) == Kept(program[d + 1..b] + program[b..]) by {
      assert program[d..][0] == program[d];
      assert program[d..][1..] == program[d + 1..b] + program[b..];
    }
    assert stmts[..d] == program[..d];
    assert stmts[d + 1..] == program[d + 1..b] + Kept(program[b..]);
  }

  /**
   * `defineMacros`: binds every macro definition, in order, collecting their
   * positions, then splices those positions out of the statement list.
   */
  method DefineMacros(program: seq<Node>, env: nat, st: State) returns (stmts: seq<Node>, st': State)
    ensures stmts == Kept(program)
    ensures st' == DefineFrom(program, 0, env, st)
  {
    var definitions: seq<nat> := [];
    st' := st;
    for i := 0 to |program|
      invariant DefineFrom(program, i, env, st') == DefineFrom(program, 0, env, st)
      invariant Collected(program, definitions, i)
    {
      CollectStep(program, definitions, i);
      if IsMacroDefinition(program[i]) {
        st' := AddMacro(st', program[i], env);
        definitions := definitions + [i];
      }
    }
    stmts := RemoveDefinitions(program, definitions);
  }

  /**
   * The splice loop of `defineMacros`: removes the collected positions from
   * the back, so each removal hits the statement it was collected for.
   */
  method RemoveDefinitions(program: seq<Node>, definitions: seq<nat>) returns (stmts: seq<Node>)
    requires Collected(program, definitions, |program|)
    ensures stmts == Kept(program)
  {
    stmts := program;
    var i := |definitions|;
    while i > 0
      invariant 0 <= i <= |definitions|
      invariant var b := if i < |definitions| then definitions[i] else |program|;
        b <= |program| && stmts == program[..b] + Kept(program[b..])
      decreases i
    {
      var b := if i < |definitions| then definitions[i] else |program|;
      GapHasNoDefinitions(program, definitions, i);
      SpliceStep(program, definitions[i - 1], b, stmts);
      stmts := stmts[..definitions[i - 1]] + stmts[definitions[i - 1] + 1..];
      i := i - 1;
    }
    GapHasNoDefinitions(program, definitions, 0);
    var b := if 0 < |definitions| then definitions[0] else |program|;
    assert program[0..b] == program[..b];
    KeptAfterPrefix(program, b);
  }

  /** A prefix without definitions is kept whole in front of what is kept of the rest. */
  lemma KeptAfterPrefix(program: seq<Node>, b: nat)
    requires b <= |program| && NoDefinitions(program[..b])
    ensures program[..b] + Kept(program[b..]) == Kept(program)
  {
    KeptNoDefinitions(program[..b]);
    KeptConcat(program[..b], program[b..]);
    assert program[..b] + program[b..] == program;
  }

  /** Defining macros keeps the arena's frames and only appends to the heap. */
  lemma {:induction false} DefineFromShape(stmts: seq<Node>, i: nat, env: nat, st: State)
    ensures var st' := DefineFrom(stmts, i, env, st);
      |st'.frames| == |st.frames| && |st.heap| <= |st'.heap| && st'.heap[..|st.heap|] == st.heap
    decreases |stmts| - i
  {
    if i < |stmts| {
      if IsMacroDefinition(stmts[i]) {
        var st1 := AddMacro(st, stmts[i], env);
        DefineFromShape(stmts, i + 1, env, st1);
        var st' := DefineFrom(stmts, i + 1, env, st1);
        assert st'.heap[..|st.heap|] == st'.heap[..|st1.heap|][..|st.heap|];
      } else {
        DefineFromShape(stmts, i + 1, env, st);
      }
    }
  }

  /** Defining macros rebinds only in frame `env`, and only the names it defines. */
  lemma {:induction false} DefineFromBindsOnlyMacros(stmts: seq<Node>, i: nat, env: nat, st: State, x: string)
    requires env < |st.frames|
    requires forall k :: i <= k < |stmts| && IsMacroDefinition(stmts[k]) ==> NameOf(stmts[k].name) != x
    ensures var st' := DefineFrom(stmts, i, env, st);
      && |st'.frames| == |st.frames|
      && (forall j :: 0 <= j < |st.frames| && j != env ==> st'.frames[j] == st.frames[j])
      && st'.frames[env].outer == st.frames[env].outer
      && (x in st'.frames[env].store <==> x in st.frames[env].store)
      && (x in st.frames[env].store ==> st'.frames[env].store[x] == st.frames[env].store[x])
    decreases |stmts| - i
  {
    DefineFromShape(stmts, i, env, st);
    if i < |stmts| {
      if IsMacroDefinition(stmts[i]) {
        DefineFromBindsOnlyMacros(stmts, i + 1, env, AddMacro(st, stmts[i], env), x);
      } else {
        DefineFromBindsOnlyMacros(stmts, i + 1, env, st, x);
      }
    }
  }

  /**
   * After `defineMacros`, the name of the last definition of a macro is
   * bound in frame `env` to a Macro of that definition's parameters and
   * body, closing over `env`: later definitions overwrite earlier ones.
   */
  lemma {:induction false} LastDefinitionWins(stmts: seq<Node>, i: nat, env: nat, st: State, j: nat)
    requires env < |st.frames| && i <= j < |stmts| && IsMacroDefinition(stmts[j])
    requires forall k :: j < k < |stmts| && IsMacroDefinition(stmts[k]) ==> NameOf(stmts[k].name) != NameOf(stmts[j].name)
    ensures var st' := DefineFrom(stmts, i, env, st);
      var x := NameOf(stmts[j].name);
      && |st'.frames| == |st.frames|
      && x in st'.frames[env].store
      && Deref(st', st'.frames[env].store[x]) == Macro(stmts[j].value.parameters, stmts[j].value.body, env)
    decreases |stmts| - i
  {
    DefineFromShape(stmts, i, env, st);
    if i < j {
      if IsMacroDefinition(stmts[i]) {
        LastDefinitionWins(stmts, i + 1, env, AddMacro(st, stmts[i], env), j);
      } else {
        LastDefinitionWins(stmts, i + 1, env, st, j);
      }
    } else {
      var st1 := AddMacro(st, stmts[j], env);
      var x := NameOf(stmts[j].name);
      var r := |st.heap|;
      assert x in st1.frames[env].store && st1.frames[env].store[x] == r;
      assert Deref(st1, r) == Macro(stmts[j].value.parameters, stmts[j].value.body, env);
      DefineFromBindsOnlyMacros(stmts, j + 1, env, st1, x);
      DefineFromShape(stmts, j + 1, env, st1);
      var st' := DefineFrom(stmts, j + 1, env, st1);
      assert st'.heap[r] == st'.heap[..|st1.heap|][r];
    }
  }

  /** What `expandMacros` threads through `modify`: the state, and the host exception that ended it, if any. */
  datatype Expansion = Expansion(st: State, thrown: Option<Host>)

  /** `getMacroCall`: the Macro the callee identifier is bound to along the chain, if any. */
  function GetMacroCall(callee: Node, env: nat, st: State): (r: Option<Ref>)
    ensures r.Some? ==> Deref(st, r.value).Macro?
  {
    if !callee.Identifier? then None
    else
      match ArenaGet(st.frames, env, callee.ident)
      case Some(r) => if Deref(st, r).Macro? then Some(r) else None
      case None => None
  }

  /** `quoteArgs`: a new Quote of each argument, unevaluated, in order. */
  function QuoteArgs(st: State, args: seq<Node>): (res: (State, seq<Option<Ref>>))
    ensures |res.1| == |args| && forall k :: 0 <= k < |args| ==> res.1[k] == Some(|st.heap| + k)
    ensures |res.0.heap| == |st.heap| + |args| && res.0.heap[..|st.heap|] == st.heap
    ensures forall k :: 0 <= k < |args| ==> res.0.heap[|st.heap| + k] == Quote(args[k])
    ensures res.0.frames == st.frames
  {
    if |args| == 0 then (st, [])
    else
      var (st1, refs) := QuoteArgs(st, args[..|args| - 1]);
      var (r, st2) := Alloc(st1, Quote(args[|args| - 1]));
      (st2, refs + [Some(r)])
  }

  /** The same, with the loop the source writes. */
  method QuoteArgsLoop(st: State, args: seq<Node>) returns (st': State, quoted: seq<Option<Ref>>)
    ensures (st', quoted) == QuoteArgs(st, args)
  {
    st' := st;
    quoted := [];
    for i := 0 to |args|
      invariant (st', quoted) == QuoteArgs(st, args[..i])
    {
      assert args[..i + 1][..i] == args[..i];
      var r;
      r, st' := Alloc(st', Quote(args[i])).0, Alloc(st', Quote(args[i])).1;
      quoted := quoted + [Some(r)];
    }
    assert args[..|args|] == args;
  }

  /**
   * The state a macro body runs in: the arguments quoted, then a new frame
   * enclosing the macro's frame `menv` (`extendMacroEnv`), appended at index
   * `|st.frames|`, binding the parameters to the quotes positionally.
   */
  function MacroCallState(st: State, params: seq<Node>, menv: nat, args: seq<Node>): State
  {
    var (st1, quoted) := QuoteArgs(st, args);
    ExtendEnv(State(st1.heap, st1.frames + [Frame(map[], Some(menv))]), |st1.frames|, params, quoted, 0)
  }

  /** The node that replaces a macro call, chosen by what the body evaluated to. */
  function MacroResultNode(st: State, v: Option<Ref>, body: Node): (n: Node)
  {
    if v.Some? && Deref(st, v.value).Quote? then Deref(st, v.value).node
    else if v.Some? && Deref(st, v.value).ErrorObj? then ErrorLiteral(Deref(st, v.value).message, Deref(st, v.value).line)
    else ErrorLiteral("we only support returning AST-nodes from macros", TokenLine(body))
  }

  /** The modifier of `expandMacros`. */
  function ExpandStep(x: Node, e: Expansion, env: nat, fuel: nat): (Option<Node>, Expansion)
  {
    if e.thrown.Some? || !x.CallExpression? then (Some(x), e)
    else
      match GetMacroCall(x.callee, env, e.st)
      case None => (Some(x), e)
      case Some(m) =>
        var macro := Deref(e.st, m);
        var s := Eval(macro.body, |e.st.frames|, MacroCallState(e.st, macro.parameters, macro.env, x.arguments), fuel);
        match s.c
        case Thrown(h) => (Some(x), Expansion(s.st, Some(h)))
        case Normal(v) => (Some(MacroResultNode(s.st, v, macro.body)), Expansion(s.st, None))
  }

  /** `expandMacros(program, env)`. */
  function ExpandMacros(program: Node, env: nat, st: State, fuel: nat): Step<Option<Node>>
  {
    var w := Modify(TypeScript, program, Expansion(st, None), (x: Node, e: Expansion) => ExpandStep(x, e, env, fuel));
    match w.state.thrown
    case Some(h) => Step(Thrown(h), w.state.st)
    case None => Step(Normal(w.result), w.state.st)
  }

  /** A node that is not a call of a bound macro is left as it is, and nothing is evaluated. */
  lemma ExpandLeavesOtherNodes(x: Node, e: Expansion, env: nat, fuel: nat)
    requires !x.CallExpression? || GetMacroCall(x.callee, env, e.st).None?
    ensures ExpandStep(x, e, env, fuel) == (Some(x), e)
  {
  }

  /**
   * A macro call's body is evaluated in a new frame enclosing the macro's
   * frame, where each parameter is bound to a new Quote of the argument in
   * its position, unevaluated; a repeated name holds the argument of its
   * last occurrence.
   */
  lemma MacroArgumentsQuoted(st: State, args: seq<Node>, params: seq<Node>, menv: nat)
    ensures var st2 := MacroCallState(st, params, menv, args);
      && |st2.frames| == |st.frames| + 1
      && st2.frames[..|st.frames|] == st.frames
      && st2.frames[|st.frames|].outer == Some(menv)
      && forall j :: 0 <= j < |params| && j < |args| && LastWithName(params, j) ==>
           NameOf(params[j]) in st2.frames[|st.frames|].store
           && Deref(st2, st2.frames[|st.frames|].store[NameOf(params[j])]) == Quote(args[j])
  {
    MacroFrameShape(st, params, menv, args);
    var st2 := MacroCallState(st, params, menv, args);
    forall j | 0 <= j < |params| && j < |args| && LastWithName(params, j)
      ensures NameOf(params[j]) in st2.frames[|st.frames|].store
      ensures Deref(st2, st2.frames[|st.frames|].store[NameOf(params[j])]) == Quote(args[j])
    {
      MacroParameterQuoted(st, params, menv, args, j);
    }
  }

  /** The frames after binding a macro's parameters: one new frame enclosed by `menv`. */
  lemma MacroFrameShape(st: State, params: seq<Node>, menv: nat, args: seq<Node>)
    ensures var st2 := MacroCallState(st, params, menv, args);
      && |st2.frames| == |st.frames| + 1
      && st2.frames[..|st.frames|] == st.frames
      && st2.frames[|st.frames|].outer == Some(menv)
  {
    var res := QuoteArgs(st, args);
    var frame := |st.frames|;
    var st0 := State(res.0.heap, res.0.frames + [Frame(map[], Some(menv))]);
    ExtendEnvBindsParameters(st0, frame, params, res.1, 0);
    var st2 := ExtendEnv(st0, frame, params, res.1, 0);
    assert st2 == MacroCallState(st, params, menv, args);
    assert forall j :: 0 <= j < frame ==> st2.frames[j] == st.frames[j];
  }

  /** A macro parameter that is the last with its name is bound to the Quote of its argument. */
  lemma MacroParameterQuoted(st: State, params: seq<Node>, menv: nat, args: seq<Node>, j: nat)
    requires j < |params| && j < |args| && LastWithName(params, j)
    ensures var st2 := MacroCallState(st, params, menv, args);
      && |st.frames| < |st2.frames|
      && NameOf(params[j]) in st2.frames[|st.frames|].store
      && Deref(st2, st2.frames[|st.frames|].store[NameOf(params[j])]) == Quote(args[j])
  {
    var res := QuoteArgs(st, args);
    var frame := |st.frames|;
    var st0 := State(res.0.heap, res.0.frames + [Frame(map[], Some(menv))]);
    BoundParameter(st0, frame, params, res.1, j);
    var st2 := ExtendEnv(st0, frame, params, res.1, 0);
    assert st2 == MacroCallState(st, params, menv, args);
    assert res.0.heap[|st.heap| + j] == Quote(args[j]);
  }

  /**
   * The body's result decides the replacement: a Quote gives its node, an
   * error an ErrorLiteral with its message and line, anything else (a
   * return value wrapping a Quote included) the ErrorLiteral saying only AST
   * nodes may be returned, on the body's line.
   */
  lemma MacroResults(st: State, v: Option<Ref>, body: Node)
    ensures v.Some? && Deref(st, v.value).Quote? ==> MacroResultNode(st, v, body) == Deref(st, v.value).node
    ensures v.Some? && Deref(st, v.value).ErrorObj? ==>
      MacroResultNode(st, v, body) == ErrorLiteral(Deref(st, v.value).message, Deref(st, v.value).line)
    ensures (v.None? || !(Deref(st, v.value).Quote? || Deref(st, v.value).ErrorObj?)) ==>
      MacroResultNode(st, v, body) == ErrorLiteral("we only support returning AST-nodes from macros", TokenLine(body))
  {
    if v.Some? {
      var o := Deref(st, v.value);
      if o.Quote? {
        assert MacroResultNode(st, v, body) == o.node;
      } else if o.ErrorObj? {
        assert MacroResultNode(st, v, body) == ErrorLiteral(o.message, o.line);
      }
    }
  }

  /**
   * A call whose callee is not a bound macro is kept whole, arguments
   * included: `modify` does not descend into calls, so a macro call among
   * its arguments is not expanded.
   */
  lemma NestedMacroCallsNotExpanded(tok: Tokens.Token, callee: Node, args: seq<Node>, env: nat, st: State, fuel: nat)
    requires GetMacroCall(callee, env, st).None?
    ensures ExpandMacros(CallExpression(tok, callee, args), env, st, fuel) == Step(Normal(Some(CallExpression(tok, callee, args))), st)
  {
    var x := CallExpression(tok, callee, args);
    ModifyLeavesOtherKinds(TypeScript, x, Expansion(st, None), (y: Node, e: Expansion) => ExpandStep(y, e, env, fuel));
  }
}
