/**
 * Post-order rewriting of syntax trees: `modify` of ts/src/ast/modify.ts and
 * `Modify` of go/ast/modify.go.
 *
 * Both walk a fixed set of node kinds, rewrite the children first (left to
 * right), store each rewritten child back into its slot in place, and finally
 * hand the updated node to the modifier.  A child whose rewrite fails stops
 * the walk at once.  They differ only in what counts as a failed child: in
 * TypeScript a missing result, in Go also a result of the wrong kind for the
 * slot (a type assertion).
 *
 * Trees are values here.  The in-place updates are modelled by returning, next
 * to the result, the state the node object is left in (`after`): its child
 * slots hold the rewritten children up to the point where the walk stopped.
 * The modifier may carry a state of its own (the evaluator, for `quote`).
 */
module Rewriting {
  import opened Wrappers
  import opened Ast

  datatype Dialect = TypeScript | Go

  /** What a child slot holds, as the Go code asserts it. */
  datatype Slot = StatementSlot | ExpressionSlot | BlockSlot | IdentifierSlot

  /** Whether a rewritten child may be stored in a slot. */
  predicate Accepts(d: Dialect, slot: Slot, x: Node)
  {
    d == TypeScript ||
    match slot
    case StatementSlot => IsStatement(x)
    case ExpressionSlot => IsExpression(x)
    case BlockSlot => x.BlockStatement?
    case IdentifierSlot => x.Identifier?
  }

  /** The result of rewriting one node: the modifier's answer, the node's own final state, the modifier state. */
  datatype Rewrite<S> = Rewrite(result: Option<Node>, after: Node, state: S)

  /**
   * A child slot after its child was visited: whether the walk goes on, what
   * the slot now holds, and the state the child object itself was left in.
   */
  datatype Visit<S> = Visit(ok: bool, slot: Node, inPlace: Node, state: S)

  datatype ListVisit<S> = ListVisit(ok: bool, items: seq<Node>, state: S)

  /** `modify(node, modifier)`. */
  function Modify<S>(d: Dialect, n: Node, st: S, f: (Node, S) -> (Option<Node>, S)): (r: Rewrite<S>)
    decreases n, 2
  {
    var c := VisitChildren(d, n, st, f);
    if !c.ok then Rewrite(None, c.slot, c.state)
    else
      var (res, st') := f(c.slot, c.state);
      Rewrite(res, c.slot, st')
  }

  /** Rewrites one child and decides whether its result may be stored in `slot`. */
  function VisitChild<S>(d: Dialect, slot: Slot, x: Node, st: S, f: (Node, S) -> (Option<Node>, S)): (v: Visit<S>)
    decreases x, 3
  {
    var r := Modify(d, x, st, f);
    if r.result.Some? && Accepts(d, slot, r.result.value) then Visit(true, r.result.value, r.after, r.state)
    else Visit(false, r.after, r.after, r.state)
  }

  /** The loop over a list of children, from index `i` on; earlier slots are left as they are. */
  function VisitList<S>(d: Dialect, slot: Slot, xs: seq<Node>, i: nat, st: S, f: (Node, S) -> (Option<Node>, S)): (r: ListVisit<S>)
    requires i <= |xs|
    ensures |r.items| == |xs| && r.items[..i] == xs[..i]
    decreases xs, |xs| - i
  {
    if i == |xs| then ListVisit(true, xs, st)
    else
      var c := VisitChild(d, slot, xs[i], st, f);
      if !c.ok then ListVisit(false, xs[i := c.slot], c.state)
      else
        var rest := VisitList(d, slot, xs, i + 1, c.state, f);
        ListVisit(rest.ok, rest.items[i := c.slot], rest.state)
  }

  /**
   * The loop over the pairs of a hash literal from index `i` on.  On success
   * the rewritten pairs form a new list; on failure the old list stays, its
   * visited keys and values left in their in-place states.
   */
  function VisitPairs<S>(d: Dialect, n: Node, i: nat, st: S, f: (Node, S) -> (Option<Node>, S)): (r: (bool, seq<(Node, Node)>, S))
    requires n.HashLiteral? && i <= |n.pairs|
    ensures |r.1| == |n.pairs|
    ensures !r.0 ==> r.1[..i] == n.pairs[..i]
    decreases n, 0, |n.pairs| - i
  {
    if i == |n.pairs| then (true, n.pairs, st)
    else
      var (key, value) := n.pairs[i];
      var k := VisitChild(d, ExpressionSlot, key, st, f);
      if !k.ok then (false, n.pairs[i := (k.inPlace, value)], k.state)
      else
        var v := VisitChild(d, ExpressionSlot, value, k.state, f);
        if !v.ok then (false, n.pairs[i := (k.inPlace, v.inPlace)], v.state)
        else
          var rest := VisitPairs(d, n, i + 1, v.state, f);
          if rest.0 then (true, rest.1[i := (k.slot, v.slot)], rest.2)
          else (false, rest.1[i := (k.inPlace, v.inPlace)], rest.2)
  }

  /**
   * The `switch` of `modify`: visits the children of the kinds it lists and
   * returns the node as it stands afterwards.
   */
  function VisitChildren<S>(d: Dialect, n: Node, st: S, f: (Node, S) -> (Option<Node>, S)): (c: Visit<S>)
    decreases n, 1
  {
    match n
    case Program(stmts) =>
      var l := VisitList(d, StatementSlot, stmts, 0, st, f);
      var m := Program(l.items);
      Visit(l.ok, m, m, l.state)
    case ExpressionStatement(tok, e) =>
      var c := VisitChild(d, ExpressionSlot, e, st, f);
      var m := ExpressionStatement(tok, c.slot);
      Visit(c.ok, m, m, c.state)
    case InfixExpression(_, _, _, _) => VisitInfix(d, n, st, f)
    case PrefixExpression(tok, op, right) =>
      var c := VisitChild(d, ExpressionSlot, right, st, f);
      var m := PrefixExpression(tok, op, c.slot);
      Visit(c.ok, m, m, c.state)
    case IndexExpression(_, _, _) => VisitIndex(d, n, st, f)
    case IfExpression(_, _, _, _) => VisitIf(d, n, st, f)
    case BlockStatement(tok, stmts) =>
      var l := VisitList(d, StatementSlot, stmts, 0, st, f);
      var m := BlockStatement(tok, l.items);
      Visit(l.ok, m, m, l.state)
    case ReturnStatement(tok, value) =>
      var c := VisitChild(d, ExpressionSlot, value, st, f);
      var m := ReturnStatement(tok, c.slot);
      Visit(c.ok, m, m, c.state)
    case LetStatement(tok, name, value) =>
      var c := VisitChild(d, ExpressionSlot, value, st, f);
      var m := LetStatement(tok, name, c.slot);
      Visit(c.ok, m, m, c.state)
    case FunctionLiteral(_, _, _) => VisitFunction(d, n, st, f)
    case ArrayLiteral(tok, elems) =>
      var l := VisitList(d, ExpressionSlot, elems, 0, st, f);
      var m := ArrayLiteral(tok, l.items);
      Visit(l.ok, m, m, l.state)
    case HashLiteral(tok, pairs) =>
      var (ok, pairs', st') := VisitPairs(d, n, 0, st, f);
      var m := HashLiteral(tok, pairs');
      Visit(ok, m, m, st')
    case _ => Visit(true, n, n, st)
  }

  function VisitInfix<S>(d: Dialect, n: Node, st: S, f: (Node, S) -> (Option<Node>, S)): Visit<S>
    requires n.InfixExpression?
    decreases n, 0
  {
    var a := VisitChild(d, ExpressionSlot, n.left, st, f);
    if !a.ok then var m := InfixExpression(n.token, a.slot, n.operator, n.right); Visit(false, m, m, a.state)
    else
      var b := VisitChild(d, ExpressionSlot, n.right, a.state, f);
      var m := InfixExpression(n.token, a.slot, n.operator, b.slot);
      Visit(b.ok, m, m, b.state)
  }

  function VisitIndex<S>(d: Dialect, n: Node, st: S, f: (Node, S) -> (Option<Node>, S)): Visit<S>
    requires n.IndexExpression?
    decreases n, 0
  {
    var a := VisitChild(d, ExpressionSlot, n.left, st, f);
    if !a.ok then var m := IndexExpression(n.token, a.slot, n.index); Visit(false, m, m, a.state)
    else
      var b := VisitChild(d, ExpressionSlot, n.index, a.state, f);
      var m := IndexExpression(n.token, a.slot, b.slot);
      Visit(b.ok, m, m, b.state)
  }

  /** The alternative is visited only when there is one. */
  function VisitIf<S>(d: Dialect, n: Node, st: S, f: (Node, S) -> (Option<Node>, S)): Visit<S>
    requires n.IfExpression?
    decreases n, 0
  {
    var a := VisitChild(d, ExpressionSlot, n.condition, st, f);
    if !a.ok then var m := IfExpression(n.token, a.slot, n.consequence, n.alternative); Visit(false, m, m, a.state)
    else
      var b := VisitChild(d, BlockSlot, n.consequence, a.state, f);
      var m := IfExpression(n.token, a.slot, b.slot, n.alternative);
      if !b.ok || n.alternative.None? then Visit(b.ok, m, m, b.state)
      else
        var c := VisitChild(d, BlockSlot, n.alternative.value, b.state, f);
        var m' := IfExpression(n.token, a.slot, b.slot, Some(c.slot));
        Visit(c.ok, m', m', c.state)
  }

  /** The parameters are visited as identifiers, then the body as a block. */
  function VisitFunction<S>(d: Dialect, n: Node, st: S, f: (Node, S) -> (Option<Node>, S)): Visit<S>
    requires n.FunctionLiteral?
    decreases n, 0
  {
    var l := VisitList(d, IdentifierSlot, n.parameters, 0, st, f);
    var m := FunctionLiteral(n.token, l.items, n.body);
    if !l.ok then Visit(false, m, m, l.state)
    else
      var b := VisitChild(d, BlockSlot, n.body, l.state, f);
      var m' := FunctionLiteral(n.token, l.items, b.slot);
      Visit(b.ok, m', m', b.state)
  }

  /** The kinds whose children `modify` visits. */
  predicate Descended(n: Node)
  {
    n.Program? || n.ExpressionStatement? || n.InfixExpression? || n.PrefixExpression? || n.IndexExpression?
    || n.IfExpression? || n.BlockStatement? || n.ReturnStatement? || n.LetStatement? || n.FunctionLiteral?
    || n.ArrayLiteral? || n.HashLiteral?
  }

  /**
   * The reference order of a walk: the children visited, each in post-order,
   * left to right, then the node itself.
   */
  function PostOrder(n: Node): (s: seq<Node>)
    ensures |s| > 0 && s[|s| - 1] == n
    decreases n, 2
  {
    ChildrenPostOrder(n) + [n]
  }

  /** The part of `PostOrder(n)` before `n` itself: the walks of its children, left to right. */
  function ChildrenPostOrder(n: Node): seq<Node>
    decreases n, 1
  {
    match n
    case Program(stmts) => PostOrderList(stmts, 0)
    case ExpressionStatement(_, e) => PostOrder(e)
    case InfixExpression(_, left, _, right) => PostOrder(left) + PostOrder(right)
    case PrefixExpression(_, _, right) => PostOrder(right)
    case IndexExpression(_, left, index) => PostOrder(left) + PostOrder(index)
    case IfExpression(_, cond, cons, alt) =>
      PostOrder(cond) + PostOrder(cons) + (if alt.Some? then PostOrder(alt.value) else [])
    case BlockStatement(_, stmts) => PostOrderList(stmts, 0)
    case ReturnStatement(_, value) => PostOrder(value)
    case LetStatement(_, _, value) => PostOrder(value)
    case FunctionLiteral(_, params, body) => PostOrderList(params, 0) + PostOrder(body)
    case ArrayLiteral(_, elems) => PostOrderList(elems, 0)
    case HashLiteral(_, _) => PostOrderPairs(n, 0)
    case _ => []
  }

  function PostOrderList(xs: seq<Node>, i: nat): seq<Node>
    requires i <= |xs|
    decreases xs, |xs| - i
  {
    if i == |xs| then [] else PostOrder(xs[i]) + PostOrderList(xs, i + 1)
  }

  function PostOrderPairs(n: Node, i: nat): seq<Node>
    requires n.HashLiteral? && i <= |n.pairs|
    decreases n, 0, |n.pairs| - i
  {
    if i == |n.pairs| then [] else PostOrder(n.pairs[i].0) + PostOrder(n.pairs[i].1) + PostOrderPairs(n, i + 1)
  }

  /** A modifier that keeps every node and records the order in which it was called. */
  function Record(x: Node, log: seq<Node>): (Option<Node>, seq<Node>)
  {
    (Some(x), log + [x])
  }

  /**
   * With a modifier that returns its argument, `modify` returns the node
   * unchanged, and it calls the modifier exactly on the visited nodes,
   * children before parents, left to right.
   */
  lemma {:induction false} ModifyVisitsInPostOrder(n: Node, log: seq<Node>)
    ensures Modify(TypeScript, n, log, Record) == Rewrite(Some(n), n, log + PostOrder(n))
    decreases n, 3
  {
    ChildrenInPostOrder(n, log);
    assert log + ChildrenPostOrder(n) + [n] == log + PostOrder(n);
  }

  lemma {:induction false} ChildInPostOrder(slot: Slot, x: Node, log: seq<Node>)
    ensures VisitChild(TypeScript, slot, x, log, Record) == Visit(true, x, x, log + PostOrder(x))
    decreases x, 4
  {
    ModifyVisitsInPostOrder(x, log);
  }

  lemma {:induction false} ListInPostOrder(slot: Slot, xs: seq<Node>, i: nat, log: seq<Node>)
    requires i <= |xs|
    ensures VisitList(TypeScript, slot, xs, i, log, Record) == ListVisit(true, xs, log + PostOrderList(xs, i))
    decreases xs, |xs| - i
  {
    if i == |xs| {
      assert log + PostOrderList(xs, i) == log;
    } else {
      ChildInPostOrder(slot, xs[i], log);
      ListInPostOrder(slot, xs, i + 1, log + PostOrder(xs[i]));
      assert log + PostOrder(xs[i]) + PostOrderList(xs, i + 1) == log + PostOrderList(xs, i);
      assert xs[i := xs[i]] == xs;
    }
  }

  lemma {:induction false} PairsInPostOrder(n: Node, i: nat, log: seq<Node>)
    requires n.HashLiteral? && i <= |n.pairs|
    ensures VisitPairs(TypeScript, n, i, log, Record) == (true, n.pairs, log + PostOrderPairs(n, i))
    decreases n, 0, |n.pairs| - i
  {
    if i == |n.pairs| {
      assert log + PostOrderPairs(n, i) == log;
    } else {
      var (key, value) := n.pairs[i];
      ChildInPostOrder(ExpressionSlot, key, log);
      ChildInPostOrder(ExpressionSlot, value, log + PostOrder(key));
      PairsInPostOrder(n, i + 1, log + PostOrder(key) + PostOrder(value));
      assert log + PostOrder(key) + PostOrder(value) + PostOrderPairs(n, i + 1) == log + PostOrderPairs(n, i);
      assert n.pairs[i := (key, value)] == n.pairs;
    }
  }

  lemma {:induction false} ChildrenInPostOrder(n: Node, log: seq<Node>)
    ensures VisitChildren(TypeScript, n, log, Record) == Visit(true, n, n, log + ChildrenPostOrder(n))
    decreases n, 2
  {
    match n
    case Program(_) => ListChildrenInPostOrder(n, log);
    case BlockStatement(_, _) => ListChildrenInPostOrder(n, log);
    case ArrayLiteral(_, _) => ListChildrenInPostOrder(n, log);
    case ExpressionStatement(_, _) => OneChildInPostOrder(n, log);
    case PrefixExpression(_, _, _) => OneChildInPostOrder(n, log);
    case ReturnStatement(_, _) => OneChildInPostOrder(n, log);
    case LetStatement(_, _, _) => OneChildInPostOrder(n, log);
    case InfixExpression(tok, left, op, right) =>
      InfixInPostOrder(tok, left, op, right, log);
      assert VisitChildren(TypeScript, n, log, Record) == VisitInfix(TypeScript, n, log, Record);
    case IndexExpression(tok, left, index) =>
      IndexInPostOrder(tok, left, index, log);
      assert VisitChildren(TypeScript, n, log, Record) == VisitIndex(TypeScript, n, log, Record);
    case IfExpression(tok, cond, cons, alt) =>
      IfInPostOrder(tok, cond, cons, alt, log);
      assert VisitChildren(TypeScript, n, log, Record) == VisitIf(TypeScript, n, log, Record);
    case FunctionLiteral(tok, params, body) =>
      FunctionInPostOrder(tok, params, body, log);
      assert VisitChildren(TypeScript, n, log, Record) == VisitFunction(TypeScript, n, log, Record);
    case HashLiteral(_, _) =>
      PairsInPostOrder(n, 0, log);
    case _ =>
      assert log + ChildrenPostOrder(n) == log;
  }

  /** Programs, blocks and array literals: their list of children, in order. */
  lemma {:induction false} ListChildrenInPostOrder(n: Node, log: seq<Node>)
    requires n.Program? || n.BlockStatement? || n.ArrayLiteral?
    ensures VisitChildren(TypeScript, n, log, Record) == Visit(true, n, n, log + ChildrenPostOrder(n))
    decreases n, 0
  {
    match n
    case Program(stmts) =>
      ListInPostOrder(StatementSlot, stmts, 0, log);
    case BlockStatement(_, stmts) =>
      ListInPostOrder(StatementSlot, stmts, 0, log);
    case ArrayLiteral(_, elems) =>
      ListInPostOrder(ExpressionSlot, elems, 0, log);
  }

  /** Expression statements, prefix expressions, `return` and `let`: their one expression child. */
  lemma {:induction false} OneChildInPostOrder(n: Node, log: seq<Node>)
    requires n.ExpressionStatement? || n.PrefixExpression? || n.ReturnStatement? || n.LetStatement?
    ensures VisitChildren(TypeScript, n, log, Record) == Visit(true, n, n, log + ChildrenPostOrder(n))
    decreases n, 0
  {
    match n
    case ExpressionStatement(_, e) =>
      ChildInPostOrder(ExpressionSlot, e, log);
    case PrefixExpression(_, _, right) =>
      ChildInPostOrder(ExpressionSlot, right, log);
    case ReturnStatement(_, value) =>
      ChildInPostOrder(ExpressionSlot, value, log);
    case LetStatement(_, _, value) =>
      ChildInPostOrder(ExpressionSlot, value, log);
  }

  /** Infix expressions: the left operand, then the right one. */
  lemma {:induction false} InfixInPostOrder(tok: Tokens.Token, left: Node, op: string, right: Node, log: seq<Node>)
    ensures var n := InfixExpression(tok, left, op, right);
      VisitInfix(TypeScript, n, log, Record) == Visit(true, n, n, log + ChildrenPostOrder(n))
    decreases InfixExpression(tok, left, op, right), 0
  {
    var n := InfixExpression(tok, left, op, right);
    ChildInPostOrder(ExpressionSlot, left, log);
    var a := VisitChild(TypeScript, ExpressionSlot, left, log, Record);
    assert a.ok && a.slot == left;
    ChildInPostOrder(ExpressionSlot, right, a.state);
    var b := VisitChild(TypeScript, ExpressionSlot, right, a.state, Record);
    assert b.ok && b.slot == right;
    assert VisitInfix(TypeScript, n, log, Record) == Visit(true, n, n, b.state);
    assert b.state == log + ChildrenPostOrder(n);
  }

  /** Index expressions: the indexed operand, then the index. */
  lemma {:induction false} IndexInPostOrder(tok: Tokens.Token, left: Node, index: Node, log: seq<Node>)
    ensures var n := IndexExpression(tok, left, index);
      VisitIndex(TypeScript, n, log, Record) == Visit(true, n, n, log + ChildrenPostOrder(n))
    decreases IndexExpression(tok, left, index), 0
  {
    var n := IndexExpression(tok, left, index);
    ChildInPostOrder(ExpressionSlot, left, log);
    var a := VisitChild(TypeScript, ExpressionSlot, left, log, Record);
    assert a.ok && a.slot == left;
    ChildInPostOrder(ExpressionSlot, index, a.state);
    var b := VisitChild(TypeScript, ExpressionSlot, index, a.state, Record);
    assert b.ok && b.slot == index;
    assert VisitIndex(TypeScript, n, log, Record) == Visit(true, n, n, b.state);
    assert b.state == log + ChildrenPostOrder(n);
  }

  lemma {:induction false} FunctionInPostOrder(tok: Tokens.Token, params: seq<Node>, body: Node, log: seq<Node>)
    ensures var n := FunctionLiteral(tok, params, body);
      VisitFunction(TypeScript, n, log, Record) == Visit(true, n, n, log + ChildrenPostOrder(n))
    decreases FunctionLiteral(tok, params, body), 0
  {
    var n := FunctionLiteral(tok, params, body);
    ListInPostOrder(IdentifierSlot, params, 0, log);
    var l := VisitList(TypeScript, IdentifierSlot, params, 0, log, Record);
    assert l.ok && l.items == params;
    ChildInPostOrder(BlockSlot, body, l.state);
    var b := VisitChild(TypeScript, BlockSlot, body, l.state, Record);
    assert b.ok && b.slot == body;
    assert VisitFunction(TypeScript, n, log, Record) == Visit(true, n, n, b.state);
    assert b.state == log + ChildrenPostOrder(n);
  }

  lemma {:induction false} IfInPostOrder(tok: Tokens.Token, cond: Node, cons: Node, alt: Option<Node>, log: seq<Node>)
    ensures var n := IfExpression(tok, cond, cons, alt);
      VisitIf(TypeScript, n, log, Record) == Visit(true, n, n, log + ChildrenPostOrder(n))
    decreases IfExpression(tok, cond, cons, alt), 1
  {
    var n := IfExpression(tok, cond, cons, alt);
    IfHeadInPostOrder(tok, cond, cons, alt, log);
    var heads := PostOrder(cond) + PostOrder(cons);
    match alt
    case Some(e) =>
      ChildInPostOrder(BlockSlot, e, log + heads);
      assert VisitIf(TypeScript, n, log, Record) == Visit(true, n, n, log + heads + PostOrder(e));
      assert log + heads + PostOrder(e) == log + ChildrenPostOrder(n);
    case None =>
      assert VisitIf(TypeScript, n, log, Record) == Visit(true, n, n, log + heads);
      assert heads == ChildrenPostOrder(n);
  }

  /** The condition, then the consequence, each left as it was. */
  lemma {:induction false} IfHeadInPostOrder(tok: Tokens.Token, cond: Node, cons: Node, alt: Option<Node>, log: seq<Node>)
    ensures var a := VisitChild(TypeScript, ExpressionSlot, cond, log, Record);
      && a == Visit(true, cond, cond, log + PostOrder(cond))
      && VisitChild(TypeScript, BlockSlot, cons, a.state, Record) == Visit(true, cons, cons, log + (PostOrder(cond) + PostOrder(cons)))
    decreases IfExpression(tok, cond, cons, alt), 0
  {
    ChildInPostOrder(ExpressionSlot, cond, log);
    ChildInPostOrder(BlockSlot, cons, log + PostOrder(cond));
    assert log + PostOrder(cond) + PostOrder(cons) == log + (PostOrder(cond) + PostOrder(cons));
  }

  /**
   * Kinds outside the `switch` (calls, `while`, `for`, assignments, macro
   * literals, literals, identifiers) are handed to the modifier directly.
   */
  lemma ModifyLeavesOtherKinds<S>(d: Dialect, n: Node, st: S, f: (Node, S) -> (Option<Node>, S))
    requires !Descended(n)
    ensures Modify(d, n, st, f) == Rewrite(f(n, st).0, n, f(n, st).1)
  {
  }

  /**
   * A failed left operand stops the walk at once: the right operand is not
   * visited, the modifier is not called on the node, and the left slot keeps
   * the operand object in the state its own walk left it in.
   */
  lemma InfixStopsAtFailedLeft<S>(d: Dialect, tok: Tokens.Token, left: Node, op: string, right: Node, st: S,
                                  f: (Node, S) -> (Option<Node>, S))
    requires Modify(d, left, st, f).result.None?
    ensures var r := Modify(d, InfixExpression(tok, left, op, right), st, f);
      && r.result.None?
      && r.after == InfixExpression(tok, Modify(d, left, st, f).after, op, right)
      && r.state == Modify(d, left, st, f).state
  {
    var a := VisitChild(d, ExpressionSlot, left, st, f);
    assert !a.ok && a.slot == Modify(d, left, st, f).after;
    var m := InfixExpression(tok, a.slot, op, right);
    assert VisitChildren(d, InfixExpression(tok, left, op, right), st, f) == Visit(false, m, m, a.state);
  }

  /**
   * In a list of children the walk stops at the first failure: every slot
   * before it holds its rewritten child, the failing slot holds the child in
   * its in-place state, and every slot after it is untouched.
   */
  lemma {:induction false} ListStopsAtFailure<S>(d: Dialect, slot: Slot, xs: seq<Node>, i: nat, st: S,
                                                 f: (Node, S) -> (Option<Node>, S))
    requires i <= |xs|
    ensures var r := VisitList(d, slot, xs, i, st, f);
      !r.ok ==> exists k :: i <= k < |xs| && StoppedAt(d, slot, xs, i, st, f, r.items, k)
    decreases |xs| - i
  {
    var r := VisitList(d, slot, xs, i, st, f);
    if i < |xs| && !r.ok {
      var c := VisitChild(d, slot, xs[i], st, f);
      if !c.ok {
        assert StoppedAt(d, slot, xs, i, st, f, r.items, i);
      } else {
        ListStopsAtFailure(d, slot, xs, i + 1, c.state, f);
        var rest := VisitList(d, slot, xs, i + 1, c.state, f);
        var k :| i + 1 <= k < |xs| && StoppedAt(d, slot, xs, i + 1, c.state, f, rest.items, k);
        assert r.items == rest.items[i := c.slot];
        assert r.items[k + 1..] == rest.items[k + 1..];
        assert StoppedAt(d, slot, xs, i, st, f, r.items, k);
      }
    }
  }

  /**
   * The list `items` is what the loop from index `i` leaves behind when the
   * child at index `k` fails: the slots after `k` untouched and slot `k`
   * holding that child's in-place state.
   */
  predicate StoppedAt<S>(d: Dialect, slot: Slot, xs: seq<Node>, i: nat, st: S, f: (Node, S) -> (Option<Node>, S),
                         items: seq<Node>, k: nat)
    requires i <= k < |xs|
  {
    |items| == |xs| && items[k + 1..] == xs[k + 1..]
    && items[k] == Modify(d, xs[k], StateBefore(d, slot, xs, i, k, st, f), f).after
  }

  /** The modifier state when the loop reaches index `k`, every earlier child having succeeded. */
  function StateBefore<S>(d: Dialect, slot: Slot, xs: seq<Node>, i: nat, k: nat, st: S,
                          f: (Node, S) -> (Option<Node>, S)): S
    requires i <= k <= |xs|
    decreases k - i
  {
    if i == k then st else StateBefore(d, slot, xs, i + 1, k, VisitChild(d, slot, xs[i], st, f).state, f)
  }

  /** The modifier of the source's test: an integer literal 1 gets the value 2, everything else is kept. */
  function TurnOneIntoTwo(x: Node, u: ()): (Option<Node>, ())
  {
    (Some(OneToTwo(x)), ())
  }

  function OneToTwo(x: Node): Node
  {
    if x.IntegerLiteral? && x.intValue == 1 then IntegerLiteral(x.token, 2) else x
  }

  /**
   * The reference result of rewriting with a modifier that always answers
   * `g` of its argument: the tree mapped bottom-up, `g` applied to every node
   * of a visited kind after its children, and to the leaves and the kinds
   * `modify` does not descend into.
   */
  function MapTree(g: Node -> Node, n: Node): Node
    decreases n, 2
  {
    g(MapChildren(g, n))
  }

  /** The node with its visited children mapped, itself not yet handed to `g`. */
  function MapChildren(g: Node -> Node, n: Node): Node
    decreases n, 1
  {
    match n
    case Program(stmts) => Program(MapFrom(g, stmts, 0))
    case ExpressionStatement(tok, e) => ExpressionStatement(tok, MapTree(g, e))
    case InfixExpression(tok, left, op, right) => InfixExpression(tok, MapTree(g, left), op, MapTree(g, right))
    case PrefixExpression(tok, op, right) => PrefixExpression(tok, op, MapTree(g, right))
    case IndexExpression(tok, left, index) => IndexExpression(tok, MapTree(g, left), MapTree(g, index))
    case IfExpression(tok, cond, cons, alt) =>
      IfExpression(tok, MapTree(g, cond), MapTree(g, cons), if alt.Some? then Some(MapTree(g, alt.value)) else None)
    case BlockStatement(tok, stmts) => BlockStatement(tok, MapFrom(g, stmts, 0))
    case ReturnStatement(tok, value) => ReturnStatement(tok, MapTree(g, value))
    case LetStatement(tok, name, value) => LetStatement(tok, name, MapTree(g, value))
    case FunctionLiteral(tok, params, body) => FunctionLiteral(tok, MapFrom(g, params, 0), MapTree(g, body))
    case ArrayLiteral(tok, elems) => ArrayLiteral(tok, MapFrom(g, elems, 0))
    case HashLiteral(tok, _) => HashLiteral(tok, MapPairs(g, n, 0))
    case _ => n
  }

  function MapFrom(g: Node -> Node, xs: seq<Node>, i: nat): (r: seq<Node>)
    requires i <= |xs|
    ensures |r| == |xs| - i
    decreases xs, |xs| - i
  {
    if i == |xs| then [] else [MapTree(g, xs[i])] + MapFrom(g, xs, i + 1)
  }

  function MapPairs(g: Node -> Node, n: Node, i: nat): (r: seq<(Node, Node)>)
    requires n.HashLiteral? && i <= |n.pairs|
    ensures |r| == |n.pairs| - i
    decreases n, 0, |n.pairs| - i
  {
    if i == |n.pairs| then [] else [(MapTree(g, n.pairs[i].0), MapTree(g, n.pairs[i].1))] + MapPairs(g, n, i + 1)
  }

  /**
   * The source's modifier never stops the TypeScript walk: `modify` returns
   * the tree mapped by `OneToTwo`, and the node object is left with its
   * mapped children.
   */
  lemma {:induction false} ModifyMaps(n: Node)
    ensures Modify(TypeScript, n, (), TurnOneIntoTwo) == Rewrite(Some(MapTree(OneToTwo, n)), MapChildren(OneToTwo, n), ())
    decreases n, 3
  {
    ChildrenMap(n);
  }

  lemma {:induction false} ChildMaps(slot: Slot, x: Node)
    ensures VisitChild(TypeScript, slot, x, (), TurnOneIntoTwo) == Visit(true, MapTree(OneToTwo, x), MapChildren(OneToTwo, x), ())
    decreases x, 4
  {
    ModifyMaps(x);
  }

  lemma {:induction false} ListMaps(slot: Slot, xs: seq<Node>, i: nat)
    requires i <= |xs|
    ensures VisitList(TypeScript, slot, xs, i, (), TurnOneIntoTwo) == ListVisit(true, xs[..i] + MapFrom(OneToTwo, xs, i), ())
    decreases xs, |xs| - i
  {
    if i == |xs| {
      assert xs[..i] + MapFrom(OneToTwo, xs, i) == xs;
    } else {
      ChildMaps(slot, xs[i]);
      ListMaps(slot, xs, i + 1);
      var y := MapTree(OneToTwo, xs[i]);
      ReplaceAt(xs, i, y, MapFrom(OneToTwo, xs, i + 1));
      assert MapFrom(OneToTwo, xs, i) == [y] + MapFrom(OneToTwo, xs, i + 1);
    }
  }

  /** Overwriting slot `i` of a list whose slots from `i + 1` on are `tail`. */
  lemma ReplaceAt<T>(xs: seq<T>, i: nat, y: T, tail: seq<T>)
    requires i < |xs|
    ensures (xs[..i + 1] + tail)[i := y] == xs[..i] + ([y] + tail)
  {
    var l, r := (xs[..i + 1] + tail)[i := y], xs[..i] + ([y] + tail);
    assert |l| == |r|;
    forall j | 0 <= j < |l|
      ensures l[j] == r[j]
    {
      if j < i {
        assert l[j] == xs[j] == r[j];
      }
    }
  }

  lemma {:induction false} PairsMap(n: Node, i: nat)
    requires n.HashLiteral? && i <= |n.pairs|
    ensures VisitPairs(TypeScript, n, i, (), TurnOneIntoTwo) == (true, n.pairs[..i] + MapPairs(OneToTwo, n, i), ())
    decreases n, 0, |n.pairs| - i
  {
    if i == |n.pairs| {
      assert n.pairs[..i] + MapPairs(OneToTwo, n, i) == n.pairs;
    } else {
      var (key, value) := n.pairs[i];
      ChildMaps(ExpressionSlot, key);
      ChildMaps(ExpressionSlot, value);
      PairsMap(n, i + 1);
      var y := (MapTree(OneToTwo, key), MapTree(OneToTwo, value));
      ReplaceAt(n.pairs, i, y, MapPairs(OneToTwo, n, i + 1));
      assert MapPairs(OneToTwo, n, i) == [y] + MapPairs(OneToTwo, n, i + 1);
    }
  }

  lemma {:induction false} ChildrenMap(n: Node)
    ensures VisitChildren(TypeScript, n, (), TurnOneIntoTwo) == Visit(true, MapChildren(OneToTwo, n), MapChildren(OneToTwo, n), ())
    decreases n, 2
  {
    match n
    case Program(_) => ListChildrenMap(n);
    case BlockStatement(_, _) => ListChildrenMap(n);
    case ArrayLiteral(_, _) => ListChildrenMap(n);
    case ExpressionStatement(_, e) => ChildMaps(ExpressionSlot, e);
    case PrefixExpression(_, _, right) => ChildMaps(ExpressionSlot, right);
    case ReturnStatement(_, value) => ChildMaps(ExpressionSlot, value);
    case LetStatement(_, _, value) => ChildMaps(ExpressionSlot, value);
    case InfixExpression(_, _, _, _) => BinaryMaps(n);
    case IndexExpression(_, _, _) => BinaryMaps(n);
    case IfExpression(_, _, _, _) => IfMaps(n);
    case FunctionLiteral(_, _, _) => FunctionMaps(n);
    case HashLiteral(_, pairs) =>
      PairsMap(n, 0);
      assert pairs[..0] + MapPairs(OneToTwo, n, 0) == MapPairs(OneToTwo, n, 0);
    case _ =>
  }

  /** Infix and index expressions: their two operands, left to right. */
  lemma {:induction false} BinaryMaps(n: Node)
    requires n.InfixExpression? || n.IndexExpression?
    ensures VisitChildren(TypeScript, n, (), TurnOneIntoTwo) == Visit(true, MapChildren(OneToTwo, n), MapChildren(OneToTwo, n), ())
    decreases n, 0
  {
    match n
    case InfixExpression(_, left, _, right) =>
      ChildMaps(ExpressionSlot, left);
      ChildMaps(ExpressionSlot, right);
      assert VisitChildren(TypeScript, n, (), TurnOneIntoTwo) == VisitInfix(TypeScript, n, (), TurnOneIntoTwo);
    case IndexExpression(_, left, index) =>
      ChildMaps(ExpressionSlot, left);
      ChildMaps(ExpressionSlot, index);
      assert VisitChildren(TypeScript, n, (), TurnOneIntoTwo) == VisitIndex(TypeScript, n, (), TurnOneIntoTwo);
  }

  lemma {:induction false} ListChildrenMap(n: Node)
    requires n.Program? || n.BlockStatement? || n.ArrayLiteral?
    ensures VisitChildren(TypeScript, n, (), TurnOneIntoTwo) == Visit(true, MapChildren(OneToTwo, n), MapChildren(OneToTwo, n), ())
    decreases n, 0
  {
    var (slot, xs) := if n.ArrayLiteral? then (ExpressionSlot, n.elements) else (StatementSlot, n.statements);
    ListMaps(slot, xs, 0);
    assert xs[..0] + MapFrom(OneToTwo, xs, 0) == MapFrom(OneToTwo, xs, 0);
  }

  lemma {:induction false} IfMaps(n: Node)
    requires n.IfExpression?
    ensures VisitIf(TypeScript, n, (), TurnOneIntoTwo) == Visit(true, MapChildren(OneToTwo, n), MapChildren(OneToTwo, n), ())
    decreases n, 0
  {
    ChildMaps(ExpressionSlot, n.condition);
    ChildMaps(BlockSlot, n.consequence);
    if n.alternative.Some? {
      ChildMaps(BlockSlot, n.alternative.value);
    }
  }

  lemma {:induction false} FunctionMaps(n: Node)
    requires n.FunctionLiteral?
    ensures VisitFunction(TypeScript, n, (), TurnOneIntoTwo) == Visit(true, MapChildren(OneToTwo, n), MapChildren(OneToTwo, n), ())
    decreases n, 0
  {
    ListMaps(IdentifierSlot, n.parameters, 0);
    assert n.parameters[..0] + MapFrom(OneToTwo, n.parameters, 0) == MapFrom(OneToTwo, n.parameters, 0);
    ChildMaps(BlockSlot, n.body);
  }

  /**
   * The test case `1 + 2`: both operands are visited, the left one becomes
   * 2 with its token unchanged, and the infix node itself is kept.
   */
  lemma TurnOneIntoTwoInInfix(tok: Tokens.Token, t1: Tokens.Token, t2: Tokens.Token)
    ensures var e := InfixExpression(tok, IntegerLiteral(t1, 1), "+", IntegerLiteral(t2, 2));
      var two := InfixExpression(tok, IntegerLiteral(t1, 2), "+", IntegerLiteral(t2, 2));
      Modify(TypeScript, e, (), TurnOneIntoTwo) == Rewrite(Some(two), two, ())
  {
    var e := InfixExpression(tok, IntegerLiteral(t1, 1), "+", IntegerLiteral(t2, 2));
    ModifyLeavesOtherKinds(TypeScript, IntegerLiteral(t1, 1), (), TurnOneIntoTwo);
    ModifyLeavesOtherKinds(TypeScript, IntegerLiteral(t2, 2), (), TurnOneIntoTwo);
    var a := VisitChild(TypeScript, ExpressionSlot, IntegerLiteral(t1, 1), (), TurnOneIntoTwo);
    assert a == Visit(true, IntegerLiteral(t1, 2), IntegerLiteral(t1, 1), ());
    var b := VisitChild(TypeScript, ExpressionSlot, IntegerLiteral(t2, 2), (), TurnOneIntoTwo);
    assert b == Visit(true, IntegerLiteral(t2, 2), IntegerLiteral(t2, 2), ());
    var two := InfixExpression(tok, IntegerLiteral(t1, 2), "+", IntegerLiteral(t2, 2));
    assert VisitInfix(TypeScript, e, (), TurnOneIntoTwo) == Visit(true, two, two, ());
    assert VisitChildren(TypeScript, e, (), TurnOneIntoTwo) == Visit(true, two, two, ());
    assert TurnOneIntoTwo(two, ()) == (Some(two), ());
  }

  /**
   * The Go walk checks the kind of each rewritten child: an expression
   * statement whose expression is rewritten into a statement stops the walk,
   * and the node keeps the expression object in its in-place state, where the
   * TypeScript walk stores the statement and goes on.
   */
  lemma GoRejectsStatementForExpression<S>(tok: Tokens.Token, e: Node, st: S, f: (Node, S) -> (Option<Node>, S))
    requires Modify(Go, e, st, f).result.Some? && IsStatement(Modify(Go, e, st, f).result.value)
    ensures var r := Modify(Go, ExpressionStatement(tok, e), st, f);
      r.result.None? && r.after == ExpressionStatement(tok, Modify(Go, e, st, f).after)
    ensures Modify(TypeScript, e, st, f) == Modify(Go, e, st, f) ==>
      Modify(TypeScript, ExpressionStatement(tok, e), st, f).after
        == ExpressionStatement(tok, Modify(Go, e, st, f).result.value)
  {
    var c := VisitChild(Go, ExpressionSlot, e, st, f);
    assert !c.ok;
    var m := ExpressionStatement(tok, c.slot);
    assert VisitChildren(Go, ExpressionStatement(tok, e), st, f) == Visit(false, m, m, c.state);
    if Modify(TypeScript, e, st, f) == Modify(Go, e, st, f) {
      var t := VisitChild(TypeScript, ExpressionSlot, e, st, f);
      assert t.ok;
    }
  }
}
