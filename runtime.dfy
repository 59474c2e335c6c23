/**
 * The evaluator's state and the value-level operations of
 * ts/src/evaluator/index.ts: truthiness, prefix and infix operators,
 * indexing, error objects and `setLineError`.
 *
 * The heap holds every object the evaluation creates; TRUE, FALSE and NULL
 * are the shared instances at the first three slots and the builtins follow
 * them.  Environments are frames of an arena, referred to by index.  A host
 * exception the program cannot catch (reading a property of `undefined`,
 * the unbound global in `last`, a number JavaScript would make infinite, or
 * running out of fuel) ends evaluation as a `Thrown` completion.
 */
module Runtime {
  import opened Wrappers
  import opened Ast
  import opened Objects
  import opened Environments
  import opened Numerals

  const TRUE: Ref := 0
  const FALSE: Ref := 1
  const NULL: Ref := 2

  datatype State = State(heap: seq<Obj>, frames: seq<Frame<Ref>>)

  /** Why the host aborted evaluation. */
  datatype Host =
    | TypeError        // a property read on `undefined`
    | ReferenceError   // the unbound global `length` in `last`
    | Unrepresentable  // a division by zero, which JavaScript turns into Infinity or NaN
    | OutOfFuel        // the step bound standing for non-termination
    | Uninspectable    // `inspect()` of a `print` argument: undefined inside it, or a value containing itself

  datatype Completion<T> = Normal(value: T) | Thrown(reason: Host)

  /** A completion and the state after it. */
  datatype Step<T> = Step(c: Completion<T>, st: State)

  /** The builtins, in the order they sit in the heap after the singletons. */
  const BuiltinNames: seq<BuiltinName> := [Len, First, Last, Rest, Push, Add, Print]

  /** The name under which each builtin is registered. */
  function BuiltinKey(b: BuiltinName): string
  {
    match b
    case Len => "len"
    case First => "first"
    case Last => "last"
    case Rest => "rest"
    case Push => "push"
    case Add => "add"
    case Print => "print"
  }

  /** `builtins.get(name)`: the heap slot of the builtin registered under `name`. */
  function BuiltinRef(name: string): (r: Option<Ref>)
    ensures r.Some? ==> 3 <= r.value < 3 + |BuiltinNames| && BuiltinKey(BuiltinNames[r.value - 3]) == name
    ensures r.None? ==> forall b :: BuiltinKey(b) != name
  {
    if name == "len" then Some(3)
    else if name == "first" then Some(4)
    else if name == "last" then Some(5)
    else if name == "rest" then Some(6)
    else if name == "push" then Some(7)
    else if name == "add" then Some(8)
    else if name == "print" then Some(9)
    else None
  }

  /** The state before any evaluation: the singletons, the builtins and one empty global frame. */
  function Initial(): (st: State)
    ensures |st.heap| == 3 + |BuiltinNames|
    ensures st.heap[TRUE] == Bool(true) && st.heap[FALSE] == Bool(false) && st.heap[NULL] == Null
    ensures forall i :: 0 <= i < |BuiltinNames| ==> st.heap[3 + i] == Builtin(BuiltinNames[i])
    ensures st.frames == [Frame(map[], None)]
  {
    State([Bool(true), Bool(false), Null] + seq(|BuiltinNames|, i requires 0 <= i < |BuiltinNames| => Builtin(BuiltinNames[i])),
          [Frame(map[], None)])
  }

  /** The shared TRUE, FALSE and NULL instances are in their places. */
  predicate HasSingletons(st: State)
  {
    |st.heap| > NULL && st.heap[TRUE] == Bool(true) && st.heap[FALSE] == Bool(false) && st.heap[NULL] == Null
  }

  /** The object a reference denotes. */
  function Deref(st: State, r: Ref): Obj
  {
    if r < |st.heap| then st.heap[r] else Null
  }

  /** `new X(...)`: a fresh object at the end of the heap. */
  function Alloc(st: State, o: Obj): (res: (Ref, State))
    ensures res.0 == |st.heap| && res.1.heap == st.heap + [o] && res.1.frames == st.frames
    ensures Deref(res.1, res.0) == o
  {
    (|st.heap|, State(st.heap + [o], st.frames))
  }

  /** A completed evaluation that yields a fresh object. */
  function Yield(st: State, o: Obj): Step<Option<Ref>>
  {
    var (r, st') := Alloc(st, o);
    Step(Normal(Some(r)), st')
  }

  /** `newError(message)`: an error object whose line is left undefined, written 0. */
  function NewError(st: State, message: string): Step<Option<Ref>>
  {
    Yield(st, ErrorObj(message, 0))
  }

  /** `isError`: a defined value whose type is ERROR. */
  predicate IsError(st: State, v: Option<Ref>)
  {
    v.Some? && Deref(st, v.value).ErrorObj?
  }

  /** `setLineError(node, obj)`: an error object's line becomes the node's; anything else is left alone. */
  function SetLineError(st: State, node: Node, v: Option<Ref>): (st': State)
    ensures st'.frames == st.frames && |st'.heap| == |st.heap|
    ensures IsError(st, v) ==> Deref(st', v.value) == ErrorObj(Deref(st, v.value).message, TokenLine(node))
    ensures forall r :: 0 <= r < |st.heap| && (!IsError(st, v) || r != v.value) ==> st'.heap[r] == st.heap[r]
  {
    if IsError(st, v) && v.value < |st.heap| then
      State(st.heap[v.value := ErrorObj(st.heap[v.value].message, TokenLine(node))], st.frames)
    else st
  }

  /** The completion `return setLineError(node, obj)`. */
  function Retag(st: State, node: Node, v: Option<Ref>): Step<Option<Ref>>
  {
    Step(Normal(v), SetLineError(st, node, v))
  }

  /** Re-tagging twice leaves the line of the later node: the outermost re-tag decides. */
  lemma LastRetagWins(st: State, inner: Node, outer: Node, v: Option<Ref>)
    ensures SetLineError(SetLineError(st, inner, v), outer, v) == SetLineError(st, outer, v)
  {
    if IsError(st, v) && v.value < |st.heap| {
      var st1 := SetLineError(st, inner, v);
      assert st1.heap[v.value := ErrorObj(st.heap[v.value].message, TokenLine(outer))]
        == st.heap[v.value := ErrorObj(st.heap[v.value].message, TokenLine(outer))];
    }
  }

  /** `isTruthy`: NULL, FALSE and numeric zero are false, every other object true. */
  function IsTruthy(st: State, r: Ref): bool
  {
    if r == NULL then false
    else if r == TRUE then true
    else if r == FALSE then false
    else
      match Deref(st, r)
      case Integer(i) => i != 0
      case Float(x) => x != 0.0
      case _ => true
  }

  /** `evalBangOperatorExpression`. */
  function Bang(st: State, r: Ref): Ref
  {
    if r == TRUE then FALSE
    else if r == FALSE then TRUE
    else if r == NULL then TRUE
    else
      match Deref(st, r)
      case Integer(i) => if i == 0 then TRUE else FALSE
      case Float(x) => if x == 0.0 then TRUE else FALSE
      case _ => FALSE
  }

  /** `!x` is TRUE exactly when `x` is not truthy, and FALSE otherwise. */
  lemma BangNegatesTruthiness(st: State, r: Ref)
    ensures Bang(st, r) == if IsTruthy(st, r) then FALSE else TRUE
    ensures Bang(st, r) == TRUE <==> !IsTruthy(st, r)
  {
  }

  /** `nativeBoolToBooleanObject`: one of the shared instances. */
  function BoolRef(b: bool): (r: Ref)
    ensures r == TRUE <==> b
    ensures r == FALSE <==> !b
  {
    if b then TRUE else FALSE
  }

  /** The shared instance for `b` is the Boolean object holding `b`, and it is truthy exactly when `b` holds. */
  lemma BoolRefRoundTrip(st: State, b: bool)
    requires HasSingletons(st)
    ensures Deref(st, BoolRef(b)) == Bool(b)
    ensures IsTruthy(st, BoolRef(b)) == b
  {
  }

  /** `evalPrefixExpression`; an undefined operand makes the host throw. */
  function EvalPrefix(st: State, operator: string, right: Option<Ref>): Step<Option<Ref>>
  {
    if right.None? then Step(Thrown(TypeError), st)
    else
      var o := Deref(st, right.value);
      if operator == "!" then Step(Normal(Some(Bang(st, right.value))), st)
      else if operator == "-" then
        match o
        case Integer(i) => Yield(st, Integer(-i))
        case Float(x) => Yield(st, Float(-x))
        case _ => NewError(st, "unknown operator: -" + TypeOf(o))
      else NewError(st, "unknown operator: " + operator + " " + TypeOf(o))
  }

  predicate IsNumber(o: Obj)
  {
    o.Integer? || o.Float?
  }

  /** The numeric value of an Integer or Float. */
  function NumValue(o: Obj): real
    requires IsNumber(o)
  {
    if o.Integer? then o.intValue as real else o.floatValue
  }

  /** `createNumber`: an Integer (rounded down) when both operands are Integers, a Float otherwise. */
  function CreateNumber(st: State, left: Obj, right: Obj, result: real): Step<Option<Ref>>
  {
    if left.Integer? && right.Integer? then Yield(st, Integer(result.Floor)) else Yield(st, Float(result))
  }

  /** `evalNumberInfixExpression`. */
  function NumberInfix(st: State, operator: string, left: Obj, right: Obj): Step<Option<Ref>>
    requires IsNumber(left) && IsNumber(right)
  {
    var l := NumValue(left);
    var r := NumValue(right);
    if operator == "+" then CreateNumber(st, left, right, l + r)
    else if operator == "-" then CreateNumber(st, left, right, l - r)
    else if operator == "*" then CreateNumber(st, left, right, l * r)
    else if operator == "/" then
      if r == 0.0 then Step(Thrown(Unrepresentable), st) else CreateNumber(st, left, right, l / r)
    else if operator == "<" then Step(Normal(Some(BoolRef(l < r))), st)
    else if operator == ">" then Step(Normal(Some(BoolRef(l > r))), st)
    else if operator == "<=" then Step(Normal(Some(BoolRef(l <= r))), st)
    else if operator == ">=" then Step(Normal(Some(BoolRef(l >= r))), st)
    else if operator == "==" then Step(Normal(Some(BoolRef(l == r))), st)
    else if operator == "!=" then Step(Normal(Some(BoolRef(l != r))), st)
    else NewError(st, "unknown operator: " + TypeOf(left) + " " + operator + " " + TypeOf(right))
  }

  /** `evalStringInfixExpression`. */
  function StringInfix(st: State, operator: string, left: string, right: string): Step<Option<Ref>>
  {
    if operator == "+" then Yield(st, StringObj(left + right))
    else if operator == "==" then Yield(st, Bool(left == right))
    else if operator == "!=" then Yield(st, Bool(left != right))
    else NewError(st, "unknown operator: STRING " + operator + " STRING")
  }

  /** `evalInfixExpression`; an undefined operand makes the host throw. */
  function EvalInfix(st: State, operator: string, left: Option<Ref>, right: Option<Ref>): Step<Option<Ref>>
  {
    if left.None? || right.None? then Step(Thrown(TypeError), st)
    else
      var l := Deref(st, left.value);
      var r := Deref(st, right.value);
      if IsNumber(l) && IsNumber(r) then NumberInfix(st, operator, l, r)
      else if operator == "==" then Step(Normal(Some(BoolRef(left.value == right.value))), st)
      else if operator == "!=" then Step(Normal(Some(BoolRef(left.value != right.value))), st)
      else if TypeOf(l) != TypeOf(r) then NewError(st, "type mismatch: " + TypeOf(l) + " " + operator + " " + TypeOf(r))
      else if l.StringObj? && r.StringObj? then StringInfix(st, operator, l.strValue, r.strValue)
      else NewError(st, "unknown operator: " + TypeOf(l) + " " + operator + " " + TypeOf(r))
  }

  /**
   * Two Integers combine into the Integer rounded down from the exact
   * result; for `/` that is Euclidean division by a positive divisor, and by
   * a negative one after negating both sides.
   */
  lemma IntegerArithmetic(st: State, operator: string, a: int, b: int)
    requires operator in {"+", "-", "*", "/"}
    requires operator == "/" ==> b != 0
    ensures var s := NumberInfix(st, operator, Integer(a), Integer(b));
      s.c.Normal? && s.c.value.Some? && s.c.value.value == |st.heap|
      && s.st.frames == st.frames && s.st.heap[..|st.heap|] == st.heap
      && Deref(s.st, s.c.value.value) == Integer(
        if operator == "+" then a + b
        else if operator == "-" then a - b
        else if operator == "*" then a * b
        else if b > 0 then a / b
        else (-a) / (-b))
  {
    var s := NumberInfix(st, operator, Integer(a), Integer(b));
    assert s.st.heap[..|st.heap|] == st.heap;
    if operator == "/" {
      var d := if b > 0 then b else -b;
      var n := if b > 0 then a else -a;
      assert (a as real) / (b as real) == (n as real) / (d as real);
      FloorOfQuotient(n, d);
    } else if operator == "+" {
      assert (a as real + b as real).Floor == a + b;
    } else if operator == "-" {
      assert (a as real - b as real).Floor == a - b;
    } else {
      assert (a as real * b as real) == (a * b) as real;
    }
  }

  /** Rounding an exact quotient down agrees with Euclidean division by a positive divisor. */
  lemma FloorOfQuotient(n: int, d: int)
    requires d > 0
    ensures ((n as real) / (d as real)).Floor == n / d
  {
    var q := n / d;
    var m := n % d;
    assert n == q * d + m && 0 <= m < d;
    assert (n as real) / (d as real) == q as real + (m as real) / (d as real);
    assert 0.0 <= (m as real) / (d as real) < 1.0;
  }

  /** Comparisons yield the shared TRUE/FALSE and allocate nothing. */
  lemma ComparisonsShareBooleans(st: State, operator: string, left: Obj, right: Obj)
    requires IsNumber(left) && IsNumber(right)
    requires operator in {"<", ">", "<=", ">=", "==", "!="}
    ensures var s := NumberInfix(st, operator, left, right);
      s.st == st && s.c.Normal? && s.c.value.Some?
      && (s.c.value.value == TRUE <==>
        match operator
        case "<" => NumValue(left) < NumValue(right)
        case ">" => NumValue(left) > NumValue(right)
        case "<=" => NumValue(left) <= NumValue(right)
        case ">=" => NumValue(left) >= NumValue(right)
        case "==" => NumValue(left) == NumValue(right)
        case _ => NumValue(left) != NumValue(right))
      && (s.c.value.value == TRUE || s.c.value.value == FALSE)
  {
  }

  /**
   * For operands that are not both numbers, `==` and `!=` compare identities
   * before any type check: no object is created, `5 == true` is FALSE, and
   * two distinct strings with the same text are not equal.
   */
  lemma EqualityIsIdentity(st: State, operator: string, left: Ref, right: Ref)
    requires operator == "==" || operator == "!="
    requires !(IsNumber(Deref(st, left)) && IsNumber(Deref(st, right)))
    ensures var s := EvalInfix(st, operator, Some(left), Some(right));
      s.st == st && s.c == Normal(Some(BoolRef((left == right) == (operator == "=="))))
  {
  }

  /** The string `==` of `evalStringInfixExpression` is never reached: equal strings at two slots compare unequal. */
  lemma EqualStringsAtTwoSlots(st: State, left: Ref, right: Ref)
    requires left != right && Deref(st, left).StringObj? && Deref(st, right) == Deref(st, left)
    ensures EvalInfix(st, "==", Some(left), Some(right)) == Step(Normal(Some(FALSE)), st)
  {
  }

  /**
   * Operands of different types give `type mismatch: L op R`; two strings
   * support only `+`, which concatenates; any other pair of equal types
   * gives `unknown operator: L op R`.
   */
  lemma InfixErrors(st: State, operator: string, left: Ref, right: Ref)
    requires operator != "==" && operator != "!="
    requires !(IsNumber(Deref(st, left)) && IsNumber(Deref(st, right)))
    ensures var l := Deref(st, left);
      var r := Deref(st, right);
      var s := EvalInfix(st, operator, Some(left), Some(right));
      && s.c.Normal? && s.c.value == Some(|st.heap|)
      && (TypeOf(l) != TypeOf(r) ==>
          Deref(s.st, |st.heap|) == ErrorObj("type mismatch: " + TypeOf(l) + " " + operator + " " + TypeOf(r), 0))
      && (l.StringObj? && r.StringObj? && operator == "+" ==>
          Deref(s.st, |st.heap|) == StringObj(l.strValue + r.strValue))
      && (TypeOf(l) == TypeOf(r) && !(l.StringObj? && operator == "+") ==>
          Deref(s.st, |st.heap|) == ErrorObj("unknown operator: " + TypeOf(l) + " " + operator + " " + TypeOf(r), 0))
  {
    var l := Deref(st, left);
    var r := Deref(st, right);
    if TypeOf(l) == TypeOf(r) && l.StringObj? {
      TypeTagsDistinct(l, r);
    }
    if TypeOf(l) == TypeOf(r) && r.StringObj? {
      TypeTagsDistinct(l, r);
    }
  }

  /** `evalIndexExpression` with its array and hash cases; undefined operands make the host throw. */
  function EvalIndex(st: State, left: Option<Ref>, index: Option<Ref>): Step<Option<Ref>>
  {
    if left.None? || index.None? then Step(Thrown(TypeError), st)
    else
      var l := Deref(st, left.value);
      var i := Deref(st, index.value);
      if l.ArrayObj? && i.Integer? then
        if i.intValue < 0 || i.intValue > |l.elements| - 1 then Step(Normal(Some(NULL)), st)
        else Step(Normal(l.elements[i.intValue]), st)
      else if l.HashObj? then
        match HashKeyOf(i)
        case None => NewError(st, "unusable as hash key: " + TypeOf(i))
        case Some(k) =>
          match FindPair(l.pairs, k)
          case None => Step(Normal(Some(NULL)), st)
          case Some(p) => Step(Normal(p.value), st)
      else NewError(st, "index operator not supported:" + TypeOf(i) + " for " + TypeOf(l))
  }

  /** An array index inside `0..len-1` gives that element, and one outside it gives NULL. */
  lemma ArrayIndexBounds(st: State, left: Ref, index: Ref)
    requires Deref(st, left).ArrayObj? && Deref(st, index).Integer?
    ensures var elems := Deref(st, left).elements;
      var k := Deref(st, index).intValue;
      EvalIndex(st, Some(left), Some(index)) ==
        Step(Normal(if 0 <= k < |elems| then elems[k] else Some(NULL)), st)
  {
  }

  /**
   * Indexing a hash with a key that has no `hashKey` is an error naming its
   * type; a key that is not stored gives NULL; a stored one gives its value.
   */
  lemma HashIndex(st: State, left: Ref, index: Ref)
    requires Deref(st, left).HashObj?
    ensures var i := Deref(st, index);
      var s := EvalIndex(st, Some(left), Some(index));
      && (HashKeyOf(i).None? ==>
          s.c == Normal(Some(|st.heap|)) && Deref(s.st, |st.heap|) == ErrorObj("unusable as hash key: " + TypeOf(i), 0))
      && (HashKeyOf(i).Some? ==>
          && s.st == st
          && s.c == Normal(match FindPair(Deref(st, left).pairs, HashKeyOf(i).value)
                           case None => Some(NULL)
                           case Some(p) => p.value))
  {
  }

  /** Any left operand other than an array indexed by an Integer, or a hash, is an error. */
  lemma IndexNotSupported(st: State, left: Ref, index: Ref)
    requires !Deref(st, left).HashObj? && !(Deref(st, left).ArrayObj? && Deref(st, index).Integer?)
    ensures var s := EvalIndex(st, Some(left), Some(index));
      s.c == Normal(Some(|st.heap|)) &&
      Deref(s.st, |st.heap|) == ErrorObj("index operator not supported:" + TypeOf(Deref(st, index)) + " for " + TypeOf(Deref(st, left)), 0)
  {
  }
}
