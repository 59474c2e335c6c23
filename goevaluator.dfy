/**
 * The earlier, smaller evaluator of the Go port (go/evaluator/evaluator.go):
 * integers, floats, booleans, prefix and infix operators and programs of
 * expression statements. Where the TypeScript evaluator raises errors this
 * one answers NULL, and it takes no environment.
 */
module GoEvaluation {
  import opened Wrappers
  import opened Ast
  import Tokens

  /**
   * A Go object. TRUE, FALSE and NULL are shared instances in the source and
   * no other Boolean or Null is ever built, so comparing the constructors
   * below is comparing the object references the source compares.
   */
  datatype GoObj = GoInteger(intValue: int) | GoFloat(floatValue: Float64) | GoBoolean(boolValue: bool) | GoNull

  /**
   * A float64: a finite number, held exactly, or one of the non-finite
   * values of IEEE 754, which Go's float division by zero produces instead
   * of panicking. Zero carries no sign here: every zero is +0.
   */
  datatype Float64 = Finite(value: real) | PosInf | NegInf | NaN

  /**
   * What `Eval` gives back: an object, Go's `nil` (for node kinds the type
   * switch does not list, and for an empty program), or a run-time panic.
   */
  datatype GoOutcome = Value(obj: GoObj) | Nil | Panic(reason: GoPanic)

  /** The run-time panics: integer division by zero, and calling `Type()` on a nil operand. */
  datatype GoPanic = DivideByZero | NilDereference

  const TRUE := GoBoolean(true)
  const FALSE := GoBoolean(false)
  const NULL := GoNull

  /** `nativeBoolToBooleanObject`. */
  function NativeBool(b: bool): (r: GoObj)
    ensures r == TRUE || r == FALSE
    ensures r.boolValue == b
  {
    if b then TRUE else FALSE
  }

  /** Go's `/` on integers: the quotient truncated toward zero. */
  function TruncDiv(a: int, b: int): int
    requires b != 0
  {
    var q := Abs(a) / Abs(b);
    if (a < 0) != (b < 0) then -q else q
  }

  function Abs(a: int): nat
  {
    if a < 0 then -a else a
  }

  /**
   * Truncating division leaves a remainder smaller than the divisor in size
   * and never of the opposite sign to the dividend: this is what makes it
   * Go's division rather than Dafny's Euclidean one, and it determines the
   * quotient.
   */
  lemma TruncatedDivision(a: int, b: int)
    requires b != 0
    ensures var r := a - TruncDiv(a, b) * b;
      && Abs(r) < Abs(b)
      && (r == 0 || (r > 0) == (a > 0))
  {
    var B: int := Abs(b);
    var q: int := Abs(a) / B;
    var p: int := q * B;
    var m: int := Abs(a) % B;
    DivMod(Abs(a), B, q, m);
    TruncProduct(a, b, q, B);
    Remainder(a, b, p, m);
  }

  /** Dafny's division and remainder on naturals. */
  lemma DivMod(A: int, B: int, q: int, m: int)
    requires A >= 0 && B > 0 && q == A / B && m == A % B
    ensures A == q * B + m && 0 <= m < B
  {
  }

  /** The product of the truncated quotient and the divisor carries the dividend's sign. */
  lemma TruncProduct(a: int, b: int, q: int, B: int)
    requires b != 0 && B == Abs(b) && q == Abs(a) / B
    ensures TruncDiv(a, b) * b == (if a < 0 then -(q * B) else q * B)
  {
    var t := TruncDiv(a, b);
    if b > 0 {
      assert B == b;
      if a < 0 {
        assert t == -q;
        assert t * b == -(q * b);
      } else {
        assert t == q;
      }
    } else {
      assert B == -b;
      assert q * b == -(q * B);
      if a < 0 {
        assert t == q;
      } else {
        assert t == -q;
        assert t * b == -(q * b);
      }
    }
  }

  /** The remainder left by the truncated quotient. */
  lemma Remainder(a: int, b: int, p: int, m: int)
    requires b != 0
    requires Abs(a) == p + m && 0 <= m < Abs(b)
    requires TruncDiv(a, b) * b == (if a < 0 then -p else p)
    ensures var r := a - TruncDiv(a, b) * b;
      && Abs(r) < Abs(b)
      && (r == 0 || (r > 0) == (a > 0))
  {
  }

  /** The sign of a value that is not NaN, a zero counting as positive. */
  function Sign(x: Float64): int
    requires !x.NaN?
  {
    match x
    case PosInf => 1
    case NegInf => -1
    case Finite(v) => if v < 0.0 then -1 else 1
  }

  function Infinity(sign: int): Float64
  {
    if sign < 0 then NegInf else PosInf
  }

  /** float64 negation. */
  function FNeg(x: Float64): Float64
  {
    match x
    case Finite(v) => Finite(-v)
    case PosInf => NegInf
    case NegInf => PosInf
    case NaN => NaN
  }

  /** float64 addition: NaN absorbs, opposite infinities give NaN. */
  function FAdd(x: Float64, y: Float64): Float64
  {
    if x.NaN? || y.NaN? then NaN
    else if x.Finite? && y.Finite? then Finite(x.value + y.value)
    else if x.Finite? then y
    else if y.Finite? || x == y then x
    else NaN
  }

  /** float64 multiplication: an infinity times zero is NaN, otherwise the signs multiply. */
  function FMul(x: Float64, y: Float64): Float64
  {
    if x.NaN? || y.NaN? then NaN
    else if x.Finite? && y.Finite? then Finite(x.value * y.value)
    else if x == Finite(0.0) || y == Finite(0.0) then NaN
    else Infinity(Sign(x) * Sign(y))
  }

  /**
   * float64 division: a non-zero number over zero is an infinity of its
   * sign, zero over zero and infinity over infinity are NaN, and a finite
   * number over an infinity is zero.
   */
  function FDiv(x: Float64, y: Float64): Float64
  {
    if x.NaN? || y.NaN? then NaN
    else if x.Finite? && y.Finite? then
      if y.value != 0.0 then Finite(x.value / y.value)
      else if x.value == 0.0 then NaN
      else Infinity(Sign(x))
    else if x.Finite? then Finite(0.0)
    else if y.Finite? then Infinity(Sign(x) * Sign(y))
    else NaN
  }

  /**
   * The arithmetic agrees with the reals on finite operands, except that a
   * finite number over zero leaves them; NaN absorbs everything, and the
   * operations keep the algebraic laws IEEE 754 keeps.
   */
  lemma FloatArithmetic(x: Float64, y: Float64)
    ensures x.Finite? && y.Finite? ==> FAdd(x, y) == Finite(x.value + y.value) && FMul(x, y) == Finite(x.value * y.value)
    ensures x.Finite? && y.Finite? ==> (FDiv(x, y).Finite? <==> y.value != 0.0)
    ensures x.Finite? && y.Finite? && y.value != 0.0 ==> FMul(FDiv(x, y), y) == x
    ensures FAdd(x, y) == FAdd(y, x) && FMul(x, y) == FMul(y, x)
    ensures x.NaN? || y.NaN? ==> FAdd(x, y) == NaN && FMul(x, y) == NaN && FDiv(x, y) == NaN
    ensures FNeg(FNeg(x)) == x
    ensures FAdd(x, FNeg(x)) == (if x.Finite? then Finite(0.0) else NaN)
  {
    if x.Finite? && y.Finite? && y.value != 0.0 {
      assert (x.value / y.value) * y.value == x.value;
    }
  }

  /** Go's float division by zero does not panic: it gives an infinity of the dividend's sign, or NaN for zero. */
  lemma FloatDivisionByZero(a: real)
    ensures FDiv(Finite(a), Finite(0.0)) == (if a > 0.0 then PosInf else if a < 0.0 then NegInf else NaN)
    ensures FDiv(Finite(a), PosInf) == Finite(0.0)
  {
  }

  /** `1.0 / 0.0; 5` evaluates both statements and answers 5: the division yields +Inf, not a panic. */
  lemma DivisionByZeroDoesNotStop(t: Tokens.Token, t1: Tokens.Token, t2: Tokens.Token, t3: Tokens.Token)
    ensures var division := InfixExpression(t, FloatLiteral(t1, 1.0), "/", FloatLiteral(t2, 0.0));
      && Eval(division) == Value(GoFloat(PosInf))
      && Eval(Program([ExpressionStatement(t, division), ExpressionStatement(t3, IntegerLiteral(t3, 5))])) == Value(GoInteger(5))
  {
    var division := InfixExpression(t, FloatLiteral(t1, 1.0), "/", FloatLiteral(t2, 0.0));
    var stmts := [ExpressionStatement(t, division), ExpressionStatement(t3, IntegerLiteral(t3, 5))];
    assert FDiv(Finite(1.0), Finite(0.0)) == PosInf;
    assert Eval(division) == Value(GoFloat(PosInf));
    assert Eval(stmts[0]) == Value(GoFloat(PosInf));
    assert Eval(stmts[1]) == Value(GoInteger(5));
    ProgramAnswersLast(stmts);
  }

  /** `evalBangOperatorExpression`: compares the operand against the shared instances. */
  function Bang(right: Option<GoObj>): GoObj
  {
    if right == Some(TRUE) then FALSE
    else if right == Some(FALSE) then TRUE
    else if right == Some(NULL) then TRUE
    else FALSE
  }

  /** `evalMinusPrefixOperatorExpression`. */
  function Minus(right: Option<GoObj>): GoOutcome
  {
    match right
    case None => Panic(NilDereference)
    case Some(GoInteger(v)) => Value(GoInteger(-v))
    case Some(GoFloat(v)) => Value(GoFloat(FNeg(v)))
    case Some(_) => Value(NULL)
  }

  /** `evalPrefixExpression`. */
  function EvalPrefix(operator: string, right: Option<GoObj>): GoOutcome
  {
    if operator == "!" then Value(Bang(right))
    else if operator == "-" then Minus(right)
    else Value(NULL)
  }

  /** `evalIntegerInfixExpression`, on mathematical integers. */
  function IntegerInfix(operator: string, l: int, r: int): GoOutcome
  {
    if operator == "+" then Value(GoInteger(l + r))
    else if operator == "-" then Value(GoInteger(l - r))
    else if operator == "*" then Value(GoInteger(l * r))
    else if operator == "/" then (if r == 0 then Panic(DivideByZero) else Value(GoInteger(TruncDiv(l, r))))
    else Value(NULL)
  }

  /** `evalFloatInfixExpression`, with finite values held exactly; it never panics. */
  function FloatInfix(operator: string, l: Float64, r: Float64): GoObj
  {
    if operator == "+" then GoFloat(FAdd(l, r))
    else if operator == "-" then GoFloat(FAdd(l, FNeg(r)))
    else if operator == "*" then GoFloat(FMul(l, r))
    else if operator == "/" then GoFloat(FDiv(l, r))
    else NULL
  }

  predicate IsNumber(o: GoObj)
  {
    o.GoInteger? || o.GoFloat?
  }

  /** `getFloatNumber`: an Integer converted to float, or a Float's own value. */
  function FloatNumber(o: GoObj): Float64
    requires IsNumber(o)
  {
    if o.GoInteger? then Finite(o.intValue as real) else o.floatValue
  }

  /** `evalInfixExpression`. */
  function EvalInfix(operator: string, left: Option<GoObj>, right: Option<GoObj>): GoOutcome
  {
    if left.None? || right.None? then Panic(NilDereference)
    else if left.value.GoInteger? && right.value.GoInteger? then IntegerInfix(operator, left.value.intValue, right.value.intValue)
    else if IsNumber(left.value) && IsNumber(right.value) then Value(FloatInfix(operator, FloatNumber(left.value), FloatNumber(right.value)))
    else Value(NULL)
  }

  /** The object an outcome carries on to an operator: `nil` is passed on as such. */
  function Operand(o: GoOutcome): Option<GoObj>
    requires !o.Panic?
  {
    if o.Value? then Some(o.obj) else None
  }

  /** `Eval`. */
  function Eval(n: Node): GoOutcome
    decreases n, 1
  {
    match n
    case Program(stmts) => EvalStatements(n, |stmts|)
    case ExpressionStatement(_, e) => Eval(e)
    case IntegerLiteral(_, v) => Value(GoInteger(v))
    case FloatLiteral(_, v) => Value(GoFloat(Finite(v)))
    case BooleanLiteral(_, b) => Value(NativeBool(b))
    case PrefixExpression(_, op, r) =>
      var right := Eval(r);
      if right.Panic? then right else EvalPrefix(op, Operand(right))
    case InfixExpression(_, l, op, r) =>
      var left := Eval(l);
      if left.Panic? then left
      else
        var right := Eval(r);
        if right.Panic? then right else EvalInfix(op, Operand(left), Operand(right))
    case _ => Nil
  }

  /** `evalStatements` over the first `k` statements of a program: the last one's result, `nil` when there are none. */
  function EvalStatements(p: Node, k: nat): GoOutcome
    requires p.Program? && k <= |p.statements|
    decreases p, 0, k
  {
    if k == 0 then Nil
    else
      var before := EvalStatements(p, k - 1);
      if before.Panic? then before else Eval(p.statements[k - 1])
  }

  /**
   * A program evaluates every statement, with no early exit for `return`,
   * and answers the last one's result; an empty program answers `nil`.
   */
  lemma {:induction false} ProgramAnswersLast(stmts: seq<Node>)
    ensures |stmts| == 0 ==> Eval(Program(stmts)) == Nil
    ensures (forall k :: 0 <= k < |stmts| ==> !Eval(stmts[k]).Panic?) && |stmts| > 0 ==>
      Eval(Program(stmts)) == Eval(stmts[|stmts| - 1])
    ensures (exists k :: 0 <= k < |stmts| && Eval(stmts[k]).Panic?) ==> Eval(Program(stmts)).Panic?
  {
    var p := Program(stmts);
    NoPanicBefore(p, |stmts|);
  }

  lemma {:induction false} NoPanicBefore(p: Node, k: nat)
    requires p.Program? && k <= |p.statements|
    ensures (forall j :: 0 <= j < k ==> !Eval(p.statements[j]).Panic?) && k > 0 ==> EvalStatements(p, k) == Eval(p.statements[k - 1])
    ensures (exists j :: 0 <= j < k && Eval(p.statements[j]).Panic?) ==> EvalStatements(p, k).Panic?
    decreases k
  {
    if k > 0 {
      NoPanicBefore(p, k - 1);
    }
  }

  /** `!` yields TRUE exactly for FALSE and NULL; 0, nil and every other value give FALSE. */
  lemma BangTable(right: Option<GoObj>)
    ensures Bang(right) == TRUE <==> (right == Some(FALSE) || right == Some(NULL))
    ensures Bang(right) == FALSE <==> !(right == Some(FALSE) || right == Some(NULL))
  {
  }

  /** `-` negates numbers, so applying it twice gives the number back; on anything else it answers NULL. */
  lemma MinusTwice(o: GoObj)
    ensures IsNumber(o) ==> Minus(Some(o)).Value? && Minus(Some(Minus(Some(o)).obj)) == Value(o)
    ensures !IsNumber(o) ==> Minus(Some(o)) == Value(NULL)
  {
  }

  /** Operators other than `+ - * /`, comparisons included, answer NULL on numbers, as do non-numeric operands. */
  lemma InfixNullCases(operator: string, l: GoObj, r: GoObj)
    ensures (operator !in {"+", "-", "*", "/"} && IsNumber(l) && IsNumber(r)) ==> EvalInfix(operator, Some(l), Some(r)) == Value(NULL)
    ensures !(IsNumber(l) && IsNumber(r)) ==> EvalInfix(operator, Some(l), Some(r)) == Value(NULL)
  {
  }

  /**
   * Two Integer literals combine exactly, with truncating division and a
   * panic on a zero divisor; an Integer and a Float combine as floats.
   */
  lemma IntegerLiteralInfix(t: Tokens.Token, t1: Tokens.Token, a: int, op: string, t2: Tokens.Token, b: int)
    ensures var r := Eval(InfixExpression(t, IntegerLiteral(t1, a), op, IntegerLiteral(t2, b)));
      && (op == "+" ==> r == Value(GoInteger(a + b)))
      && (op == "-" ==> r == Value(GoInteger(a - b)))
      && (op == "*" ==> r == Value(GoInteger(a * b)))
      && (op == "/" && b == 0 ==> r == Panic(DivideByZero))
      && (op == "/" && b != 0 ==> r == Value(GoInteger(TruncDiv(a, b))))
      && (op == "/" && b != 0 ==> var rem := a - r.obj.intValue * b; Abs(rem) < Abs(b) && (rem == 0 || (rem > 0) == (a > 0)))
  {
    if op == "/" && b != 0 {
      TruncatedDivision(a, b);
    }
  }

  /** A mixed Integer/Float pair is computed on the Integer's value converted to float. */
  lemma MixedOperandsAreFloats(t: Tokens.Token, t1: Tokens.Token, a: int, op: string, t2: Tokens.Token, x: real)
    ensures var r := Eval(InfixExpression(t, IntegerLiteral(t1, a), op, FloatLiteral(t2, x)));
      && (op == "+" ==> r == Value(GoFloat(Finite(a as real + x))))
      && (op == "-" ==> r == Value(GoFloat(Finite(a as real - x))))
      && (op == "*" ==> r == Value(GoFloat(Finite(a as real * x))))
      && (op == "/" && x != 0.0 ==> r == Value(GoFloat(Finite(a as real / x))))
      && (op == "/" && x == 0.0 ==> r.Value? && r.obj.GoFloat? && !r.obj.floatValue.Finite?)
  {
    if op == "*" {
      assert FMul(Finite(a as real), Finite(x)) == Finite(a as real * x);
    }
  }

  /** Boolean literals evaluate to the shared TRUE and FALSE, so `!` on them flips between the two. */
  lemma BooleanLiteralsAreShared(t: Tokens.Token, t1: Tokens.Token, b: bool)
    ensures Eval(BooleanLiteral(t, b)) == Value(if b then TRUE else FALSE)
    ensures Eval(PrefixExpression(t, "!", BooleanLiteral(t1, b))) == Value(if b then FALSE else TRUE)
  {
  }

  /** A node kind the type switch does not list yields `nil`; as an operand of `-` or of an infix operator that panics. */
  lemma UnlistedNodesAreNil(t: Tokens.Token, s: string, t1: Tokens.Token)
    ensures Eval(StringLiteral(t, s)) == Nil
    ensures Eval(PrefixExpression(t1, "-", StringLiteral(t, s))) == Panic(NilDereference)
    ensures Eval(PrefixExpression(t1, "!", StringLiteral(t, s))) == Value(FALSE)
  {
  }
}
