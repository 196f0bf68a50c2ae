/**
 * The value semantics shared by the evaluator in Interpreter.cpp and its
 * older copy Interpeter.cpp: truthiness, equality, the operand checks and
 * the unary and binary operators. A thrown `RuntimeError` is a `Failure`.
 *
 * Numbers are reals. Both files answer `==` with `!is_equal`, exactly as they
 * answer `!=`; `BinaryOpAsWritten` keeps that, and `BinaryOp` is the operator
 * table with `==` answering `is_equal`.
 */
module Operators {
  import opened Wrappers
  import opened Tokens
  import opened Values

  const NumberOperandMessage: string := "Operand must be a number."
  const PlusOperandsMessage: string := "Operands must be two numbers or two strings."

  /** `is_truthy`: nil is false, a boolean is itself, anything else is true. */
  predicate IsTruthy(v: Value): (truthy: bool)
    ensures !truthy <==> v == Value.Nil || v == Bool(false)
  {
    match v
    case Nil => false
    case Bool(b) => b
    case _ => true
  }

  /** Nil, booleans, numbers and strings: the values `is_equal` can find equal. */
  predicate IsPrimitive(v: Value)
  {
    v.Nil? || v.Bool? || v.Num? || v.Str?
  }

  /**
   * `is_equal`: nil equals only nil; two strings, two numbers or two booleans
   * compare by value; anything else, functions, classes and instances
   * included, is unequal.
   */
  predicate IsEqual(a: Value, b: Value): (equal: bool)
    ensures equal <==> IsPrimitive(a) && a == b
  {
    if a.Nil? && b.Nil? then true
    else if a.Nil? then false
    else if a.Str? && b.Str? then a.s == b.s
    else if a.Num? && b.Num? then a.n == b.n
    else if a.Bool? && b.Bool? then a.b == b.b
    else false
  }

  /** `assert_number_operand`. */
  function CheckNumberOperand(op: Token, v: Value): (r: Option<RuntimeError>)
    ensures r.None? <==> v.Num?
    ensures r.Some? ==> r.value == RuntimeError(op, NumberOperandMessage)
  {
    if v.Num? then None else Some(RuntimeError(op, NumberOperandMessage))
  }

  /** `assert_number_operands`. */
  function CheckNumberOperands(op: Token, left: Value, right: Value): (r: Option<RuntimeError>)
    ensures r.None? <==> left.Num? && right.Num?
    ensures r.Some? ==> r.value == RuntimeError(op, NumberOperandMessage)
  {
    if left.Num? && right.Num? then None else Some(RuntimeError(op, NumberOperandMessage))
  }

  /** `visit_UnaryExpr` once its operand is evaluated. */
  function UnaryOp(op: Token, right: Value): (r: Result<Value, RuntimeError>)
    ensures r.Failure? <==> op.kind == Minus && !right.Num?
    ensures r.Failure? ==> r.error == RuntimeError(op, NumberOperandMessage)
  {
    match op.kind
    case Minus =>
      if CheckNumberOperand(op, right).Some? then Failure(CheckNumberOperand(op, right).value)
      else Success(Num(right.n * -1.0))
    case Bang => Success(Bool(!IsTruthy(right)))
    case _ => Success(Value.Nil)
  }

  /** The kinds of binary operator that demand two numbers. */
  const NumericOperators: set<TokenType> := {Greater, GreaterEqual, Less, LessEqual, Minus, Slash, Star}

  /** The quotient of two numbers; the model has no infinities, so a zero divisor gives 0. */
  function Quotient(l: real, r: real): (q: real)
    ensures r != 0.0 ==> q * r == l
    ensures r == 0.0 ==> q == 0.0
  {
    if r == 0.0 then 0.0 else l / r
  }

  /** The arithmetic and comparison operators on two numbers. */
  function NumericResult(kind: TokenType, l: real, r: real): Value
    requires kind in NumericOperators
  {
    match kind
    case Greater => Bool(l > r)
    case GreaterEqual => Bool(l >= r)
    case Less => Bool(l < r)
    case LessEqual => Bool(l <= r)
    case Minus => Num(l - r)
    case Slash => Num(Quotient(l, r))
    case Star => Num(l * r)
  }

  /** `+`: two numbers add, two strings concatenate, anything else is an error. */
  function Sum(op: Token, left: Value, right: Value): (r: Result<Value, RuntimeError>)
    ensures r.Failure? <==> !((left.Num? && right.Num?) || (left.Str? && right.Str?))
    ensures r.Failure? ==> r.error == RuntimeError(op, PlusOperandsMessage)
  {
    if left.Num? && right.Num? then Success(Num(left.n + right.n))
    else if left.Str? && right.Str? then Success(Str(left.s + right.s))
    else Failure(RuntimeError(op, PlusOperandsMessage))
  }

  /** `visit_BinaryExpr` once both operands are evaluated, with `==` answering `is_equal`. */
  function BinaryOp(op: Token, left: Value, right: Value): (r: Result<Value, RuntimeError>)
    ensures r.Failure? <==>
      || (op.kind in NumericOperators && !(left.Num? && right.Num?))
      || (op.kind == Plus && !((left.Num? && right.Num?) || (left.Str? && right.Str?)))
    ensures r.Failure? ==>
      r.error == RuntimeError(op, if op.kind == Plus then PlusOperandsMessage else NumberOperandMessage)
  {
    if op.kind in NumericOperators then
      match CheckNumberOperands(op, left, right)
      case Some(e) => Failure(e)
      case None => Success(NumericResult(op.kind, left.n, right.n))
    else if op.kind == BangEqual then Success(Bool(!IsEqual(left, right)))
    else if op.kind == EqualEqual then Success(Bool(IsEqual(left, right)))
    else if op.kind == Plus then Sum(op, left, right)
    else Success(Value.Nil)
  }

  /** `visit_BinaryExpr` as both files write it: the `EQUAL_EQUAL` case returns `!is_equal`. */
  function BinaryOpAsWritten(op: Token, left: Value, right: Value): (r: Result<Value, RuntimeError>)
    ensures r.Failure? <==>
      || (op.kind in NumericOperators && !(left.Num? && right.Num?))
      || (op.kind == Plus && !((left.Num? && right.Num?) || (left.Str? && right.Str?)))
    ensures r.Failure? ==>
      r.error == RuntimeError(op, if op.kind == Plus then PlusOperandsMessage else NumberOperandMessage)
  {
    if op.kind in NumericOperators then
      match CheckNumberOperands(op, left, right)
      case Some(e) => Failure(e)
      case None => Success(NumericResult(op.kind, left.n, right.n))
    else if op.kind == BangEqual then Success(Bool(!IsEqual(left, right)))
    else if op.kind == EqualEqual then Success(Bool(!IsEqual(left, right)))
    else if op.kind == Plus then Sum(op, left, right)
    else Success(Value.Nil)
  }

  /** Exactly nil and false are falsey: 0, the empty string and every object are truthy. */
  lemma TruthyExactly(v: Value)
    ensures !IsTruthy(v) <==> v == Value.Nil || v == Bool(false)
    ensures IsTruthy(Num(0.0)) && IsTruthy(Str(""))
  {
  }

  /**
   * `is_equal` is symmetric and, on nil, booleans, numbers and strings, is
   * exactly equality of values; a function, class or instance is unequal to
   * everything, itself included.
   */
  lemma EqualityOnValues(a: Value, b: Value)
    ensures IsEqual(a, b) == IsEqual(b, a)
    ensures IsPrimitive(a) && IsPrimitive(b) ==> (IsEqual(a, b) <==> a == b)
    ensures !IsPrimitive(a) || !IsPrimitive(b) ==> !IsEqual(a, b)
  {
  }

  /** `!` negates truthiness, so `!!v` is the truthiness of `v`; `-` negates a number and rejects anything else. */
  lemma UnaryOperators(op: Token, v: Value)
    ensures op.kind == Bang ==>
      UnaryOp(op, v).Success? && UnaryOp(op, UnaryOp(op, v).value) == Success(Bool(IsTruthy(v)))
    ensures op.kind == Minus ==>
      (UnaryOp(op, v).Failure? <==> !v.Num?) &&
      (UnaryOp(op, v).Failure? ==> UnaryOp(op, v).error == RuntimeError(op, NumberOperandMessage)) &&
      (v.Num? ==> UnaryOp(op, UnaryOp(op, v).value) == Success(v))
    ensures op.kind != Bang && op.kind != Minus ==> UnaryOp(op, v) == Success(Value.Nil)
  {
  }

  /**
   * `+` adds two numbers and concatenates two strings; any other pair of
   * operands fails with "Operands must be two numbers or two strings.".
   */
  lemma PlusOverload(op: Token, left: Value, right: Value)
    requires op.kind == Plus
    ensures BinaryOp(op, left, right).Success? <==> (left.Num? && right.Num?) || (left.Str? && right.Str?)
    ensures left.Num? && right.Num? ==> BinaryOp(op, left, right) == Success(Num(left.n + right.n))
    ensures left.Str? && right.Str? ==> BinaryOp(op, left, right) == Success(Str(left.s + right.s))
    ensures BinaryOp(op, left, right).Failure? ==>
      BinaryOp(op, left, right).error == RuntimeError(op, PlusOperandsMessage)
  {
  }

  /**
   * The comparison and arithmetic operators fail with "Operand must be a
   * number." unless both operands are numbers, and then compare or compute.
   */
  lemma NumericOperands(op: Token, left: Value, right: Value)
    requires op.kind in NumericOperators
    ensures BinaryOp(op, left, right).Failure? <==> !(left.Num? && right.Num?)
    ensures BinaryOp(op, left, right).Failure? ==>
      BinaryOp(op, left, right).error == RuntimeError(op, NumberOperandMessage)
    ensures left.Num? && right.Num? ==> match op.kind
      case Greater => BinaryOp(op, left, right) == Success(Bool(left.n > right.n))
      case Less => BinaryOp(op, left, right) == Success(Bool(left.n < right.n))
      case GreaterEqual => BinaryOp(op, left, right) == Success(Bool(left.n >= right.n))
      case LessEqual => BinaryOp(op, left, right) == Success(Bool(left.n <= right.n))
      case Minus => BinaryOp(op, left, right) == Success(Num(left.n - right.n))
      case Star => BinaryOp(op, left, right) == Success(Num(left.n * right.n))
      case Slash => right.n != 0.0 ==> BinaryOp(op, left, right) == Success(Num(left.n / right.n))
      case _ => false
  {
    if op.kind == Star && left.Num? && right.Num? {
      assert NumericResult(Star, left.n, right.n) == Num(left.n * right.n);
    }
  }

  /**
   * `==` and `!=` never fail and are each other's negation, and `==` agrees
   * with equality of values on nil, booleans, numbers and strings. Any
   * operator kind the table does not handle yields nil.
   */
  lemma EqualityOperators(eq: Token, ne: Token, left: Value, right: Value)
    requires eq.kind == EqualEqual && ne.kind == BangEqual
    ensures BinaryOp(eq, left, right).Success? && BinaryOp(ne, left, right).Success?
    ensures BinaryOp(eq, left, right).value == Bool(!BinaryOp(ne, left, right).value.b)
    ensures IsPrimitive(left) && IsPrimitive(right) ==>
      (BinaryOp(eq, left, right) == Success(Bool(true)) <==> left == right)
  {
    EqualityOnValues(left, right);
  }

  lemma UnknownBinaryOperator(op: Token, left: Value, right: Value)
    requires op.kind !in NumericOperators + {BangEqual, EqualEqual, Plus}
    ensures BinaryOp(op, left, right) == Success(Value.Nil)
  {
  }

  /**
   * As written, `==` is the same operator as `!=`: `1 == 1` is false and
   * `1 == 2` is true. On every other operator the written table and the
   * corrected one agree.
   */
  lemma EqualEqualAsWritten(op: Token, left: Value, right: Value)
    ensures op.kind == EqualEqual ==> BinaryOpAsWritten(op, left, right) == Success(Bool(!IsEqual(left, right)))
    ensures op.kind == EqualEqual ==> BinaryOpAsWritten(op, Num(1.0), Num(1.0)) == Success(Bool(false))
    ensures op.kind == EqualEqual ==> BinaryOpAsWritten(op, Num(1.0), Num(2.0)) == Success(Bool(true))
    ensures op.kind != EqualEqual ==> BinaryOpAsWritten(op, left, right) == BinaryOp(op, left, right)
  {
  }
}
