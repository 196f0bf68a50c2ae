/**
 * The tree-walking evaluator of Interpreter.cpp (and the expression half of
 * Interpeter.cpp), and `LoxFunction::call`.
 *
 * The evaluator has visitors for literals, groups, unary and binary
 * operators and variable reads, and for expression, print, `var` and block
 * statements; `Evaluable` and `Executable` pick out the trees made only of
 * those nodes. Evaluation reads the environment chain and changes nothing;
 * execution defines variables and records printed values.
 */
module Interpreting {
  import opened Wrappers
  import Tokens
  import opened Ast
  import opened Values
  import opened Environments
  import opened Operators

  /** The value a literal node holds. */
  function LiteralValueOf(l: LiteralValue): Value
  {
    match l
    case LitNil => Value.Nil
    case LitBool(b) => Bool(b)
    case LitNumber(n) => Num(n)
    case LitString(s) => Str(s)
  }

  /** Expressions built only from the nodes the evaluator has visitors for. */
  predicate Evaluable(e: Expr)
    decreases e
  {
    match e
    case Literal(_) => true
    case Group(inner) => Evaluable(inner)
    case Unary(_, right) => Evaluable(right)
    case Binary(left, _, right) => Evaluable(left) && Evaluable(right)
    case Variable(_, _) => true
    case _ => false
  }

  /**
   * The errors evaluating `e` can throw: an operand check of a unary or binary
   * operator, or a read of a name that is bound nowhere on the chain.
   */
  predicate EvalError(err: RuntimeError, e: Expr)
  {
    || err.message == NumberOperandMessage
    || err.message == PlusOperandsMessage
    || (err.token in Reads(e) && err.message == "Undefined variable '" + err.token.lexeme + "'.")
  }

  /** `evaluate`: the value of `e` read against the environment chain, or the error it throws. */
  function Eval(e: Expr, chain: seq<Frame>): (r: Result<Value, RuntimeError>)
    requires Evaluable(e)
    ensures r.Failure? ==> EvalError(r.error, e)
    decreases e
  {
    match e
    case Literal(l) => Success(LiteralValueOf(l))
    case Group(inner) => Eval(inner, chain)
    case Unary(op, right) =>
      var r :- Eval(right, chain);
      UnaryOp(op, r)
    case Binary(left, op, right) =>
      var r :- Eval(right, chain);
      var l :- Eval(left, chain);
      BinaryOpAsWritten(op, l, r)
    case Variable(_, name) => GetIn(chain, name)
  }

  /**
   * The right operand is evaluated before the left: when both throw, the
   * right one's error is the one reported.
   */
  lemma RightOperandFirst(left: Expr, op: Tokens.Token, right: Expr, chain: seq<Frame>)
    requires Evaluable(left) && Evaluable(right)
    ensures Eval(right, chain).Failure? ==>
      Eval(Binary(left, op, right), chain) == Failure(Eval(right, chain).error)
    ensures Eval(right, chain).Success? && Eval(left, chain).Failure? ==>
      Eval(Binary(left, op, right), chain) == Failure(Eval(left, chain).error)
    ensures Eval(right, chain).Success? && Eval(left, chain).Success? ==>
      Eval(Binary(left, op, right), chain) == BinaryOpAsWritten(op, Eval(left, chain).value, Eval(right, chain).value)
  {
  }

  /**
   * The evaluator applies the `==` of the source, which answers `!=`: `1 == 1`
   * evaluates to false and `1 == 2` to true, while every other operator agrees
   * with the corrected table `BinaryOp`.
   */
  lemma EqualEqualEvaluatesNegated(op: Tokens.Token, left: Expr, right: Expr, chain: seq<Frame>)
    requires Evaluable(left) && Evaluable(right)
    ensures op.kind == Tokens.EqualEqual ==>
      Eval(Binary(Literal(LitNumber(1.0)), op, Literal(LitNumber(1.0))), chain) == Success(Bool(false))
    ensures op.kind == Tokens.EqualEqual ==>
      Eval(Binary(Literal(LitNumber(1.0)), op, Literal(LitNumber(2.0))), chain) == Success(Bool(true))
    ensures op.kind != Tokens.EqualEqual && Eval(left, chain).Success? && Eval(right, chain).Success? ==>
      Eval(Binary(left, op, right), chain) == BinaryOp(op, Eval(left, chain).value, Eval(right, chain).value)
  {
    if op.kind == Tokens.EqualEqual {
      EqualEqualAsWritten(op, Num(1.0), Num(1.0));
      EqualEqualAsWritten(op, Num(1.0), Num(2.0));
    } else if Eval(left, chain).Success? && Eval(right, chain).Success? {
      EqualEqualAsWritten(op, Eval(left, chain).value, Eval(right, chain).value);
    }
  }

  /** A variable read is `get` on the chain: the nearest binding, or "Undefined variable". */
  lemma VariableReadsChain(id: nat, name: Tokens.Token, chain: seq<Frame>)
    ensures Eval(Variable(id, name), chain).Failure? <==> forall j :: 0 <= j < |chain| ==> name.lexeme !in chain[j]
    ensures Eval(Variable(id, name), chain).Failure? ==>
      Eval(Variable(id, name), chain).error.message == "Undefined variable '" + name.lexeme + "'."
  {
    GetUndefined(chain, name);
  }

  /** Statements built only from the nodes the executor has visitors for. */
  predicate Executable(s: Stmt)
  {
    match s
    case Expression(e) => Evaluable(e)
    case Print(e) => Evaluable(e)
    case Var(_, init) => init.None? || Evaluable(init.value)
    case Block(_) => true
    case _ => false
  }

  /** What execution changes: the environment chain and the values printed so far. */
  datatype State = State(chain: seq<Frame>, output: seq<Value>)

  /** `execute`: the new state, or the error thrown (the state is then unchanged). */
  function Exec(s: Stmt, st: State): (r: Result<State, RuntimeError>)
    requires Executable(s) && |st.chain| > 0
    ensures r.Success? ==> |r.value.chain| == |st.chain|
    ensures r.Success? ==> st.output <= r.value.output
  {
    match s
    case Expression(e) =>
      var _ :- Eval(e, st.chain);
      Success(st)
    case Print(e) =>
      var v :- Eval(e, st.chain);
      Success(st.(output := st.output + [v]))
    case Var(name, init) =>
      var v :- if init.None? then Success(Value.Nil) else Eval(init.value, st.chain);
      Success(st.(chain := DefinedIn(st.chain, name.lexeme, v)))
    case Block(_) => Success(st)
  }

  /** `var` without an initializer defines the name as nil in the innermost environment. */
  lemma VarWithoutInitializer(name: Tokens.Token, st: State)
    requires |st.chain| > 0
    ensures Exec(Stmt.Var(name, None), st).Success?
    ensures var after := Exec(Stmt.Var(name, None), st).value;
      && after.output == st.output
      && GetIn(after.chain, name) == Success(Value.Nil)
      && after.chain[1..] == st.chain[1..]
  {
    DefineThenGet(st.chain, name, Value.Nil, name);
  }

  /**
   * A print statement appends exactly the printed value to the output and
   * leaves the environment alone; an expression statement discards its value.
   */
  lemma PrintAndExpression(e: Expr, st: State)
    requires Evaluable(e) && |st.chain| > 0
    ensures Exec(Print(e), st).Success? <==> Eval(e, st.chain).Success?
    ensures Exec(Print(e), st).Success? ==>
      Exec(Print(e), st).value == State(st.chain, st.output + [Eval(e, st.chain).value])
    ensures Exec(Expression(e), st).Success? <==> Eval(e, st.chain).Success?
    ensures Exec(Expression(e), st).Success? ==> Exec(Expression(e), st).value == st
  {
  }

  /** A block statement does nothing: the evaluator's block visitor has an empty body. */
  lemma BlockDoesNothing(ss: seq<Stmt>, st: State)
    requires |st.chain| > 0
    ensures Exec(Block(ss), st) == Success(st)
  {
  }

  /** What `interpret` ends with: the final state and the runtime error that stopped it, if any. */
  datatype Outcome = Outcome(state: State, error: Option<RuntimeError>)

  predicate AllExecutable(ss: seq<Stmt>)
  {
    forall i :: 0 <= i < |ss| ==> Executable(ss[i])
  }

  /** `interpret`: the statements in order, stopping at the first runtime error. */
  function Run(ss: seq<Stmt>, st: State): (r: Outcome)
    requires AllExecutable(ss) && |st.chain| > 0
    ensures st.output <= r.state.output
    ensures r.error.None? ==> |r.state.chain| == |st.chain|
    decreases |ss|
  {
    if |ss| == 0 then Outcome(st, None)
    else
      match Exec(ss[0], st)
      case Failure(e) => Outcome(st, Some(e))
      case Success(next) => Run(ss[1..], next)
  }

  lemma {:induction false} RunKeepsDepth(ss: seq<Stmt>, st: State)
    requires AllExecutable(ss) && |st.chain| > 0
    ensures |Run(ss, st).state.chain| == |st.chain|
    decreases |ss|
  {
    if |ss| > 0 {
      match Exec(ss[0], st)
      case Failure(_) =>
      case Success(next) => RunKeepsDepth(ss[1..], next);
    }
  }

  /**
   * Running `a + b` runs `a`, and runs `b` from where `a` left off only if
   * `a` raised no error: a runtime error ends the whole list.
   */
  lemma {:induction false} RunAppend(a: seq<Stmt>, b: seq<Stmt>, st: State)
    requires AllExecutable(a) && AllExecutable(b) && |st.chain| > 0
    ensures AllExecutable(a + b)
    ensures Run(a, st).error.Some? ==> Run(a + b, st) == Run(a, st)
    ensures Run(a, st).error.None? ==>
      |Run(a, st).state.chain| > 0 && Run(a + b, st) == Run(b, Run(a, st).state)
    decreases |a|
  {
    RunKeepsDepth(a, st);
    if |a| == 0 {
      assert a + b == b;
    } else {
      assert (a + b)[1..] == a[1..] + b;
      match Exec(a[0], st)
      case Failure(_) =>
      case Success(next) => RunAppend(a[1..], b, next);
    }
  }

  /**
   * When statement `k` is the first to throw, `interpret` stops there: the
   * state is the one the earlier statements left, the error is statement
   * `k`'s, and no later statement has any effect.
   */
  lemma FirstErrorStops(ss: seq<Stmt>, k: nat, st: State)
    requires AllExecutable(ss) && |st.chain| > 0 && k < |ss|
    requires Run(ss[..k], st).error.None?
    requires |Run(ss[..k], st).state.chain| > 0
    requires Exec(ss[k], Run(ss[..k], st).state).Failure?
    ensures Run(ss, st) == Outcome(Run(ss[..k], st).state, Some(Exec(ss[k], Run(ss[..k], st).state).error))
  {
    assert ss == ss[..k] + ss[k..];
    RunAppend(ss[..k], ss[k..], st);
  }

  /**
   * The interpreter object: the global environment, the current one, the
   * values printed and the runtime errors reported through `Lox::runtime_error`.
   */
  class Interpreter {
    const globals: Environment
    var environment: Environment
    var output: seq<Value>
    var reported: seq<RuntimeError>

    ghost predicate Valid()
      reads this
    {
      environment.Valid() && globals.Valid()
    }

    function Snapshot(): State
      requires Valid()
      reads this, environment.Repr
    {
      State(environment.Chain(), output)
    }

    constructor ()
      ensures Valid() && fresh(environment.Repr)
      ensures environment == globals && environment.Chain() == [map[]]
      ensures output == [] && reported == []
    {
      globals := new Environment();
      environment := globals;
      output, reported := [], [];
    }

    /** `execute`: one statement; a thrown error is returned and leaves the state as it was. */
    method Execute(s: Stmt) returns (error: Option<RuntimeError>)
      requires Valid() && Executable(s)
      modifies this`output, environment
      ensures Valid()
      ensures match Exec(s, old(Snapshot()))
        case Success(st) => error.None? && Snapshot() == st
        case Failure(e) => error == Some(e) && Snapshot() == old(Snapshot())
    {
      match s
      case Expression(e) =>
        var r := Eval(e, environment.Chain());
        if r.Failure? {
          return Some(r.error);
        }
        return None;
      case Print(e) =>
        var r := Eval(e, environment.Chain());
        if r.Failure? {
          return Some(r.error);
        }
        output := output + [r.value];
        return None;
      case Var(name, init) =>
        var value := Value.Nil;
        if init.Some? {
          var r := Eval(init.value, environment.Chain());
          if r.Failure? {
            return Some(r.error);
          }
          value := r.value;
        }
        environment.Define(name.lexeme, value);
        return None;
      case Block(_) =>
        return None;
    }

    /** `interpret`: executes the statements in order and reports the first runtime error, which ends the run. */
    method Interpret(ss: seq<Stmt>)
      requires Valid() && AllExecutable(ss)
      modifies this`output, this`reported, environment
      ensures Valid()
      ensures var o := Run(ss, old(Snapshot()));
        Snapshot() == o.state && reported == old(reported) + o.error.ToSeq()
    {
      var i := 0;
      while i < |ss|
        invariant 0 <= i <= |ss| && Valid()
        invariant Run(ss[i..], Snapshot()) == Run(ss, old(Snapshot()))
        invariant reported == old(reported)
      {
        assert ss[i..][1..] == ss[i + 1..];
        var error := Execute(ss[i]);
        if error.Some? {
          reported := reported + [error.value];
          return;
        }
        i := i + 1;
      }
    }
  }

  /** The bindings `call` makes: parameter `i` defined as argument `i`, in order. */
  function Bindings(params: seq<Tokens.Token>, arguments: seq<Value>): (b: Frame)
    requires |arguments| >= |params|
    ensures forall i :: 0 <= i < |params| ==> params[i].lexeme in b
    decreases |params|
  {
    if |params| == 0 then map[]
    else
      var k := |params| - 1;
      Bindings(params[..k], arguments)[params[k].lexeme := arguments[k]]
  }

  /**
   * Every parameter is bound, and to the argument in its position (the last
   * one when two parameters share a name); nothing else is bound.
   */
  lemma {:induction false} BindingsBindParameters(params: seq<Tokens.Token>, arguments: seq<Value>, i: nat)
    requires |arguments| >= |params| && i < |params|
    requires forall j :: i < j < |params| ==> params[j].lexeme != params[i].lexeme
    ensures params[i].lexeme in Bindings(params, arguments)
    ensures Bindings(params, arguments)[params[i].lexeme] == arguments[i]
    ensures forall n :: n in Bindings(params, arguments) ==> exists j :: 0 <= j < |params| && params[j].lexeme == n
    decreases |params|
  {
    var k := |params| - 1;
    if i < k {
      BindingsBindParameters(params[..k], arguments, i);
    }
    BindingsOnlyParameters(params, arguments);
  }

  lemma {:induction false} BindingsOnlyParameters(params: seq<Tokens.Token>, arguments: seq<Value>)
    requires |arguments| >= |params|
    ensures forall n :: n in Bindings(params, arguments) ==> exists j :: 0 <= j < |params| && params[j].lexeme == n
    decreases |params|
  {
    if |params| > 0 {
      var k := |params| - 1;
      BindingsOnlyParameters(params[..k], arguments);
      forall n | n in Bindings(params, arguments)
        ensures exists j :: 0 <= j < |params| && params[j].lexeme == n
      {
        if n != params[k].lexeme {
          assert n in Bindings(params[..k], arguments);
          var j :| 0 <= j < k && params[..k][j].lexeme == n;
          assert params[j].lexeme == n;
        }
      }
    }
  }

  /**
   * `LoxFunction::call`: a fresh environment enclosed by the globals, not by
   * the caller's environment, holding one binding per parameter; the result
   * is nil. Running the body is `execute_block`, which is not part of this
   * model.
   */
  method CallFunction(interpreter: Interpreter, f: LoxFunction, arguments: seq<Value>)
    returns (result: Value, environment: Environment)
    requires interpreter.globals.Valid()
    requires |arguments| >= f.Arity()
    ensures fresh(environment) && environment.Valid()
    ensures environment.enclosing == interpreter.globals
    ensures environment.values == Bindings(f.declaration.params, arguments)
    ensures environment.Chain() == [environment.values] + interpreter.globals.Chain()
    ensures result == Value.Nil
  {
    var params := f.declaration.params;
    environment := new Environment.Enclosed(interpreter.globals);
    var i := 0;
    while i < |params|
      invariant 0 <= i <= |params|
      invariant fresh(environment) && environment.Valid()
      invariant environment.enclosing == interpreter.globals
      invariant environment.values == Bindings(params[..i], arguments)
    {
      environment.Define(params[i].lexeme, arguments[i]);
      assert params[..i + 1][..i] == params[..i];
      i := i + 1;
    }
    assert params[..|params|] == params;
    result := Value.Nil;
  }

  /** Inside a call, reading parameter `i` yields argument `i` (the last of equally named parameters wins). */
  lemma CallSeesArguments(globals: seq<Frame>, params: seq<Tokens.Token>, arguments: seq<Value>, i: nat)
    requires |arguments| >= |params| && i < |params|
    requires forall j :: i < j < |params| ==> params[j].lexeme != params[i].lexeme
    ensures GetIn([Bindings(params, arguments)] + globals, params[i]) == Success(arguments[i])
  {
    BindingsBindParameters(params, arguments, i);
    GetNearest([Bindings(params, arguments)] + globals, params[i], 0);
  }
}
