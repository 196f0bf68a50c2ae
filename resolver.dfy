/**
 * The static resolver of Resolver.cpp: a stack of `name -> ready` scopes that
 * is pushed and popped around blocks and function bodies, and a table from
 * each local variable reference to the number of scopes between it and its
 * declaration. The pure functions below give the effect of each visitor on a
 * `ResolverState`; the class `Resolver` updates its fields in place and is
 * proved to have exactly that effect.
 */
module Resolving {
  import opened Wrappers
  import opened Tokens
  import opened Ast

  /** One block scope: each name maps to whether its declaration is finished. */
  type Scope = map<string, bool>

  /** A diagnostic passed to `Lox::error` during resolution. */
  datatype ResolveError = ResolveError(token: Token, message: string)

  const OwnInitializerMessage: string := "Can't read local variable in its own initializer."

  /**
   * How many scopes out from the innermost (the back of the stack) the nearest
   * scope holding `name` is; None when no scope holds it, i.e. a global.
   */
  function Distance(scopes: seq<Scope>, name: string): (d: Option<nat>)
    ensures d.None? <==> forall i :: 0 <= i < |scopes| ==> name !in scopes[i]
    ensures d.Some? ==> d.value < |scopes| && name in scopes[|scopes| - 1 - d.value]
    ensures d.Some? ==> forall i :: |scopes| - 1 - d.value < i < |scopes| ==> name !in scopes[i]
    decreases |scopes|
  {
    if |scopes| == 0 then None
    else if name in scopes[|scopes| - 1] then Some(0)
    else
      match Distance(scopes[..|scopes| - 1], name)
      case None => None
      case Some(d) => Some(d + 1)
  }

  datatype ResolverState = ResolverState(scopes: seq<Scope>, locals: map<nat, nat>, errors: seq<ResolveError>)

  /** `begin_scope`: push an empty scope. */
  function Pushed(st: ResolverState): (r: ResolverState)
    ensures |r.scopes| == |st.scopes| + 1 && r.scopes[|st.scopes|] == map[]
    ensures Popped(r) == st
  {
    st.(scopes := st.scopes + [map[]])
  }

  /** `end_scope`: pop the innermost scope. */
  function Popped(st: ResolverState): (r: ResolverState)
    requires |st.scopes| > 0
    ensures |r.scopes| == |st.scopes| - 1 && r.locals == st.locals && r.errors == st.errors
    ensures forall i :: 0 <= i < |r.scopes| ==> r.scopes[i] == st.scopes[i]
  {
    st.(scopes := st.scopes[..|st.scopes| - 1])
  }

  /** `declare` (ready = false) and `define` (ready = true): no effect on an empty stack. */
  function Marked(st: ResolverState, name: string, ready: bool): (r: ResolverState)
    ensures |r.scopes| == |st.scopes| && r.locals == st.locals && r.errors == st.errors
  {
    if |st.scopes| == 0 then st
    else
      var n := |st.scopes|;
      st.(scopes := st.scopes[..n - 1] + [st.scopes[n - 1][name := ready]])
  }

  /** `resolve_local`: record the distance of the nearest scope holding `name`, if any. */
  function LocalResolved(st: ResolverState, id: nat, name: string): ResolverState
  {
    match Distance(st.scopes, name)
    case None => st
    case Some(d) => st.(locals := st.locals[id := d])
  }

  /** The name is declared in the innermost scope but its initializer is still being resolved. */
  predicate InInitializer(scopes: seq<Scope>, name: string)
  {
    |scopes| > 0 && name in scopes[|scopes| - 1] && !scopes[|scopes| - 1][name]
  }

  /** The `visit_*Expr` methods. Expressions never change the scope stack. */
  function ExprResolved(st: ResolverState, e: Expr): (r: ResolverState)
    ensures r.scopes == st.scopes
    decreases e
  {
    match e
    case Literal(_) => st
    case Group(inner) => ExprResolved(st, inner)
    case Unary(_, right) => ExprResolved(st, right)
    case Binary(left, _, right) => ExprResolved(ExprResolved(st, left), right)
    case Logical(left, _, right) => ExprResolved(ExprResolved(st, left), right)
    case Variable(id, name) =>
      var checked :=
        if InInitializer(st.scopes, name.lexeme)
        then st.(errors := st.errors + [ResolveError(name, OwnInitializerMessage)])
        else st;
      LocalResolved(checked, id, name.lexeme)
    case Assign(id, name, value) => LocalResolved(ExprResolved(st, value), id, name.lexeme)
    case Call(callee, _, arguments) => ExprsResolved(ExprResolved(st, callee), arguments)
  }

  /** The call arguments, resolved left to right. */
  function ExprsResolved(st: ResolverState, es: seq<Expr>): (r: ResolverState)
    ensures r.scopes == st.scopes
    decreases es
  {
    if |es| == 0 then st else ExprResolved(ExprsResolved(st, es[..|es| - 1]), es[|es| - 1])
  }

  /** The `visit_*Stmt` methods. */
  function StmtResolved(st: ResolverState, s: Stmt): (r: ResolverState)
    ensures |r.scopes| == |st.scopes|
    decreases s
  {
    match s
    case Expression(e) => ExprResolved(st, e)
    case Print(e) => ExprResolved(st, e)
    case Var(name, init) =>
      var declared := Marked(st, name.lexeme, false);
      var initialized := match init case None => declared case Some(e) => ExprResolved(declared, e);
      Marked(initialized, name.lexeme, true)
    case Block(ss) => Popped(StmtsResolved(Pushed(st), ss))
    case If(c, t, e) =>
      var afterThen := StmtResolved(ExprResolved(st, c), t);
      (match e case None => afterThen case Some(x) => StmtResolved(afterThen, x))
    case While(c, body) => StmtResolved(ExprResolved(st, c), body)
    case Function(f) =>
      FunctionResolved(Marked(Marked(st, f.name.lexeme, false), f.name.lexeme, true), f)
    case Return(_, value) => (match value case None => st case Some(e) => ExprResolved(st, e))
  }

  /** `resolve(statements)`: the statements in order. */
  function StmtsResolved(st: ResolverState, ss: seq<Stmt>): (r: ResolverState)
    ensures |r.scopes| == |st.scopes|
    decreases ss
  {
    if |ss| == 0 then st else StmtResolved(StmtsResolved(st, ss[..|ss| - 1]), ss[|ss| - 1])
  }

  /** Each parameter declared and then defined, in order. */
  function ParamsBound(st: ResolverState, params: seq<Token>): (r: ResolverState)
    ensures |r.scopes| == |st.scopes|
    decreases |params|
  {
    if |params| == 0 then st
    else
      var p := params[|params| - 1].lexeme;
      Marked(Marked(ParamsBound(st, params[..|params| - 1]), p, false), p, true)
  }

  lemma ParamsBoundStep(st: ResolverState, params: seq<Token>, i: nat)
    requires i < |params|
    ensures ParamsBound(st, params[..i + 1])
         == Marked(Marked(ParamsBound(st, params[..i]), params[i].lexeme, false), params[i].lexeme, true)
  {
    assert params[..i + 1][..i] == params[..i];
  }

  /** `resolve_function`: the body in a fresh scope holding the parameters. */
  function FunctionResolved(st: ResolverState, f: FunctionDecl): (r: ResolverState)
    ensures |r.scopes| == |st.scopes|
    decreases f
  {
    Popped(StmtResolved(ParamsBound(Pushed(st), f.params), f.body))
  }

  /*
   * The shape of the scope stack: apart from the innermost scope nothing
   * changes, and the innermost scope only gains names bound to true.
   */

  function Ready(m: Scope, names: set<string>): Scope
  {
    map k | k in m.Keys + names :: if k in names then true else m[k]
  }

  /** The stack after the names are bound to true in the innermost scope (none when there is no scope). */
  function Declaring(scopes: seq<Scope>, names: set<string>): seq<Scope>
  {
    if |scopes| == 0 then [] else scopes[..|scopes| - 1] + [Ready(scopes[|scopes| - 1], names)]
  }

  lemma DeclaringNothing(scopes: seq<Scope>)
    ensures Declaring(scopes, {}) == scopes
  {
    if |scopes| > 0 {
      var last := scopes[|scopes| - 1];
      assert Ready(last, {}) == last;
    }
  }

  lemma DeclaringTwice(scopes: seq<Scope>, a: set<string>, b: set<string>)
    ensures Declaring(Declaring(scopes, a), b) == Declaring(scopes, a + b)
  {
    if |scopes| > 0 {
      var last := scopes[|scopes| - 1];
      assert Ready(Ready(last, a), b) == Ready(last, a + b);
    }
  }

  /** Declaring then defining a name leaves it bound to true. */
  lemma DeclareDefine(st: ResolverState, name: string)
    ensures Marked(Marked(st, name, false), name, true).scopes == Declaring(st.scopes, {name})
  {
    if |st.scopes| > 0 {
      var last := st.scopes[|st.scopes| - 1];
      assert last[name := false][name := true] == Ready(last, {name});
    }
  }

  /** The parameter names of a declaration. */
  function ParamNames(params: seq<Token>): set<string>
    decreases |params|
  {
    if |params| == 0 then {} else ParamNames(params[..|params| - 1]) + {params[|params| - 1].lexeme}
  }

  lemma {:induction false} ParamNamesContains(params: seq<Token>, i: nat)
    requires i < |params|
    ensures params[i].lexeme in ParamNames(params)
    decreases |params|
  {
    if i < |params| - 1 {
      ParamNamesContains(params[..|params| - 1], i);
    }
  }

  /** Binding the parameters leaves each of them ready in the innermost scope, and records nothing. */
  lemma {:induction false} ParamsBoundDeclares(st: ResolverState, params: seq<Token>)
    ensures ParamsBound(st, params) == st.(scopes := Declaring(st.scopes, ParamNames(params)))
    decreases |params|
  {
    if |params| == 0 {
      DeclaringNothing(st.scopes);
    } else {
      var init := params[..|params| - 1];
      var p := params[|params| - 1].lexeme;
      var prev := ParamsBound(st, init);
      ParamsBoundDeclares(st, init);
      DeclareDefine(prev, p);
      DeclaringTwice(st.scopes, ParamNames(init), {p});
    }
  }

  /**
   * Resolving a statement leaves the scope stack as it was, except that the
   * innermost scope gains the names the statement declares, bound to true:
   * blocks and function bodies pop exactly the scope they push, and on an
   * empty stack (global code) nothing is ever declared.
   */
  lemma {:induction false} StmtScopes(st: ResolverState, s: Stmt)
    ensures StmtResolved(st, s).scopes == Declaring(st.scopes, Declared(s))
    decreases s
  {
    match s
    case Expression(e) => DeclaringNothing(st.scopes);
    case Print(e) => DeclaringNothing(st.scopes);
    case Var(name, init) =>
      var declared := Marked(st, name.lexeme, false);
      var initialized := match init case None => declared case Some(e) => ExprResolved(declared, e);
      assert initialized.scopes == declared.scopes;
      DeclareDefine(st, name.lexeme);
    case Block(ss) =>
      StmtsScopes(Pushed(st), ss);
      DeclaringNothing(st.scopes);
    case If(c, t, e) =>
      var afterCond := ExprResolved(st, c);
      var afterThen := StmtResolved(afterCond, t);
      StmtScopes(afterCond, t);
      match e {
        case None =>
          assert Declared(s) == Declared(t) + {};
          DeclaringNothing(Declaring(st.scopes, Declared(t)));
          DeclaringTwice(st.scopes, Declared(t), {});
        case Some(x) =>
          StmtScopes(afterThen, x);
          DeclaringTwice(st.scopes, Declared(t), Declared(x));
      }
    case While(c, body) => StmtScopes(ExprResolved(st, c), body);
    case Function(f) =>
      var named := Marked(Marked(st, f.name.lexeme, false), f.name.lexeme, true);
      DeclareDefine(st, f.name.lexeme);
      FunctionScopes(named, f);
    case Return(_, value) => DeclaringNothing(st.scopes);
  }

  /** A statement list declares the union of what its statements declare. */
  lemma {:induction false} StmtsScopes(st: ResolverState, ss: seq<Stmt>)
    ensures StmtsResolved(st, ss).scopes == Declaring(st.scopes, ListDeclared(ss))
    decreases ss
  {
    if |ss| == 0 {
      DeclaringNothing(st.scopes);
    } else {
      var init := ss[..|ss| - 1];
      StmtsScopes(st, init);
      StmtScopes(StmtsResolved(st, init), ss[|ss| - 1]);
      DeclaringTwice(st.scopes, ListDeclared(init), Declared(ss[|ss| - 1]));
    }
  }

  /** A function body's scope, parameters included, is gone once the function is resolved. */
  lemma {:induction false} FunctionScopes(st: ResolverState, f: FunctionDecl)
    ensures FunctionResolved(st, f).scopes == st.scopes
    decreases f
  {
    var bound := ParamsBound(Pushed(st), f.params);
    ParamsBoundDeclares(Pushed(st), f.params);
    StmtScopes(bound, f.body);
    assert Pushed(st).scopes[..|st.scopes|] == st.scopes;
  }

  /** Resolving a block, at any depth, leaves the scope stack exactly as it found it. */
  lemma BlockBalanced(st: ResolverState, ss: seq<Stmt>)
    ensures StmtResolved(st, Block(ss)).scopes == st.scopes
  {
    StmtScopes(st, Block(ss));
    DeclaringNothing(st.scopes);
  }

  /*
   * What resolution adds: table entries only for the ids of variable reads and
   * assignments (no entry is ever removed), and diagnostics only about a read
   * in its own initializer.
   */

  ghost predicate RecordsOnly(before: ResolverState, after: ResolverState, ids: set<nat>)
  {
    && (forall k :: k in after.locals ==> k in ids || (k in before.locals && after.locals[k] == before.locals[k]))
    && before.locals.Keys <= after.locals.Keys
    && |before.errors| <= |after.errors|
    && after.errors[..|before.errors|] == before.errors
    && (forall i :: |before.errors| <= i < |after.errors| ==> after.errors[i].message == OwnInitializerMessage)
  }

  lemma RecordsOnlyChain(a: ResolverState, b: ResolverState, c: ResolverState, i: set<nat>, j: set<nat>)
    requires RecordsOnly(a, b, i) && RecordsOnly(b, c, j)
    ensures RecordsOnly(a, c, i + j)
  {
    assert c.errors[..|b.errors|][..|a.errors|] == c.errors[..|a.errors|];
  }

  lemma {:induction false} ExprRecordsOnly(st: ResolverState, e: Expr)
    ensures RecordsOnly(st, ExprResolved(st, e), RefIds(e))
    decreases e
  {
    match e
    case Literal(_) =>
    case Group(inner) => ExprRecordsOnly(st, inner);
    case Unary(_, right) => ExprRecordsOnly(st, right);
    case Binary(left, _, right) =>
      ExprRecordsOnly(st, left);
      ExprRecordsOnly(ExprResolved(st, left), right);
      RecordsOnlyChain(st, ExprResolved(st, left), ExprResolved(ExprResolved(st, left), right), RefIds(left), RefIds(right));
    case Logical(left, _, right) =>
      ExprRecordsOnly(st, left);
      ExprRecordsOnly(ExprResolved(st, left), right);
      RecordsOnlyChain(st, ExprResolved(st, left), ExprResolved(ExprResolved(st, left), right), RefIds(left), RefIds(right));
    case Variable(id, name) =>
    case Assign(id, name, value) =>
      ExprRecordsOnly(st, value);
      var v := ExprResolved(st, value);
      RecordsOnlyChain(st, v, LocalResolved(v, id, name.lexeme), RefIds(value), {id});
    case Call(callee, _, arguments) =>
      ExprRecordsOnly(st, callee);
      ExprsRecordsOnly(ExprResolved(st, callee), arguments);
      RecordsOnlyChain(st, ExprResolved(st, callee), ExprsResolved(ExprResolved(st, callee), arguments),
        RefIds(callee), ListRefIds(arguments));
  }

  lemma {:induction false} ExprsRecordsOnly(st: ResolverState, es: seq<Expr>)
    ensures RecordsOnly(st, ExprsResolved(st, es), ListRefIds(es))
    decreases es
  {
    if |es| > 0 {
      var init := es[..|es| - 1];
      ExprsRecordsOnly(st, init);
      ExprRecordsOnly(ExprsResolved(st, init), es[|es| - 1]);
      RecordsOnlyChain(st, ExprsResolved(st, init), ExprsResolved(st, es), ListRefIds(init), RefIds(es[|es| - 1]));
    }
  }

  lemma OptionRecordsOnly(st: ResolverState, e: Option<Expr>)
    ensures RecordsOnly(st, match e case None => st case Some(x) => ExprResolved(st, x), OptionRefIds(e))
  {
    if e.Some? {
      ExprRecordsOnly(st, e.value);
    }
  }

  /**
   * Resolving a statement records distances only for the variable reads and
   * assignments inside it, leaves every other table entry alone, and only
   * appends "read in its own initializer" diagnostics.
   */
  lemma {:induction false} StmtRecordsOnly(st: ResolverState, s: Stmt)
    ensures RecordsOnly(st, StmtResolved(st, s), StmtRefIds(s))
    decreases s
  {
    match s
    case Expression(e) => ExprRecordsOnly(st, e);
    case Print(e) => ExprRecordsOnly(st, e);
    case Var(name, init) =>
      var declared := Marked(st, name.lexeme, false);
      OptionRecordsOnly(declared, init);
    case Block(ss) => StmtsRecordsOnly(Pushed(st), ss);
    case If(c, t, e) =>
      var afterCond := ExprResolved(st, c);
      var afterThen := StmtResolved(afterCond, t);
      ExprRecordsOnly(st, c);
      StmtRecordsOnly(afterCond, t);
      RecordsOnlyChain(st, afterCond, afterThen, RefIds(c), StmtRefIds(t));
      match e {
        case None =>
        case Some(x) =>
          StmtRecordsOnly(afterThen, x);
          RecordsOnlyChain(st, afterThen, StmtResolved(afterThen, x), RefIds(c) + StmtRefIds(t), StmtRefIds(x));
      }
    case While(c, body) =>
      ExprRecordsOnly(st, c);
      StmtRecordsOnly(ExprResolved(st, c), body);
      RecordsOnlyChain(st, ExprResolved(st, c), StmtResolved(ExprResolved(st, c), body), RefIds(c), StmtRefIds(body));
    case Function(f) =>
      var named := Marked(Marked(st, f.name.lexeme, false), f.name.lexeme, true);
      FunctionRecordsOnly(named, f);
    case Return(_, value) => OptionRecordsOnly(st, value);
  }

  lemma {:induction false} StmtsRecordsOnly(st: ResolverState, ss: seq<Stmt>)
    ensures RecordsOnly(st, StmtsResolved(st, ss), StmtsRefIds(ss))
    decreases ss
  {
    if |ss| > 0 {
      var init := ss[..|ss| - 1];
      StmtsRecordsOnly(st, init);
      StmtRecordsOnly(StmtsResolved(st, init), ss[|ss| - 1]);
      RecordsOnlyChain(st, StmtsResolved(st, init), StmtsResolved(st, ss), StmtsRefIds(init), StmtRefIds(ss[|ss| - 1]));
    }
  }

  lemma {:induction false} FunctionRecordsOnly(st: ResolverState, f: FunctionDecl)
    ensures RecordsOnly(st, FunctionResolved(st, f), StmtRefIds(f.body))
    decreases f
  {
    var bound := ParamsBound(Pushed(st), f.params);
    ParamsBoundDeclares(Pushed(st), f.params);
    StmtRecordsOnly(bound, f.body);
  }

  /** At global level (an empty scope stack) resolving an expression records nothing and reports nothing. */
  lemma {:induction false} GlobalExprUnrecorded(st: ResolverState, e: Expr)
    requires st.scopes == []
    ensures ExprResolved(st, e) == st
    decreases e
  {
    match e
    case Literal(_) =>
    case Group(inner) => GlobalExprUnrecorded(st, inner);
    case Unary(_, right) => GlobalExprUnrecorded(st, right);
    case Binary(left, _, right) => GlobalExprUnrecorded(st, left); GlobalExprUnrecorded(st, right);
    case Logical(left, _, right) => GlobalExprUnrecorded(st, left); GlobalExprUnrecorded(st, right);
    case Variable(_, _) =>
    case Assign(_, _, value) => GlobalExprUnrecorded(st, value);
    case Call(callee, _, arguments) =>
      GlobalExprUnrecorded(st, callee);
      GlobalExprsUnrecorded(st, arguments);
  }

  lemma {:induction false} GlobalExprsUnrecorded(st: ResolverState, es: seq<Expr>)
    requires st.scopes == []
    ensures ExprsResolved(st, es) == st
    decreases es
  {
    if |es| > 0 {
      GlobalExprsUnrecorded(st, es[..|es| - 1]);
      GlobalExprUnrecorded(st, es[|es| - 1]);
    }
  }

  /**
   * A variable read reports "read in its own initializer" exactly when the
   * innermost scope holds the name as not yet ready, and its distance is
   * recorded exactly when some scope holds the name.
   */
  lemma VariableRead(st: ResolverState, id: nat, name: Token)
    ensures var r := ExprResolved(st, Variable(id, name));
      && (r.errors == st.errors + [ResolveError(name, OwnInitializerMessage)] <==> InInitializer(st.scopes, name.lexeme))
      && (!InInitializer(st.scopes, name.lexeme) ==> r.errors == st.errors)
      && (Distance(st.scopes, name.lexeme).Some? ==> r.locals == st.locals[id := Distance(st.scopes, name.lexeme).value])
      && (Distance(st.scopes, name.lexeme).None? ==> r.locals == st.locals)
  {
    var r := ExprResolved(st, Variable(id, name));
    if !InInitializer(st.scopes, name.lexeme) {
      assert r.errors == st.errors;
      assert |r.errors| != |st.errors + [ResolveError(name, OwnInitializerMessage)]|;
    }
  }

  /**
   * An assignment resolves its value first and then its target: the target's
   * distance is the one recorded for the node, and the target is never
   * checked for a read in its own initializer.
   */
  lemma AssignTarget(st: ResolverState, id: nat, name: Token, value: Expr)
    ensures var v := ExprResolved(st, value);
      var r := ExprResolved(st, Assign(id, name, value));
      && r.errors == v.errors
      && (Distance(st.scopes, name.lexeme).Some? ==> id in r.locals && r.locals[id] == Distance(st.scopes, name.lexeme).value)
      && (Distance(st.scopes, name.lexeme).None? ==> r.locals == v.locals)
  {
    var v := ExprResolved(st, value);
    assert ExprResolved(st, Assign(id, name, value)) == LocalResolved(v, id, name.lexeme);
    assert v.scopes == st.scopes;
  }

  /**
   * `var a = a;` inside a block: the initializer's read of `a` is reported,
   * it still resolves to the innermost scope, and `a` is ready afterwards.
   */
  lemma VarReadInOwnInitializer(st: ResolverState, name: Token, id: nat, read: Token)
    requires |st.scopes| > 0 && read.lexeme == name.lexeme
    ensures var r := StmtResolved(st, Stmt.Var(name, Some(Variable(id, read))));
      && r.errors == st.errors + [ResolveError(read, OwnInitializerMessage)]
      && r.locals == st.locals[id := 0]
      && r.scopes[|r.scopes| - 1][name.lexeme]
  {
    var n := |st.scopes|;
    var declared := Marked(st, name.lexeme, false);
    assert declared.scopes[n - 1] == st.scopes[n - 1][name.lexeme := false];
    assert InInitializer(declared.scopes, read.lexeme);
    assert Distance(declared.scopes, read.lexeme) == Some(0);
  }

  /*
   * What expression resolution is sure to add: the distance of every
   * reference whose name some scope holds, and a diagnostic for every read of
   * a name whose declaration is unfinished.
   */

  /** Each reference in `refs` whose name some scope holds has that scope's distance in `locals`. */
  ghost predicate Recorded(scopes: seq<Scope>, refs: set<(nat, string)>, locals: map<nat, nat>)
  {
    forall p :: p in refs && Distance(scopes, p.1).Some? ==>
      p.0 in locals && locals[p.0] == Distance(scopes, p.1).value
  }

  /** Entries recorded for some ids survive a step that writes only other ids. */
  lemma RecordedKept(scopes: seq<Scope>, refs: set<(nat, string)>, ids: set<nat>,
                     before: ResolverState, after: ResolverState, written: set<nat>)
    requires Recorded(scopes, refs, before.locals)
    requires (forall p :: p in refs ==> p.0 in ids) && ids !! written
    requires RecordsOnly(before, after, written)
    ensures Recorded(scopes, refs, after.locals)
  {
    forall p | p in refs && Distance(scopes, p.1).Some?
      ensures p.0 in after.locals && after.locals[p.0] == Distance(scopes, p.1).value
    {
      assert p.0 in before.locals && p.0 !in written;
    }
  }

  /**
   * Resolving an expression whose reference ids are distinct records, for
   * every variable read and assignment whose name some scope holds, the
   * distance of the nearest such scope.
   */
  lemma {:induction false} ExprRecordsAll(st: ResolverState, e: Expr)
    requires DistinctIds(e)
    ensures Recorded(st.scopes, Refs(e), ExprResolved(st, e).locals)
    decreases e
  {
    match e
    case Literal(_) =>
    case Group(inner) => ExprRecordsAll(st, inner);
    case Unary(_, right) => ExprRecordsAll(st, right);
    case Binary(left, _, right) =>
      var l := ExprResolved(st, left);
      ExprRecordsAll(st, left);
      ExprRecordsAll(l, right);
      ExprRecordsOnly(l, right);
      RefsHaveIds(left);
      RecordedKept(st.scopes, Refs(left), RefIds(left), l, ExprResolved(l, right), RefIds(right));
    case Logical(left, _, right) =>
      var l := ExprResolved(st, left);
      ExprRecordsAll(st, left);
      ExprRecordsAll(l, right);
      ExprRecordsOnly(l, right);
      RefsHaveIds(left);
      RecordedKept(st.scopes, Refs(left), RefIds(left), l, ExprResolved(l, right), RefIds(right));
    case Variable(_, _) =>
    case Assign(id, name, value) =>
      var v := ExprResolved(st, value);
      ExprRecordsAll(st, value);
      RefsHaveIds(value);
      RecordedKept(st.scopes, Refs(value), RefIds(value), v, LocalResolved(v, id, name.lexeme), {id});
    case Call(callee, _, arguments) =>
      var c := ExprResolved(st, callee);
      ExprRecordsAll(st, callee);
      ExprsRecordsAll(c, arguments);
      ExprsRecordsOnly(c, arguments);
      RefsHaveIds(callee);
      RecordedKept(st.scopes, Refs(callee), RefIds(callee), c, ExprsResolved(c, arguments), ListRefIds(arguments));
  }

  lemma {:induction false} ExprsRecordsAll(st: ResolverState, es: seq<Expr>)
    requires ListDistinctIds(es)
    ensures Recorded(st.scopes, ListRefs(es), ExprsResolved(st, es).locals)
    decreases es
  {
    if |es| > 0 {
      var init := es[..|es| - 1];
      var i := ExprsResolved(st, init);
      ExprsRecordsAll(st, init);
      ExprRecordsAll(i, es[|es| - 1]);
      ExprRecordsOnly(i, es[|es| - 1]);
      ListRefsHaveIds(init);
      RecordedKept(st.scopes, ListRefs(init), ListRefIds(init), i, ExprsResolved(st, es), RefIds(es[|es| - 1]));
    }
  }

  /**
   * The own-initializer diagnostics for `tokens`, in order: one for each read
   * whose name is declared but unfinished in the innermost scope.
   */
  function OwnReadErrors(scopes: seq<Scope>, tokens: seq<Token>): seq<ResolveError>
    decreases |tokens|
  {
    if |tokens| == 0 then []
    else
      var last := tokens[|tokens| - 1];
      OwnReadErrors(scopes, tokens[..|tokens| - 1])
        + if InInitializer(scopes, last.lexeme) then [ResolveError(last, OwnInitializerMessage)] else []
  }

  lemma {:induction false} OwnReadErrorsAppend(scopes: seq<Scope>, a: seq<Token>, b: seq<Token>)
    ensures OwnReadErrors(scopes, a + b) == OwnReadErrors(scopes, a) + OwnReadErrors(scopes, b)
    decreases |b|
  {
    if |b| == 0 {
      assert a + b == a;
    } else {
      var b' := b[..|b| - 1];
      assert (a + b)[..|a + b| - 1] == a + b';
      OwnReadErrorsAppend(scopes, a, b');
    }
  }

  /** Resolving `a` and then `b` appends the diagnostics of `a + b`. */
  lemma OwnReadErrorsThen(scopes: seq<Scope>, a: seq<Token>, b: seq<Token>,
                          before: seq<ResolveError>, mid: seq<ResolveError>, after: seq<ResolveError>)
    requires mid == before + OwnReadErrors(scopes, a) && after == mid + OwnReadErrors(scopes, b)
    ensures after == before + OwnReadErrors(scopes, a + b)
  {
    OwnReadErrorsAppend(scopes, a, b);
  }

  /**
   * From `before` to `after`, every read in `tokens` of a name whose
   * declaration is unfinished was reported, and nothing else was appended.
   */
  ghost predicate OwnReadsReported(scopes: seq<Scope>, tokens: seq<Token>, before: seq<ResolveError>, after: seq<ResolveError>)
  {
    && |before| <= |after| && after[..|before|] == before
    && (forall t :: t in tokens && InInitializer(scopes, t.lexeme) ==>
          ResolveError(t, OwnInitializerMessage) in after[|before|..])
    && (forall i :: |before| <= i < |after| ==>
          after[i].token in tokens && InInitializer(scopes, after[i].token.lexeme)
          && after[i].message == OwnInitializerMessage)
  }

  /** `OwnReadErrors` holds a diagnostic for every unfinished read in `tokens`, and no other. */
  lemma {:induction false} OwnReadErrorsMembers(scopes: seq<Scope>, tokens: seq<Token>)
    ensures forall t :: t in tokens && InInitializer(scopes, t.lexeme) ==>
      ResolveError(t, OwnInitializerMessage) in OwnReadErrors(scopes, tokens)
    ensures forall x :: x in OwnReadErrors(scopes, tokens) ==>
      x.token in tokens && InInitializer(scopes, x.token.lexeme) && x.message == OwnInitializerMessage
    decreases |tokens|
  {
    if |tokens| > 0 {
      var init := tokens[..|tokens| - 1];
      OwnReadErrorsMembers(scopes, init);
      assert tokens == init + [tokens[|tokens| - 1]];
    }
  }

  /** Appending `OwnReadErrors` reports every unfinished read and nothing else. */
  lemma OwnReadErrorsReported(scopes: seq<Scope>, tokens: seq<Token>, before: seq<ResolveError>)
    ensures OwnReadsReported(scopes, tokens, before, before + OwnReadErrors(scopes, tokens))
  {
    var errs := OwnReadErrors(scopes, tokens);
    var after := before + errs;
    OwnReadErrorsMembers(scopes, tokens);
    assert after[..|before|] == before;
    assert after[|before|..] == errs;
    forall i | |before| <= i < |after|
      ensures after[i].token in tokens && InInitializer(scopes, after[i].token.lexeme)
      ensures after[i].message == OwnInitializerMessage
    {
      assert after[i] == errs[i - |before|];
    }
  }

  /** The diagnostics an expression appends, by induction over it. */
  lemma {:induction false} ExprOwnReadErrors(st: ResolverState, e: Expr)
    ensures ExprResolved(st, e).errors == st.errors + OwnReadErrors(st.scopes, Reads(e))
    decreases e
  {
    match e
    case Literal(_) =>
      assert st.errors + [] == st.errors;
    case Group(inner) => ExprOwnReadErrors(st, inner);
    case Unary(_, right) => ExprOwnReadErrors(st, right);
    case Binary(left, _, right) =>
      var l := ExprResolved(st, left);
      ExprOwnReadErrors(st, left);
      ExprOwnReadErrors(l, right);
      OwnReadErrorsThen(st.scopes, Reads(left), Reads(right), st.errors, l.errors, ExprResolved(l, right).errors);
    case Logical(left, _, right) =>
      var l := ExprResolved(st, left);
      ExprOwnReadErrors(st, left);
      ExprOwnReadErrors(l, right);
      OwnReadErrorsThen(st.scopes, Reads(left), Reads(right), st.errors, l.errors, ExprResolved(l, right).errors);
    case Variable(id, name) =>
      VariableRead(st, id, name);
      assert [name][..0] == [];
    case Assign(_, _, value) => ExprOwnReadErrors(st, value);
    case Call(callee, _, arguments) =>
      var c := ExprResolved(st, callee);
      ExprOwnReadErrors(st, callee);
      ExprsOwnReadErrors(c, arguments);
      OwnReadErrorsThen(st.scopes, Reads(callee), ListReads(arguments), st.errors, c.errors, ExprsResolved(c, arguments).errors);
  }

  lemma {:induction false} ExprsOwnReadErrors(st: ResolverState, es: seq<Expr>)
    ensures ExprsResolved(st, es).errors == st.errors + OwnReadErrors(st.scopes, ListReads(es))
    decreases es
  {
    if |es| == 0 {
      assert st.errors + [] == st.errors;
    } else {
      var init := es[..|es| - 1];
      var i := ExprsResolved(st, init);
      ExprsOwnReadErrors(st, init);
      ExprOwnReadErrors(i, es[|es| - 1]);
      OwnReadErrorsThen(st.scopes, ListReads(init), Reads(es[|es| - 1]), st.errors, i.errors, ExprsResolved(st, es).errors);
    }
  }

  /**
   * Resolving an expression appends "Can't read local variable in its own
   * initializer." once for each read, in visit order, whose name is declared
   * but unfinished in the innermost scope, and appends nothing else.
   */
  lemma ExprOwnReads(st: ResolverState, e: Expr)
    ensures ExprResolved(st, e).errors == st.errors + OwnReadErrors(st.scopes, Reads(e))
    ensures OwnReadsReported(st.scopes, Reads(e), st.errors, ExprResolved(st, e).errors)
  {
    ExprOwnReadErrors(st, e);
    OwnReadErrorsReported(st.scopes, Reads(e), st.errors);
  }

  /** The same for call arguments, left to right. */
  lemma ExprsOwnReads(st: ResolverState, es: seq<Expr>)
    ensures ExprsResolved(st, es).errors == st.errors + OwnReadErrors(st.scopes, ListReads(es))
    ensures OwnReadsReported(st.scopes, ListReads(es), st.errors, ExprsResolved(st, es).errors)
  {
    ExprsOwnReadErrors(st, es);
    OwnReadErrorsReported(st.scopes, ListReads(es), st.errors);
  }

  /** `a + a` read in `a`'s own initializer is reported twice, once per read. */
  lemma OwnReadsCountEachVisit(st: ResolverState, a: Token, op: Token, id1: nat, id2: nat)
    requires st.scopes == [map[a.lexeme := false]]
    ensures var r := ExprResolved(st, Binary(Variable(id1, a), op, Variable(id2, a)));
      r.errors == st.errors + [ResolveError(a, OwnInitializerMessage), ResolveError(a, OwnInitializerMessage)]
  {
    var e := Binary(Variable(id1, a), op, Variable(id2, a));
    ExprOwnReadErrors(st, e);
    assert InInitializer(st.scopes, a.lexeme);
    assert [a][..0] == [];
    assert OwnReadErrors(st.scopes, [a]) == [ResolveError(a, OwnInitializerMessage)];
    OwnReadErrorsAppend(st.scopes, [a], [a]);
  }

  /**
   * `var a = <init>;` inside a block: every read of `a` anywhere in the
   * initializer is reported and resolves to the innermost scope, no read of
   * another name is reported unless it is itself unfinished there, and `a`
   * is ready afterwards.
   */
  lemma OwnInitializerReads(st: ResolverState, name: Token, init: Expr)
    requires |st.scopes| > 0
    ensures var r := StmtResolved(st, Stmt.Var(name, Some(init)));
      && |st.errors| <= |r.errors| && r.errors[..|st.errors|] == st.errors
      && r.errors == st.errors + OwnReadErrors(Marked(st, name.lexeme, false).scopes, Reads(init))
      && (forall t :: t in Reads(init) && t.lexeme == name.lexeme ==>
            ResolveError(t, OwnInitializerMessage) in r.errors[|st.errors|..])
      && (forall i :: |st.errors| <= i < |r.errors| ==>
            r.errors[i].token in Reads(init)
            && (r.errors[i].token.lexeme == name.lexeme || InInitializer(st.scopes, r.errors[i].token.lexeme)))
      && (DistinctIds(init) ==> forall id :: (id, name.lexeme) in Refs(init) ==> id in r.locals && r.locals[id] == 0)
      && r.scopes[|r.scopes| - 1][name.lexeme]
  {
    var n := |st.scopes|;
    var declared := Marked(st, name.lexeme, false);
    assert declared.scopes[n - 1] == st.scopes[n - 1][name.lexeme := false];
    assert InInitializer(declared.scopes, name.lexeme);
    assert Distance(declared.scopes, name.lexeme) == Some(0);
    ExprOwnReads(declared, init);
    if DistinctIds(init) {
      ExprRecordsAll(declared, init);
    }
    forall i | |st.errors| <= i < |StmtResolved(st, Stmt.Var(name, Some(init))).errors|
      ensures InInitializer(declared.scopes, StmtResolved(st, Stmt.Var(name, Some(init))).errors[i].token.lexeme) ==>
        (StmtResolved(st, Stmt.Var(name, Some(init))).errors[i].token.lexeme == name.lexeme
         || InInitializer(st.scopes, StmtResolved(st, Stmt.Var(name, Some(init))).errors[i].token.lexeme))
    {
    }
  }

  /** A parameter read directly in a function body resolves to the function's own scope. */
  lemma ParameterRead(st: ResolverState, f: FunctionDecl, id: nat, read: Token)
    requires exists i :: 0 <= i < |f.params| && f.params[i].lexeme == read.lexeme
    requires f.body == Expression(Variable(id, read))
    ensures var r := FunctionResolved(st, f);
      && r.locals == st.locals[id := 0]
      && r.errors == st.errors
      && r.scopes == st.scopes
  {
    var names := ParamNames(f.params);
    var k :| 0 <= k < |f.params| && f.params[k].lexeme == read.lexeme;
    ParamNamesContains(f.params, k);
    var pushed := Pushed(st);
    var bound := ParamsBound(pushed, f.params);
    ParamsBoundDeclares(pushed, f.params);
    var n := |pushed.scopes|;
    assert bound.scopes == pushed.scopes[..n - 1] + [Ready(pushed.scopes[n - 1], names)];
    assert pushed.scopes[..n - 1] == st.scopes;
    ReadyHolds(pushed.scopes[n - 1], names, read.lexeme);
    assert Distance(bound.scopes, read.lexeme) == Some(0);
    assert !InInitializer(bound.scopes, read.lexeme);
    assert bound.locals == st.locals && bound.errors == st.errors;
    VariableRead(bound, id, read);
    var inner := ExprResolved(bound, Variable(id, read));
    assert inner.locals == st.locals[id := 0] && inner.errors == st.errors;
    assert FunctionResolved(st, f) == Popped(inner);
  }

  lemma {:induction false} ParamNamesOnly(params: seq<Token>, name: string)
    requires forall i :: 0 <= i < |params| ==> params[i].lexeme != name
    ensures name !in ParamNames(params)
    decreases |params|
  {
    if |params| > 0 {
      ParamNamesOnly(params[..|params| - 1], name);
    }
  }

  /**
   * A function declared in a block is declared and defined before its body is
   * resolved: a body that reads the function's own name (and no parameter of
   * that name) resolves it one scope out, with no diagnostic.
   */
  lemma FunctionReadsOwnName(st: ResolverState, f: FunctionDecl, id: nat, read: Token)
    requires |st.scopes| > 0
    requires forall i :: 0 <= i < |f.params| ==> f.params[i].lexeme != f.name.lexeme
    requires f.body == Expression(Variable(id, read)) && read.lexeme == f.name.lexeme
    ensures var r := StmtResolved(st, Function(f));
      && r.locals == st.locals[id := 1]
      && r.errors == st.errors
      && f.name.lexeme in r.scopes[|r.scopes| - 1] && r.scopes[|r.scopes| - 1][f.name.lexeme]
  {
    var name := f.name.lexeme;
    var n := |st.scopes|;
    var defined := Marked(Marked(st, name, false), name, true);
    DeclareDefine(st, name);
    ReadyHolds(st.scopes[n - 1], {name}, name);
    assert defined.scopes == st.scopes[..n - 1] + [Ready(st.scopes[n - 1], {name})];
    FunctionReadsOuterName(defined, f, id, read);
  }

  /** A body reading a name the enclosing scope holds as ready, and no parameter holds, resolves it one scope out. */
  lemma FunctionReadsOuterName(st: ResolverState, f: FunctionDecl, id: nat, read: Token)
    requires |st.scopes| > 0 && read.lexeme in st.scopes[|st.scopes| - 1]
    requires forall i :: 0 <= i < |f.params| ==> f.params[i].lexeme != read.lexeme
    requires f.body == Expression(Variable(id, read))
    ensures var r := FunctionResolved(st, f);
      && r.locals == st.locals[id := 1]
      && r.errors == st.errors
      && r.scopes == st.scopes
  {
    var n := |st.scopes|;
    var pushed := Pushed(st);
    var bound := ParamsBound(pushed, f.params);
    var names := ParamNames(f.params);
    ParamsBoundDeclares(pushed, f.params);
    ParamNamesOnly(f.params, read.lexeme);
    assert bound.scopes == st.scopes + [Ready(map[], names)] by {
      assert pushed.scopes[..n] == st.scopes;
    }
    assert read.lexeme !in Ready(map[], names);
    assert bound.scopes[..n] == st.scopes;
    assert Distance(bound.scopes, read.lexeme) == Some(1);
    assert !InInitializer(bound.scopes, read.lexeme);
    VariableRead(bound, id, read);
    var inner := ExprResolved(bound, Variable(id, read));
    assert FunctionResolved(st, f) == Popped(inner);
  }

  lemma ReadyHolds(m: Scope, names: set<string>, name: string)
    requires name in names
    ensures name in Ready(m, names) && Ready(m, names)[name]
  {
  }

  /**
   * The resolver object: the scope stack, the distance table it writes into
   * the interpreter (`Interpreter::resolve`, keyed by node id) and the
   * diagnostics it reports.
   */
  class Resolver {
    var scopes: seq<Scope>
    var locals: map<nat, nat>
    var errors: seq<ResolveError>

    function State(): ResolverState
      reads this
    {
      ResolverState(scopes, locals, errors)
    }

    constructor ()
      ensures State() == ResolverState([], map[], [])
    {
      scopes, locals, errors := [], map[], [];
    }

    method BeginScope()
      modifies this
      ensures State() == Pushed(old(State()))
    {
      scopes := scopes + [map[]];
    }

    method EndScope()
      requires |scopes| > 0
      modifies this
      ensures State() == Popped(old(State()))
    {
      scopes := scopes[..|scopes| - 1];
    }

    method Declare(name: Token)
      modifies this
      ensures State() == Marked(old(State()), name.lexeme, false)
    {
      if |scopes| == 0 {
        return;
      }
      scopes := scopes[..|scopes| - 1] + [scopes[|scopes| - 1][name.lexeme := false]];
    }

    method Define(name: Token)
      modifies this
      ensures State() == Marked(old(State()), name.lexeme, true)
    {
      if |scopes| == 0 {
        return;
      }
      scopes := scopes[..|scopes| - 1] + [scopes[|scopes| - 1][name.lexeme := true]];
    }

    /** Walks the stack from the innermost scope outwards and records the first hit. */
    method ResolveLocal(id: nat, name: Token)
      modifies this
      ensures State() == LocalResolved(old(State()), id, name.lexeme)
    {
      var i: int := |scopes| - 1;
      while i >= 0
        invariant -1 <= i < |scopes|
        invariant forall j :: i < j < |scopes| ==> name.lexeme !in scopes[j]
        invariant State() == old(State())
        decreases i
      {
        if name.lexeme in scopes[i] {
          locals := locals[id := |scopes| - 1 - i];
          return;
        }
        i := i - 1;
      }
    }

    method ResolveExpr(e: Expr)
      modifies this
      ensures State() == ExprResolved(old(State()), e)
      decreases e
    {
      match e
      case Literal(_) =>
      case Group(inner) =>
        ResolveExpr(inner);
      case Unary(_, right) =>
        ResolveExpr(right);
      case Binary(left, _, right) =>
        ResolveExpr(left);
        ResolveExpr(right);
      case Logical(left, _, right) =>
        ResolveExpr(left);
        ResolveExpr(right);
      case Variable(id, name) =>
        if |scopes| > 0 {
          var scope := scopes[|scopes| - 1];
          if name.lexeme in scope && !scope[name.lexeme] {
            errors := errors + [ResolveError(name, OwnInitializerMessage)];
          }
        }
        ResolveLocal(id, name);
      case Assign(id, name, value) =>
        ResolveExpr(value);
        ResolveLocal(id, name);
      case Call(callee, _, arguments) =>
        ResolveExpr(callee);
        ghost var start := State();
        var i := 0;
        while i < |arguments|
          invariant 0 <= i <= |arguments|
          invariant State() == ExprsResolved(start, arguments[..i])
        {
          assert arguments[i] in arguments;
          ResolveExpr(arguments[i]);
          assert arguments[..i + 1][..i] == arguments[..i];
          i := i + 1;
        }
        assert arguments[..|arguments|] == arguments;
    }

    method ResolveStmt(s: Stmt)
      modifies this
      ensures State() == StmtResolved(old(State()), s)
      decreases s
    {
      match s
      case Expression(e) =>
        ResolveExpr(e);
      case Print(e) =>
        ResolveExpr(e);
      case Var(name, init) =>
        ResolveVar(name, init);
      case Block(ss) =>
        ResolveBlock(ss);
      case If(c, t, e) =>
        ResolveIf(c, t, e);
      case While(c, body) =>
        ResolveExpr(c);
        ResolveStmt(body);
      case Function(f) =>
        ResolveFunctionStmt(f);
      case Return(_, value) =>
        if value.Some? {
          ResolveExpr(value.value);
        }
    }

    /** `visit_IfStmt`: the condition, the then branch, then the else branch if any. */
    method ResolveIf(c: Expr, t: Stmt, e: Option<Stmt>)
      modifies this
      ensures State() == StmtResolved(old(State()), Stmt.If(c, t, e))
      decreases Stmt.If(c, t, e), 0
    {
      ResolveExpr(c);
      ResolveStmt(t);
      if e.Some? {
        ResolveStmt(e.value);
      }
    }

    /** `visit_FunctionStmt`: the name is declared and defined before the body is resolved. */
    method ResolveFunctionStmt(f: FunctionDecl)
      modifies this
      ensures State() == StmtResolved(old(State()), Function(f))
      decreases Function(f), 0
    {
      Declare(f.name);
      Define(f.name);
      ResolveFunction(f);
    }

    /** `visit_BlockStmt`: the statements in a fresh scope. */
    method ResolveBlock(ss: seq<Stmt>)
      modifies this
      ensures State() == StmtResolved(old(State()), Block(ss))
      decreases Block(ss), 0
    {
      BeginScope();
      ResolveStmts(ss);
      EndScope();
    }

    /** `visit_VarStmt`: declare the name, resolve the initializer, then define the name. */
    method ResolveVar(name: Token, init: Option<Expr>)
      modifies this
      ensures State() == StmtResolved(old(State()), Stmt.Var(name, init))
    {
      Declare(name);
      if init.Some? {
        ResolveExpr(init.value);
      }
      Define(name);
    }

    /** `resolve(statements)`, the entry point: each statement in order. */
    method ResolveStmts(ss: seq<Stmt>)
      modifies this
      ensures State() == StmtsResolved(old(State()), ss)
      decreases ss
    {
      var i := 0;
      while i < |ss|
        invariant 0 <= i <= |ss|
        invariant State() == StmtsResolved(old(State()), ss[..i])
      {
        assert ss[i] in ss;
        ResolveStmt(ss[i]);
        assert ss[..i + 1][..i] == ss[..i];
        i := i + 1;
      }
      assert ss[..|ss|] == ss;
    }

    method ResolveFunction(f: FunctionDecl)
      modifies this
      ensures State() == FunctionResolved(old(State()), f)
      decreases f
    {
      BeginScope();
      BindParams(f.params);
      ResolveStmt(f.body);
      EndScope();
    }

    /** The parameter loop of `resolve_function`: declare and define each parameter in turn. */
    method BindParams(params: seq<Token>)
      modifies this
      ensures State() == ParamsBound(old(State()), params)
    {
      ghost var st := State();
      var i := 0;
      while i < |params|
        invariant 0 <= i <= |params|
        invariant State() == ParamsBound(st, params[..i])
      {
        ParamsBoundStep(st, params, i);
        Declare(params[i]);
        Define(params[i]);
        i := i + 1;
      }
      assert params[..|params|] == params;
    }
  }
}
