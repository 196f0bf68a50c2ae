/**
 * The syntax tree the resolver and the evaluator walk (headers/Expr.h,
 * headers/Statement.h). The C++ nodes are shared pointers whose address is
 * their identity; here the two node kinds the resolver records, variable reads
 * and assignments, carry an explicit `id` instead.
 */
module Ast {
  import opened Wrappers
  import opened Tokens

  /** The value held by a literal node: nil, a boolean, a number or a string. */
  datatype LiteralValue = LitNil | LitBool(b: bool) | LitNumber(n: real) | LitString(s: string)

  datatype Expr =
    | Literal(literal: LiteralValue)
    | Group(inner: Expr)
    | Unary(op: Token, right: Expr)
    | Binary(left: Expr, op: Token, right: Expr)
    | Logical(left: Expr, op: Token, right: Expr)
    | Variable(id: nat, name: Token)
    | Assign(id: nat, name: Token, value: Expr)
    | Call(callee: Expr, paren: Token, arguments: seq<Expr>)

  datatype Stmt =
    | Expression(expression: Expr)
    | Print(expression: Expr)
    | Var(name: Token, initializer: Option<Expr>)
    | Block(statements: seq<Stmt>)
    | If(condition: Expr, thenBranch: Stmt, elseBranch: Option<Stmt>)
    | While(condition: Expr, body: Stmt)
    | Function(declaration: FunctionDecl)
    | Return(keyword: Token, value: Option<Expr>)

  /** A `fun` declaration: its name, its parameters and its body statement. */
  datatype FunctionDecl = FunctionDecl(name: Token, params: seq<Token>, body: Stmt)

  /** The ids of the variable reads and assignments in `e`. */
  function RefIds(e: Expr): set<nat>
    decreases e
  {
    match e
    case Literal(_) => {}
    case Group(inner) => RefIds(inner)
    case Unary(_, right) => RefIds(right)
    case Binary(left, _, right) => RefIds(left) + RefIds(right)
    case Logical(left, _, right) => RefIds(left) + RefIds(right)
    case Variable(id, _) => {id}
    case Assign(id, _, value) => {id} + RefIds(value)
    case Call(callee, _, arguments) => RefIds(callee) + ListRefIds(arguments)
  }

  function ListRefIds(es: seq<Expr>): set<nat>
    decreases es
  {
    if |es| == 0 then {} else ListRefIds(es[..|es| - 1]) + RefIds(es[|es| - 1])
  }

  /** The variable reads and assignments in `e`, as (id, name) pairs. */
  function Refs(e: Expr): set<(nat, string)>
    decreases e
  {
    match e
    case Literal(_) => {}
    case Group(inner) => Refs(inner)
    case Unary(_, right) => Refs(right)
    case Binary(left, _, right) => Refs(left) + Refs(right)
    case Logical(left, _, right) => Refs(left) + Refs(right)
    case Variable(id, name) => {(id, name.lexeme)}
    case Assign(id, name, value) => {(id, name.lexeme)} + Refs(value)
    case Call(callee, _, arguments) => Refs(callee) + ListRefs(arguments)
  }

  function ListRefs(es: seq<Expr>): set<(nat, string)>
    decreases es
  {
    if |es| == 0 then {} else ListRefs(es[..|es| - 1]) + Refs(es[|es| - 1])
  }

  /**
   * The name tokens of the variable reads in `e`, in the order the resolver's
   * visitors reach them (assignment targets are not reads).
   */
  function Reads(e: Expr): seq<Token>
    decreases e
  {
    match e
    case Literal(_) => []
    case Group(inner) => Reads(inner)
    case Unary(_, right) => Reads(right)
    case Binary(left, _, right) => Reads(left) + Reads(right)
    case Logical(left, _, right) => Reads(left) + Reads(right)
    case Variable(_, name) => [name]
    case Assign(_, _, value) => Reads(value)
    case Call(callee, _, arguments) => Reads(callee) + ListReads(arguments)
  }

  function ListReads(es: seq<Expr>): seq<Token>
    decreases es
  {
    if |es| == 0 then [] else ListReads(es[..|es| - 1]) + Reads(es[|es| - 1])
  }

  /**
   * No two reference nodes of `e` share an id, as no two C++ nodes share an
   * address.
   */
  predicate DistinctIds(e: Expr)
    decreases e
  {
    match e
    case Literal(_) => true
    case Group(inner) => DistinctIds(inner)
    case Unary(_, right) => DistinctIds(right)
    case Binary(left, _, right) => DistinctIds(left) && DistinctIds(right) && RefIds(left) !! RefIds(right)
    case Logical(left, _, right) => DistinctIds(left) && DistinctIds(right) && RefIds(left) !! RefIds(right)
    case Variable(_, _) => true
    case Assign(id, _, value) => DistinctIds(value) && id !in RefIds(value)
    case Call(callee, _, arguments) =>
      DistinctIds(callee) && ListDistinctIds(arguments) && RefIds(callee) !! ListRefIds(arguments)
  }

  predicate ListDistinctIds(es: seq<Expr>)
    decreases es
  {
    |es| == 0 ||
    (ListDistinctIds(es[..|es| - 1]) && DistinctIds(es[|es| - 1])
     && ListRefIds(es[..|es| - 1]) !! RefIds(es[|es| - 1]))
  }

  /** Every reference pair carries one of the ids `RefIds` collects. */
  lemma {:induction false} RefsHaveIds(e: Expr)
    ensures forall p :: p in Refs(e) ==> p.0 in RefIds(e)
    decreases e
  {
    match e
    case Literal(_) =>
    case Group(inner) => RefsHaveIds(inner);
    case Unary(_, right) => RefsHaveIds(right);
    case Binary(left, _, right) => RefsHaveIds(left); RefsHaveIds(right);
    case Logical(left, _, right) => RefsHaveIds(left); RefsHaveIds(right);
    case Variable(_, _) =>
    case Assign(_, _, value) => RefsHaveIds(value);
    case Call(callee, _, arguments) => RefsHaveIds(callee); ListRefsHaveIds(arguments);
  }

  lemma {:induction false} ListRefsHaveIds(es: seq<Expr>)
    ensures forall p :: p in ListRefs(es) ==> p.0 in ListRefIds(es)
    decreases es
  {
    if |es| > 0 {
      ListRefsHaveIds(es[..|es| - 1]);
      RefsHaveIds(es[|es| - 1]);
    }
  }

  function OptionRefIds(e: Option<Expr>): set<nat>
  {
    match e
    case None => {}
    case Some(x) => RefIds(x)
  }

  /** The ids of the variable reads and assignments anywhere in `s`, function bodies included. */
  function StmtRefIds(s: Stmt): set<nat>
    decreases s
  {
    match s
    case Expression(e) => RefIds(e)
    case Print(e) => RefIds(e)
    case Var(_, init) => OptionRefIds(init)
    case Block(ss) => StmtsRefIds(ss)
    case If(c, t, e) =>
      RefIds(c) + StmtRefIds(t) + (match e case None => {} case Some(x) => StmtRefIds(x))
    case While(c, body) => RefIds(c) + StmtRefIds(body)
    case Function(f) => StmtRefIds(f.body)
    case Return(_, value) => OptionRefIds(value)
  }

  function StmtsRefIds(ss: seq<Stmt>): set<nat>
    decreases ss
  {
    if |ss| == 0 then {} else StmtsRefIds(ss[..|ss| - 1]) + StmtRefIds(ss[|ss| - 1])
  }

  /**
   * The names a statement binds in the scope it runs in: a `var` or `fun`
   * declaration, or one nested in an `if` or `while` without a block.
   */
  function Declared(s: Stmt): set<string>
    decreases s
  {
    match s
    case Var(name, _) => {name.lexeme}
    case Function(f) => {f.name.lexeme}
    case If(_, t, e) => Declared(t) + (match e case None => {} case Some(x) => Declared(x))
    case While(_, body) => Declared(body)
    case _ => {}
  }

  function ListDeclared(ss: seq<Stmt>): set<string>
  {
    if |ss| == 0 then {} else ListDeclared(ss[..|ss| - 1]) + Declared(ss[|ss| - 1])
  }
}
