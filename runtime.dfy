/**
 * Runtime values and the callable objects of LoxFunction.cpp, LoxClass.cpp and
 * LoxInstance.cpp. The C++ evaluator passes values around as `std::any`; here
 * they are one datatype. Instances are objects whose field map is updated in
 * place, so `LoxInstance` is a class.
 */
module Values {
  import opened Wrappers
  import Tokens
  import opened Ast

  datatype Value =
    | Nil
    | Bool(b: bool)
    | Num(n: real)
    | Str(s: string)
    | FunctionValue(fn: LoxFunction)
    | BoundMethod(fn: LoxFunction, receiver: LoxInstance)
    | ClassValue(cls: LoxClass)
    | InstanceValue(instance: LoxInstance)

  /** A thrown `RuntimeError`: the token it blames and its message. */
  datatype RuntimeError = RuntimeError(token: Tokens.Token, message: string)

  /** A callable built from a `fun` declaration. */
  datatype LoxFunction = LoxFunction(declaration: FunctionDecl)
  {
    /** `arity`: how many arguments a call binds, one per parameter. */
    function Arity(): (n: nat)
      ensures n == |declaration.params|
    {
      |declaration.params|
    }

    /** `to_string`. */
    function ToString(): string
    {
      "<fn " + declaration.name.lexeme + ">"
    }
  }

  /** The text of a function value names the function, and only that function. */
  lemma FunctionToString(f: LoxFunction, g: LoxFunction)
    ensures var s := f.ToString();
      && |s| == |f.declaration.name.lexeme| + 5
      && s[..4] == "<fn " && s[4..|s| - 1] == f.declaration.name.lexeme && s[|s| - 1] == '>'
    ensures f.ToString() == g.ToString() <==> f.declaration.name.lexeme == g.declaration.name.lexeme
  {
    var s, t := f.ToString(), g.ToString();
    if s == t {
      assert s[4..|s| - 1] == t[4..|t| - 1];
    }
  }

  /**
   * A class: its name, fixed at construction, and the method table that
   * `find_method` consults.
   */
  datatype LoxClass = LoxClass(name: string, methods: map<string, LoxFunction>)
  {
    /** `find_method`: the method of that name, if the class has one. */
    function FindMethod(name: string): (m: Option<LoxFunction>)
      ensures m.Some? <==> name in methods
      ensures m.Some? ==> m.value == methods[name]
    {
      if name in methods then Some(methods[name]) else None
    }

    /** `arity`: calling a class takes no arguments. */
    function Arity(): (n: nat)
      ensures n == 0
    {
      0
    }

    /** `to_string`: the class's name as declared. */
    function ToString(): (s: string)
      ensures s == name
    {
      name
    }

    /**
     * `call`: a new instance of this class with no fields. The arguments are
     * not looked at.
     */
    method Call(arguments: seq<Value>) returns (instance: LoxInstance)
      ensures fresh(instance)
      ensures instance.cls == this && instance.fields == map[]
    {
      instance := new LoxInstance(this);
    }
  }

  /** An object: the class it was made from and its own fields. */
  class LoxInstance {
    const cls: LoxClass
    var fields: map<string, Value>

    constructor (cls: LoxClass)
      ensures this.cls == cls && fields == map[]
    {
      this.cls := cls;
      fields := map[];
    }

    /** `to_string`: the class name followed by " instance". */
    function ToString(): string
    {
      cls.name + " instance"
    }

    /**
     * `get`: the instance's own field if it has one, otherwise the class's
     * method of that name bound to this instance, otherwise an error.
     */
    function Get(name: Tokens.Token): (r: Result<Value, RuntimeError>)
      reads this
      ensures r.Failure? <==> name.lexeme !in fields && cls.FindMethod(name.lexeme).None?
      ensures r.Failure? ==> r.error == RuntimeError(name, "Undefined property '" + name.lexeme + "'.")
      ensures name.lexeme in fields ==> r == Success(fields[name.lexeme])
      ensures name.lexeme !in fields && r.Success? ==>
        r.value == BoundMethod(cls.FindMethod(name.lexeme).value, this)
    {
      if name.lexeme in fields then Success(fields[name.lexeme])
      else
        match cls.FindMethod(name.lexeme)
        case Some(m) => Success(BoundMethod(m, this))
        case None => Failure(RuntimeError(name, "Undefined property '" + name.lexeme + "'."))
    }

    /** `set`: writes the field, creating or overwriting it; a later `get` sees the new value. */
    method Set(name: Tokens.Token, value: Value)
      modifies this
      ensures fields == old(fields)[name.lexeme := value]
      ensures Get(name) == Success(value)
    {
      fields := fields[name.lexeme := value];
    }
  }

  /**
   * The text of an instance is its class's text followed by " instance", and
   * two instances print alike exactly when their classes have the same name.
   */
  lemma InstanceToString(a: LoxInstance, b: LoxInstance)
    ensures a.ToString() == a.cls.ToString() + " instance"
    ensures a.ToString() == b.ToString() <==> a.cls.name == b.cls.name
  {
    if a.ToString() == b.ToString() {
      assert |a.cls.name| == |b.cls.name|;
      assert a.ToString()[..|a.cls.name|] == a.cls.name;
      assert b.ToString()[..|b.cls.name|] == b.cls.name;
    }
  }
}
