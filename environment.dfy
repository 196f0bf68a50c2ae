/**
 * Variable storage of Environment.cpp: a map of bindings linked to an
 * enclosing environment. The pure functions work on the chain of maps seen
 * from an environment, innermost first; the class `Environment` updates its
 * own map in place and is proved to act on its chain as those functions say.
 */
module Environments {
  import opened Wrappers
  import Tokens
  import opened Values

  /** The bindings of one environment. */
  type Frame = map<string, Value>

  /** The message of the error `get` and `assign` throw for a name bound nowhere. */
  function UndefinedVariable(name: Tokens.Token): RuntimeError
  {
    RuntimeError(name, "Undefined variable '" + name.lexeme + "'.")
  }

  /** The index of the innermost frame binding `name`, if any. */
  function Nearest(chain: seq<Frame>, name: string): (i: Option<nat>)
    ensures i.None? <==> forall j :: 0 <= j < |chain| ==> name !in chain[j]
    ensures i.Some? ==> i.value < |chain| && name in chain[i.value]
    ensures i.Some? ==> forall j :: 0 <= j < i.value ==> name !in chain[j]
    decreases |chain|
  {
    if |chain| == 0 then None
    else if name in chain[0] then Some(0)
    else
      match Nearest(chain[1..], name)
      case None => None
      case Some(k) => Some(k + 1)
  }

  /** What `get` returns or throws on an environment whose chain is `chain`. */
  function GetIn(chain: seq<Frame>, name: Tokens.Token): (r: Result<Value, RuntimeError>)
    ensures r.Failure? <==> forall j :: 0 <= j < |chain| ==> name.lexeme !in chain[j]
    ensures r.Failure? ==> r.error == UndefinedVariable(name)
    ensures r.Success? ==> exists j :: 0 <= j < |chain| && name.lexeme in chain[j] && r.value == chain[j][name.lexeme]
  {
    match Nearest(chain, name.lexeme)
    case None => Failure(UndefinedVariable(name))
    case Some(i) => Success(chain[i][name.lexeme])
  }

  /** The chain after `define`: the innermost frame binds `name`, whether or not it did before. */
  function DefinedIn(chain: seq<Frame>, name: string, value: Value): (r: seq<Frame>)
    requires |chain| > 0
    ensures |r| == |chain| && r[1..] == chain[1..]
    ensures name in r[0] && r[0][name] == value
    ensures forall n :: n != name ==> (n in r[0] <==> n in chain[0]) && (n in chain[0] ==> r[0][n] == chain[0][n])
  {
    [chain[0][name := value]] + chain[1..]
  }

  /** The chain after `assign`: the nearest frame binding `name` rebinds it; None when no frame does. */
  function AssignedIn(chain: seq<Frame>, name: string, value: Value): (r: Option<seq<Frame>>)
    ensures r.None? <==> forall j :: 0 <= j < |chain| ==> name !in chain[j]
    ensures r.Some? ==> |r.value| == |chain| && forall j :: 0 <= j < |chain| ==> r.value[j].Keys == chain[j].Keys
  {
    match Nearest(chain, name)
    case None => None
    case Some(i) => Some(chain[i := chain[i][name := value]])
  }

  /** `get` yields the binding of the innermost frame that has one, and fails only when no frame has one. */
  lemma GetNearest(chain: seq<Frame>, name: Tokens.Token, i: nat)
    requires i < |chain| && name.lexeme in chain[i]
    requires forall j :: 0 <= j < i ==> name.lexeme !in chain[j]
    ensures GetIn(chain, name) == Success(chain[i][name.lexeme])
  {
    var k := Nearest(chain, name.lexeme).value;
    assert !(k < i) && !(i < k);
  }

  lemma GetUndefined(chain: seq<Frame>, name: Tokens.Token)
    ensures GetIn(chain, name).Failure? <==> forall j :: 0 <= j < |chain| ==> name.lexeme !in chain[j]
    ensures GetIn(chain, name).Failure? ==>
      GetIn(chain, name).error.message == "Undefined variable '" + name.lexeme + "'."
  {
  }

  /**
   * `define` then `get` of the same name yields the value just defined, and
   * a `get` of any other name is unaffected.
   */
  lemma DefineThenGet(chain: seq<Frame>, name: Tokens.Token, value: Value, other: Tokens.Token)
    requires |chain| > 0
    ensures GetIn(DefinedIn(chain, name.lexeme, value), name) == Success(value)
    ensures other.lexeme != name.lexeme ==>
      GetIn(DefinedIn(chain, name.lexeme, value), other) == GetIn(chain, other)
  {
    var after := DefinedIn(chain, name.lexeme, value);
    assert Nearest(after, name.lexeme) == Some(0);
    if other.lexeme != name.lexeme {
      assert forall j :: 0 <= j < |chain| ==> (other.lexeme in after[j] <==> other.lexeme in chain[j]);
      match Nearest(chain, other.lexeme)
      case None =>
      case Some(i) => GetNearest(after, other, i);
    }
  }

  /**
   * `assign` succeeds exactly when `get` would, never adds a binding to any
   * frame, and leaves every frame but the nearest binding one as it was.
   */
  lemma AssignFrames(chain: seq<Frame>, name: Tokens.Token, value: Value)
    ensures AssignedIn(chain, name.lexeme, value).None? <==> GetIn(chain, name).Failure?
    ensures AssignedIn(chain, name.lexeme, value).Some? ==>
      var after := AssignedIn(chain, name.lexeme, value).value;
      && |after| == |chain|
      && (forall j :: 0 <= j < |chain| ==> after[j].Keys == chain[j].Keys)
      && (forall j :: 0 <= j < |chain| && j != Nearest(chain, name.lexeme).value ==> after[j] == chain[j])
  {
  }

  /**
   * A successful `assign` then `get` of the same name yields the value just
   * assigned, and a `get` of any other name is unaffected.
   */
  lemma AssignThenGet(chain: seq<Frame>, name: Tokens.Token, value: Value, other: Tokens.Token)
    requires AssignedIn(chain, name.lexeme, value).Some?
    ensures GetIn(AssignedIn(chain, name.lexeme, value).value, name) == Success(value)
    ensures other.lexeme != name.lexeme ==>
      GetIn(AssignedIn(chain, name.lexeme, value).value, other) == GetIn(chain, other)
  {
    var after := AssignedIn(chain, name.lexeme, value).value;
    var i := Nearest(chain, name.lexeme).value;
    GetNearest(after, name, i);
    if other.lexeme != name.lexeme {
      assert forall j :: 0 <= j < |chain| ==> (other.lexeme in after[j] <==> other.lexeme in chain[j]);
      match Nearest(chain, other.lexeme)
      case None =>
      case Some(k) => GetNearest(after, other, k);
    }
  }

  /** A name the innermost frame binds is assigned there, as `define` would. */
  lemma AssignedInInnermost(chain: seq<Frame>, name: string, value: Value)
    requires |chain| > 0 && name in chain[0]
    ensures AssignedIn(chain, name, value) == Some(DefinedIn(chain, name, value))
  {
    assert chain[0 := chain[0][name := value]] == [chain[0][name := value]] + chain[1..];
  }

  /** A name the innermost frame lacks is assigned in the enclosing frames. */
  lemma AssignedInOuter(inner: Frame, outer: seq<Frame>, name: string, value: Value)
    requires name !in inner
    ensures AssignedIn([inner] + outer, name, value) ==
      match AssignedIn(outer, name, value)
      case None => None
      case Some(after) => Some([inner] + after)
  {
    var chain := [inner] + outer;
    assert chain[1..] == outer;
    match Nearest(outer, name)
    case None =>
      assert Nearest(chain, name) == None;
    case Some(i) =>
      assert Nearest(chain, name) == Some(i + 1);
      assert chain[i + 1 := outer[i][name := value]] == [inner] + outer[i := outer[i][name := value]];
  }

  class Environment {
    var values: Frame
    const enclosing: Environment?
    /** This environment and every environment it encloses in. */
    ghost const Repr: set<Environment>

    ghost predicate Valid()
      decreases Repr
    {
      && this in Repr
      && (enclosing != null ==>
            && enclosing in Repr
            && enclosing.Repr <= Repr
            && this !in enclosing.Repr
            && enclosing.Valid())
    }

    /** The frames visible from here, this one first. */
    function Chain(): (c: seq<Frame>)
      requires Valid()
      reads Repr
      ensures |c| > 0 && c[0] == values
      decreases Repr
    {
      [values] + if enclosing == null then [] else enclosing.Chain()
    }

    /** The global environment: no enclosing one. */
    constructor ()
      ensures Valid() && fresh(Repr)
      ensures enclosing == null && values == map[]
      ensures Chain() == [map[]]
    {
      values := map[];
      enclosing := null;
      Repr := {this};
    }

    /** A new innermost environment inside `enclosing`. */
    constructor Enclosed(enclosing: Environment)
      requires enclosing.Valid()
      ensures Valid() && fresh(Repr - enclosing.Repr)
      ensures this.enclosing == enclosing && values == map[]
      ensures Chain() == [map[]] + enclosing.Chain()
    {
      values := map[];
      this.enclosing := enclosing;
      Repr := {this} + enclosing.Repr;
    }

    /** `define`: binds in this environment only, overwriting any binding it had. */
    method Define(name: string, value: Value)
      requires Valid()
      modifies this
      ensures Valid()
      ensures values == old(values)[name := value]
      ensures Chain() == DefinedIn(old(Chain()), name, value)
    {
      values := values[name := value];
    }

    /** `get`: this environment first, then the enclosing ones, else "Undefined variable". */
    function Get(name: Tokens.Token): (r: Result<Value, RuntimeError>)
      requires Valid()
      reads Repr
      ensures r == GetIn(Chain(), name)
      decreases Repr
    {
      if name.lexeme in values then Success(values[name.lexeme])
      else if enclosing != null then enclosing.Get(name)
      else Failure(UndefinedVariable(name))
    }

    /** `assign`: rebinds in the nearest environment that binds the name, else "Undefined variable". */
    method Assign(name: Tokens.Token, value: Value) returns (error: Option<RuntimeError>)
      requires Valid()
      modifies Repr
      ensures Valid()
      ensures match AssignedIn(old(Chain()), name.lexeme, value)
        case None => error == Some(UndefinedVariable(name)) && Chain() == old(Chain())
        case Some(after) => error == None && Chain() == after
      decreases Repr
    {
      if name.lexeme in values {
        AssignedInInnermost(Chain(), name.lexeme, value);
        Define(name.lexeme, value);
        return None;
      }
      if enclosing != null {
        AssignedInOuter(values, enclosing.Chain(), name.lexeme, value);
        error := enclosing.Assign(name, value);
        return;
      }
      return Some(UndefinedVariable(name));
    }
  }
}
