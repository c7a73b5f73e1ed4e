/** Scopes: a table from names to values with an optional enclosing scope. `Env` is the
    value a chain of scopes denotes and the functions on it say what `define`, `get` and
    `assign` do; the class `Environment` is the mutable object the interpreter holds,
    proved to act on its `Model()` as those functions say. */
module Environments {
  import opened Tokens
  import opened Values

  datatype Env = Env(values: map<string, Value>, enclosing: Option<Env>)

  /** `name` is bound somewhere along the chain. */
  predicate Bound(env: Env, name: string)
  {
    name in env.values || (env.enclosing.Some? && Bound(env.enclosing.value, name))
  }

  /** The number of scopes in the chain. */
  function Depth(env: Env): (n: nat)
    ensures n >= 1
  {
    if env.enclosing.None? then 1 else 1 + Depth(env.enclosing.value)
  }

  /** `define`: binds in this scope, replacing an earlier binding of the same scope. */
  function DefineIn(env: Env, name: string, value: Value): (r: Env)
    ensures r.enclosing == env.enclosing
    ensures r.values.Keys == env.values.Keys + {name}
    ensures r.values[name] == value
    ensures forall n :: n in env.values && n != name ==> r.values[n] == env.values[n]
  {
    env.(values := env.values[name := value])
  }

  /** `get`: the innermost binding of `name`, or `None` where the source throws. */
  function GetFrom(env: Env, name: string): (r: Option<Value>)
    ensures r.Some? <==> Bound(env, name)
    ensures name in env.values ==> r == Some(env.values[name])
  {
    if name in env.values then Some(env.values[name])
    else if env.enclosing.Some? then GetFrom(env.enclosing.value, name)
    else None
  }

  /** `assign`: replaces a binding of this very scope, or fails (`None`) where the source
      throws; the enclosing scopes are not consulted. */
  function AssignIn(env: Env, name: string, value: Value): (r: Option<Env>)
    ensures r.Some? <==> name in env.values
    ensures r.Some? ==> r.value.enclosing == env.enclosing && r.value.values.Keys == env.values.Keys
    ensures r.Some? ==> r.value.values[name] == value
    ensures r.Some? ==> forall n :: n in env.values && n != name ==> r.value.values[n] == env.values[n]
  {
    if name in env.values then Some(env.(values := env.values[name := value])) else None
  }

  /** The text of the exception that `get` and `assign` throw. */
  function NotFound(name: string): string
  {
    "Variable " + name + " not found"
  }

  /** After `define(n, v)`, `get(n)` answers `v`, and every other name answers as before. */
  lemma GetAfterDefine(env: Env, name: string, value: Value, other: string)
    ensures GetFrom(DefineIn(env, name, value), name) == Some(value)
    ensures other != name ==> GetFrom(DefineIn(env, name, value), other) == GetFrom(env, other)
  {
  }

  /** A binding in a scope shadows the bindings of the enclosing scopes; a name the scope
      does not bind is looked up in the enclosing scope. */
  lemma Shadowing(inner: map<string, Value>, outer: Env, name: string)
    ensures name in inner ==> GetFrom(Env(inner, Some(outer)), name) == Some(inner[name])
    ensures name !in inner ==> GetFrom(Env(inner, Some(outer)), name) == GetFrom(outer, name)
  {
  }

  /** A name bound only in an enclosing scope can be read but not assigned. */
  lemma AssignIsLocal(env: Env, name: string, value: Value)
    requires name !in env.values && Bound(env, name)
    ensures GetFrom(env, name).Some?
    ensures AssignIn(env, name, value).None?
  {
  }

  /** A successful `assign` is a `define` of a name the scope already has. */
  lemma AssignIsRedefine(env: Env, name: string, value: Value)
    requires name in env.values
    ensures AssignIn(env, name, value) == Some(DefineIn(env, name, value))
  {
  }

  /** Defining the same binding twice is the same as defining it once. */
  lemma {:induction false} DefineIdempotent(env: Env, name: string, value: Value)
    ensures DefineIn(DefineIn(env, name, value), name, value) == DefineIn(env, name, value)
  {
    assert DefineIn(DefineIn(env, name, value), name, value).values == DefineIn(env, name, value).values;
  }

  /** A scope object with its chain of enclosing scopes. The chain is fixed when the
      object is made (`enclosing` never changes), so `Repr` is too, and it is finite and
      acyclic; only the table of each scope changes. */
  class Environment {
    var values: map<string, Value>
    const enclosing: Environment?
    ghost const Repr: set<Environment>

    ghost predicate Valid()
      decreases Repr
    {
      && this in Repr
      && (enclosing == null ==> Repr == {this})
      && (enclosing != null ==>
            && enclosing in Repr && Repr == {this} + enclosing.Repr
            && this !in enclosing.Repr && enclosing.Valid())
    }

    /** The chain this object heads, as a value. */
    ghost function Model(): Env
      requires Valid()
      reads Repr
      decreases Repr
    {
      Env(values, if enclosing == null then None else Some(enclosing.Model()))
    }

    /** The chain is acyclic: it has one scope per object of `Repr`. */
    lemma {:induction false} DepthIsRepr()
      requires Valid()
      ensures Depth(Model()) == |Repr|
      decreases Repr
    {
      if enclosing != null {
        enclosing.DepthIsRepr();
        assert Repr == {this} + enclosing.Repr && this !in enclosing.Repr;
      }
    }

    /** `new Environment()`: an empty scope with no enclosing scope. */
    constructor ()
      ensures Valid() && fresh(Repr)
      ensures Model() == Env(map[], None)
    {
      values := map[];
      enclosing := null;
      Repr := {this};
    }

    /** `new Environment(enclosing)`: an empty scope inside `enclosing`. */
    constructor Nested(enclosing: Environment)
      requires enclosing.Valid()
      ensures Valid() && Repr == {this} + enclosing.Repr
      ensures this.enclosing == enclosing
      ensures Model() == Env(map[], Some(enclosing.Model()))
    {
      values := map[];
      this.enclosing := enclosing;
      Repr := {this} + enclosing.Repr;
    }

    method Define(name: string, value: Value)
      requires Valid()
      modifies this
      ensures Valid()
      ensures Model() == DefineIn(old(Model()), name, value)
    {
      values := values[name := value];
    }

    /** Walks the chain from this scope outwards. */
    method Get(name: Token) returns (r: Option<Value>)
      requires Valid()
      ensures r == GetFrom(Model(), name.lexeme)
      decreases Repr
    {
      if name.lexeme in values {
        return Some(values[name.lexeme]);
      }
      if enclosing != null {
        r := enclosing.Get(name);
        return;
      }
      return None;
    }

    /** Replaces a binding of this scope; `ok` is false where the source throws. */
    method Assign(name: Token, value: Value) returns (ok: bool)
      requires Valid()
      modifies this
      ensures Valid()
      ensures ok == AssignIn(old(Model()), name.lexeme, value).Some?
      ensures ok ==> Model() == AssignIn(old(Model()), name.lexeme, value).value
      ensures !ok ==> Model() == old(Model())
    {
      if name.lexeme in values {
        values := values[name.lexeme := value];
        return true;
      }
      return false;
    }
  }
}
