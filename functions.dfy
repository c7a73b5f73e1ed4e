/** Function objects (the YaiFunction class): their arity, their printed form, and the
    scope a call runs its body in. Running the body belongs to the interpreter and is in
    the Semantics and Interpreting modules. */
module Functions {
  import opened Tokens
  import opened Values
  import opened Environments

  /** `arity()`: the number of declared parameters. */
  function Arity(f: Callable): (n: nat)
    ensures n == |f.params|
  {
    |f.params|
  }

  /** `toString()`: the name in angle brackets. */
  function ToString(f: Callable): (s: string)
    ensures |s| == |f.name.lexeme| + 11
    ensures s[..10] == "<function " && s[10..|s| - 1] == f.name.lexeme && s[|s| - 1] == '>'
  {
    "<function " + f.name.lexeme + ">"
  }

  /** The table a call starts from: parameter `i` defined as argument `i`, in order. */
  function Bind(params: seq<Token>, args: seq<Value>): (m: map<string, Value>)
    requires |params| <= |args|
    ensures m.Keys == set i | 0 <= i < |params| :: params[i].lexeme
  {
    if params == [] then map[]
    else
      var n := |params| - 1;
      Bind(params[..n], args)[params[n].lexeme := args[n]]
  }

  /** Every parameter is bound to its argument, except that a name declared twice takes
      the argument of its last occurrence. */
  lemma {:induction false} BindPositional(params: seq<Token>, args: seq<Value>, i: nat)
    requires |params| <= |args| && i < |params|
    requires forall j :: i < j < |params| ==> params[j].lexeme != params[i].lexeme
    ensures Bind(params, args)[params[i].lexeme] == args[i]
  {
    var n := |params| - 1;
    if i < n {
      BindPositional(params[..n], args, i);
    }
  }

  /** The scope of a call: a new environment without an enclosing scope, so the body
      sees its parameters and nothing of the caller's or the defining scope. */
  function CallScope(f: Callable, args: seq<Value>): (env: Env)
    requires Arity(f) <= |args|
    ensures env.enclosing.None?
    ensures forall name :: Bound(env, name) <==> exists i :: 0 <= i < |f.params| && f.params[i].lexeme == name
  {
    Env(Bind(f.params, args), None)
  }

  /** The first half of `call`: a fresh environment with the parameters defined in order. */
  method BindParameters(f: Callable, args: seq<Value>) returns (env: Environment)
    requires Arity(f) <= |args|
    ensures env.Valid() && fresh(env.Repr)
    ensures env.Model() == CallScope(f, args)
  {
    env := new Environment();
    for i := 0 to |f.params|
      invariant env.Valid() && fresh(env.Repr)
      invariant env.Model() == Env(Bind(f.params[..i], args), None)
    {
      assert f.params[..i + 1][..i] == f.params[..i];
      env.Define(f.params[i].lexeme, args[i]);
    }
    assert f.params[..|f.params|] == f.params;
  }
}
