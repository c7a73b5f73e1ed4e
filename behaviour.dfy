/** Properties of the evaluator: short-circuit logic, declarations and assignment,
    block scoping, the checks of a call, what a call returns, and how `interpret` stops. */
module Behaviour {
  import opened Tokens
  import opened Reporting
  import opened Syntax
  import opened Numbers
  import opened Values
  import opened Environments
  import opened Functions
  import opened Semantics

  // ---------------------------------------------------------------- expressions

  /** `or` gives a truthy left value and `and` a falsy one without evaluating the right
      operand; otherwise both give the value of the right operand. */
  lemma ShortCircuit(left: Expr, op: Token, right: Expr, m: Machine, fuel: nat)
    requires Evaluate(left, m, fuel).Normal?
    ensures var l := Evaluate(left, m, fuel);
      Evaluate(Logical(left, op, right), m, fuel)
        == if (op.kind == Or) == IsTruthy(l.value) then l else Evaluate(right, l.after, fuel)
  {
    var l := Evaluate(left, m, fuel);
    var e := Logical(left, op, right);
    assert Evaluate(e, m, fuel)
        == if op.kind == Or && IsTruthy(l.value) then l
           else if op.kind != Or && !IsTruthy(l.value) then l
           else Evaluate(right, l.after, fuel);
  }

  /** An assignment evaluates its value, stores it in the current scope and gives it as
      its result; a name the current scope does not bind is a host failure, even when an
      enclosing scope binds it. */
  lemma AssignmentStores(name: Token, value: Expr, m: Machine, fuel: nat)
    requires Evaluate(value, m, fuel).Normal?
    ensures var v := Evaluate(value, m, fuel);
      && (name.lexeme in v.after.env.values ==>
            Evaluate(Assign(name, value), m, fuel)
              == Normal(v.value, v.after.(env := DefineIn(v.after.env, name.lexeme, v.value))))
      && (name.lexeme !in v.after.env.values ==>
            Evaluate(Assign(name, value), m, fuel) == Abrupt(HostFailure(NotFound(name.lexeme)), v.after))
  {
    var v := Evaluate(value, m, fuel);
    if name.lexeme in v.after.env.values {
      AssignIsRedefine(v.after.env, name.lexeme, v.value);
    }
  }

  /** A name bound only by an enclosing scope (inside a block, say) can be read, but
      assigning it fails once its value has been evaluated. */
  lemma AssignToOuterFails(name: Token, value: Expr, m: Machine, fuel: nat)
    requires name.lexeme !in m.env.values && Bound(m.env, name.lexeme)
    requires Evaluate(value, m, fuel).Normal?
    ensures Evaluate(Variable(name), m, fuel).Normal?
    ensures Evaluate(Assign(name, value), m, fuel)
         == Abrupt(HostFailure(NotFound(name.lexeme)), Evaluate(value, m, fuel).after)
  {
    AssignmentStores(name, value, m, fuel);
  }

  // ---------------------------------------------------------------- statements

  /** `var` binds in the current scope, to `null` without an initializer. */
  lemma VarDeclares(name: Token, init: Option<Expr>, m: Machine, fuel: nat)
    ensures init.None? ==>
      Execute(Stmt.Var(name, init), m, fuel) == Normal((), m.(env := DefineIn(m.env, name.lexeme, Nil)))
    ensures init.Some? && Evaluate(init.value, m, fuel).Normal? ==>
      var v := Evaluate(init.value, m, fuel);
      Execute(Stmt.Var(name, init), m, fuel) == Normal((), v.after.(env := DefineIn(v.after.env, name.lexeme, v.value)))
  {
  }

  /** A declaration inside a block is gone when the block ends: a block of declarations
      leaves the machine as it found it. */
  lemma {:induction false} BlockScoping(ss: seq<Option<Stmt>>, m: Machine, fuel: nat)
    requires forall i :: 0 <= i < |ss| ==> ss[i].Some? && ss[i].value.Var? && ss[i].value.initializer.None?
    ensures Execute(Block(ss), m, fuel) == Normal((), m)
  {
    DeclarationsOnly(ss, m.(env := Env(map[], Some(m.env))), fuel);
  }

  lemma {:induction false} DeclarationsOnly(ss: seq<Option<Stmt>>, m: Machine, fuel: nat)
    requires forall i :: 0 <= i < |ss| ==> ss[i].Some? && ss[i].value.Var? && ss[i].value.initializer.None?
    ensures ExecuteList(ss, m, fuel).Normal?
    ensures ExecuteList(ss, m, fuel).after.output == m.output
    ensures ExecuteList(ss, m, fuel).after.nextId == m.nextId
    decreases |ss|
  {
    if ss != [] {
      var n := |ss| - 1;
      DeclarationsOnly(ss[..n], m, fuel);
      var b := ExecuteList(ss[..n], m, fuel);
      assert Execute(ss[n].value, b.after, fuel) == ExecuteVar(ss[n].value.name, None, b.after, fuel);
    }
  }

  // ---------------------------------------------------------------- calls

  /** A callee that is not a function, and an argument count other than the arity, are
      RuntimeErrors at the closing parenthesis. */
  lemma CallChecks(callee: Value, paren: Token, args: seq<Value>, m: Machine, fuel: nat)
    ensures !callee.Fn? ==>
      CallValue(callee, paren, args, m, fuel) == Abrupt(RuntimeErr(paren, "Can only call functions and classes."), m)
    ensures callee.Fn? && |args| != Arity(callee.f) ==>
      CallValue(callee, paren, args, m, fuel)
        == Abrupt(RuntimeErr(paren, "Expected " + DecimalString(|callee.f.params|) + " arguments but got "
                                    + DecimalString(|args|) + "."), m)
  {
  }

  /** A call whose checks pass runs the body in the function's own scope and gives
      `null`; a `return` in the body is not caught and ends the call abruptly with the
      returned value; either way the caller's scope is current again afterwards. */
  lemma CallResult(f: Callable, paren: Token, args: seq<Value>, m: Machine, fuel: nat)
    requires |args| == Arity(f) && fuel > 0
    ensures var b := ExecuteList(f.body, m.(env := CallScope(f, args)), fuel - 1);
      var r := CallValue(Fn(f), paren, args, m, fuel);
      && r.after == b.after.(env := m.env)
      && (b.Normal? ==> r.Normal? && r.value == Nil)
      && (b.Abrupt? ==> r.Abrupt? && r.signal == b.signal)
  {
    assert CallValue(Fn(f), paren, args, m, fuel) == Invoke(f, args, m, fuel - 1);
  }

  /** The body of a function sees its parameters and nothing else: reading any other
      name fails, whatever the caller's scopes bind. */
  lemma BodyCannotSeeCaller(f: Callable, paren: Token, args: seq<Value>, x: Token, m: Machine, fuel: nat)
    requires |args| == Arity(f) && fuel > 0
    requires |f.body| > 0 && f.body[0] == Some(Expression(Variable(x)))
    requires forall i :: 0 <= i < |f.params| ==> f.params[i].lexeme != x.lexeme
    ensures CallValue(Fn(f), paren, args, m, fuel) == Abrupt(HostFailure(NotFound(x.lexeme)), m)
  {
    var scope := m.(env := CallScope(f, args));
    var first := [f.body[0]];
    assert !Bound(scope.env, x.lexeme);
    assert first[..0] == [];
    assert Evaluate(Variable(x), scope, fuel - 1) == Abrupt(HostFailure(NotFound(x.lexeme)), scope);
    assert Execute(Expression(Variable(x)), scope, fuel - 1) == Abrupt(HostFailure(NotFound(x.lexeme)), scope);
    assert ExecuteList(first, scope, fuel - 1) == Abrupt(HostFailure(NotFound(x.lexeme)), scope);
    ListAppend(first, f.body[1..], scope, fuel - 1);
    assert first + f.body[1..] == f.body;
    assert ExecuteList(f.body, scope, fuel - 1) == Abrupt(HostFailure(NotFound(x.lexeme)), scope);
    CallResult(f, paren, args, m, fuel);
    assert scope.(env := m.env) == m;
  }

  // ---------------------------------------------------------------- interpret

  /** Running `a + b` is running `a`, then `b` from where `a` left off, unless `a` ends
      abruptly, in which case `b` is never run. */
  lemma {:induction false} ListAppend(a: seq<Option<Stmt>>, b: seq<Option<Stmt>>, m: Machine, fuel: nat)
    ensures var r := ExecuteList(a, m, fuel);
      ExecuteList(a + b, m, fuel) == if r.Abrupt? then r else ExecuteList(b, r.after, fuel)
    decreases |b|
  {
    if b == [] {
      assert a + b == a;
      var r := ExecuteList(a, m, fuel);
      if r.Normal? {
        var u: () := r.value;
        assert u == ();
      }
    } else {
      var n := |b| - 1;
      assert (a + b)[..|a + b| - 1] == a + b[..n];
      assert (a + b)[|a + b| - 1] == b[n];
      ListAppend(a, b[..n], m, fuel);
    }
  }

  /** `interpret` stops at the first RuntimeError: what ran before it is kept (its
      output in particular), the error is reported with its line, and nothing after it
      runs. */
  lemma StopsAtFirstError(a: seq<Option<Stmt>>, b: seq<Option<Stmt>>, m: Machine, fuel: nat)
    requires ExecuteList(a, m, fuel).Abrupt? && ExecuteList(a, m, fuel).signal.RuntimeErr?
    ensures var r := ExecuteList(a, m, fuel);
      Interpret(a + b, m, fuel) == Run(Reported(RuntimeErrorReport(r.signal.message, r.signal.token.line)), r.after)
    ensures m.output <= Interpret(a + b, m, fuel).after.output
  {
    ListAppend(a, b, m, fuel);
  }

  /** A statement list that runs normally is followed by the rest of the program. */
  lemma RunsOn(a: seq<Option<Stmt>>, b: seq<Option<Stmt>>, m: Machine, fuel: nat)
    requires ExecuteList(a, m, fuel).Normal?
    ensures Interpret(a + b, m, fuel) == Interpret(b, ExecuteList(a, m, fuel).after, fuel)
  {
    ListAppend(a, b, m, fuel);
  }

  /** A `return` outside any function is not a RuntimeError: `interpret` does not catch it. */
  lemma ReturnEscapes(m: Machine, fuel: nat)
    ensures Interpret([Some(Stmt.Return(None))], m, fuel) == Run(Escaped(ReturnSignal(Nil)), m)
  {
    var ss: seq<Option<Stmt>> := [Some(Stmt.Return(None))];
    assert ss[..0] == [];
    assert Execute(Stmt.Return(None), m, fuel) == Abrupt(ReturnSignal(Nil), m);
    assert ExecuteList(ss, m, fuel) == Abrupt(ReturnSignal(Nil), m);
  }

  /** `print` writes the value's text: "null" for null, and a number whose text ends in
      ".0" without it. */
  lemma PrintedText(r: real, finiteText: real -> string, whole: string)
    requires finiteText(r) == whole + ".0"
    ensures Stringify(Num(Finite(r)), finiteText) == whole
    ensures Stringify(Nil, finiteText) == "null"
  {
    var text := whole + ".0";
    assert text[|text| - 2..] == ".0";
    assert text[..|text| - 2] == whole;
  }

  /** A printed statement appends its value's text to the output. */
  lemma PrintAppends(e: Expr, m: Machine, fuel: nat, finiteText: real -> string)
    requires Evaluate(e, m, fuel).Normal?
    ensures var v := Evaluate(e, m, fuel);
      var r := Execute(Stmt.Print(e), m, fuel);
      && r.Normal?
      && Transcript(r.after.output, finiteText) == Transcript(v.after.output, finiteText) + [Stringify(v.value, finiteText)]
  {
    var v := Evaluate(e, m, fuel);
    var out := v.after.output + [v.value];
    assert out[..|out| - 1] == v.after.output;
  }
}
