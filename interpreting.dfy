/** The Interpreter class: the object that holds the current environment and walks the
    tree, one `visit` method per kind of node. Each method is proved to leave the object
    in the state, and to give the value or the abrupt ending, that the Semantics module
    prescribes for the machine the object stood for before the call. Printing appends
    the printed value to `output`. */
module Interpreting {
  import opened Tokens
  import opened Reporting
  import opened Syntax
  import opened Values
  import opened Environments
  import opened Functions
  import opened Semantics
  import Behaviour

  // ---------------------------------------------------------------- facts about lists

  /** An argument is part of the size of the argument list. */
  lemma {:induction false} ArgBelow(args: seq<Expr>, i: nat)
    requires i < |args|
    ensures ExprSize(args[i]) < ArgsSize(args)
    decreases |args|
  {
    var n := |args| - 1;
    if i < n {
      assert args[..n][i] == args[i];
      ArgBelow(args[..n], i);
    }
  }

  /** A statement is part of the size of the list it is in. */
  lemma {:induction false} StatementBelow(ss: seq<Option<Stmt>>, i: nat)
    requires i < |ss| && ss[i].Some?
    ensures StmtSize(ss[i].value) < ListSize(ss)
    decreases |ss|
  {
    var n := |ss| - 1;
    if i < n {
      assert ss[..n][i] == ss[i];
      StatementBelow(ss[..n], i);
    }
  }

  /** Once an argument ends abruptly, the later arguments are not evaluated. */
  lemma {:induction false} ArgsStop(args: seq<Expr>, k: nat, m: Machine, fuel: nat)
    requires k <= |args| && EvaluateArgs(args[..k], m, fuel).Abrupt?
    ensures EvaluateArgs(args, m, fuel) == EvaluateArgs(args[..k], m, fuel)
    decreases |args|
  {
    if k < |args| {
      var n := |args| - 1;
      assert args[..n][..k] == args[..k];
      ArgsStop(args[..n], k, m, fuel);
    } else {
      assert args[..k] == args;
    }
  }

  /** Once a statement ends abruptly, the later statements are not run. */
  lemma ListStops(ss: seq<Option<Stmt>>, k: nat, m: Machine, fuel: nat)
    requires k <= |ss| && ExecuteList(ss[..k], m, fuel).Abrupt?
    ensures ExecuteList(ss, m, fuel) == ExecuteList(ss[..k], m, fuel)
  {
    assert ss[..k] + ss[k..] == ss;
    Behaviour.ListAppend(ss[..k], ss[k..], m, fuel);
  }

  // ---------------------------------------------------------------- the interpreter

  class Interpreter {
    var environment: Environment
    var output: seq<Value>
    /** The identity the next function object gets. */
    var nextId: nat

    ghost predicate Valid()
      reads this, environment, environment.Repr
    {
      environment.Valid()
    }

    /** The machine this object stands for. */
    ghost function State(): Machine
      requires Valid()
      reads this, environment, environment.Repr
    {
      Machine(environment.Model(), output, nextId)
    }

    /** A new interpreter: an empty global scope, nothing printed. */
    constructor ()
      ensures Valid() && fresh(environment.Repr)
      ensures State() == Machine(Env(map[], None), [], 0)
    {
      environment := new Environment();
      output := [];
      nextId := 0;
    }

    // ------------------------------------------------------------ expressions

    /** `evaluate`, dispatching on the kind of expression. */
    method Evaluate(e: Expr, fuel: nat) returns (c: Completion<Value>)
      requires Valid()
      modifies this, environment
      ensures Valid() && environment == old(environment)
      ensures Finish(c, State()) == Semantics.Evaluate(e, old(State()), fuel)
      decreases fuel, ExprSize(e), 1
    {
      match e
      case Literal(l) =>
        c := Done(FromLiteral(l));
      case Grouping(inner) =>
        c := Evaluate(inner, fuel);
      case Unary(op, right) =>
        c := EvaluateUnary(op, right, fuel);
      case Binary(left, op, right) =>
        c := EvaluateBinary(left, op, right, fuel);
      case Logical(left, op, right) =>
        c := EvaluateLogical(left, op, right, fuel);
      case Variable(name) =>
        var v := environment.Get(name);
        c := if v.Some? then Done(v.value) else Stopped(HostFailure(NotFound(name.lexeme)));
      case Assign(name, value) =>
        c := EvaluateAssign(name, value, fuel);
      case Call(callee, paren, args) =>
        c := EvaluateCall(callee, paren, args, fuel);
    }

    /** `visitUnaryExpr`: the operand, then the operator. */
    method EvaluateUnary(op: Token, right: Expr, fuel: nat) returns (c: Completion<Value>)
      requires Valid()
      modifies this, environment
      ensures Valid() && environment == old(environment)
      ensures Finish(c, State()) == Semantics.EvaluateUnary(op, right, old(State()), fuel)
      decreases fuel, ExprSize(Unary(op, right)), 0
    {
      c := Evaluate(right, fuel);
      if c.Done? {
        c := UnaryOp(op, c.value);
      }
    }

    /** `visitBinaryExpr`: both operands, left first, then the operator. */
    method EvaluateBinary(left: Expr, op: Token, right: Expr, fuel: nat) returns (c: Completion<Value>)
      requires Valid()
      modifies this, environment
      ensures Valid() && environment == old(environment)
      ensures Finish(c, State()) == Semantics.EvaluateBinary(left, op, right, old(State()), fuel)
      decreases fuel, ExprSize(Binary(left, op, right)), 0
    {
      var l := Evaluate(left, fuel);
      if l.Stopped? {
        return l;
      }
      var r := Evaluate(right, fuel);
      if r.Stopped? {
        return r;
      }
      c := BinaryOp(op, l.value, r.value);
    }

    /** `visitLogicalExpr`: the right operand only when the left one does not decide. */
    method EvaluateLogical(left: Expr, op: Token, right: Expr, fuel: nat) returns (c: Completion<Value>)
      requires Valid()
      modifies this, environment
      ensures Valid() && environment == old(environment)
      ensures Finish(c, State()) == Semantics.EvaluateLogical(left, op, right, old(State()), fuel)
      decreases fuel, ExprSize(Logical(left, op, right)), 0
    {
      c := Evaluate(left, fuel);
      if c.Stopped? {
        return;
      }
      if op.kind == Or {
        if IsTruthy(c.value) {
          return;
        }
      } else {
        if !IsTruthy(c.value) {
          return;
        }
      }
      c := Evaluate(right, fuel);
    }

    /** `visitAssignExpr`: the value, then `assign` in the current scope. */
    method EvaluateAssign(name: Token, value: Expr, fuel: nat) returns (c: Completion<Value>)
      requires Valid()
      modifies this, environment
      ensures Valid() && environment == old(environment)
      ensures Finish(c, State()) == Semantics.EvaluateAssign(name, value, old(State()), fuel)
      decreases fuel, ExprSize(Assign(name, value)), 0
    {
      c := Evaluate(value, fuel);
      if c.Stopped? {
        return;
      }
      var ok := environment.Assign(name, c.value);
      if !ok {
        c := Stopped(HostFailure(NotFound(name.lexeme)));
      }
    }

    /** `visitCallExpr`: the callee, then the arguments left to right, then the call. */
    method EvaluateCall(callee: Expr, paren: Token, args: seq<Expr>, fuel: nat) returns (c: Completion<Value>)
      requires Valid()
      modifies this, environment
      ensures Valid() && environment == old(environment)
      ensures Finish(c, State()) == Semantics.EvaluateCall(callee, paren, args, old(State()), fuel)
      decreases fuel, ExprSize(Expr.Call(callee, paren, args)), 0
    {
      var f := Evaluate(callee, fuel);
      if f.Stopped? {
        return f;
      }
      ghost var m := State();
      var arguments: seq<Value> := [];
      var i := 0;
      while i < |args|
        invariant i <= |args| && Valid() && environment == old(environment)
        invariant EvaluateArgs(args[..i], m, fuel) == Normal(arguments, State())
      {
        assert args[..i + 1][..i] == args[..i];
        ArgBelow(args, i);
        var v := Evaluate(args[i], fuel);
        if v.Stopped? {
          ArgsStop(args, i + 1, m, fuel);
          return Stopped(v.signal);
        }
        arguments := arguments + [v.value];
        i := i + 1;
      }
      assert args[..i] == args;
      c := CallValue(f.value, paren, arguments, fuel);
    }

    /** The checks of `visitCallExpr` on the callee and the argument count. */
    method CallValue(callee: Value, paren: Token, args: seq<Value>, fuel: nat) returns (c: Completion<Value>)
      requires Valid()
      modifies this, environment
      ensures Valid() && environment == old(environment)
      ensures Finish(c, State()) == Semantics.CallValue(callee, paren, args, old(State()), fuel)
      decreases fuel, 0, 0
    {
      if !callee.Fn? {
        return Stopped(RuntimeErr(paren, "Can only call functions and classes."));
      }
      if |args| != Arity(callee.f) {
        return Stopped(RuntimeErr(paren, "Expected " + DecimalString(Arity(callee.f)) + " arguments but got "
                                         + DecimalString(|args|) + "."));
      }
      if fuel == 0 {
        return Stopped(OutOfFuel);
      }
      c := CallFunction(callee.f, args, fuel - 1);
    }

    /** `call`: a new scope with the parameters bound, the body run in it, and `null`
        unless the body ends abruptly. */
    method CallFunction(f: Callable, args: seq<Value>, fuel: nat) returns (c: Completion<Value>)
      requires Valid() && Arity(f) <= |args|
      modifies this, environment
      ensures Valid() && environment == old(environment)
      ensures Finish(c, State()) == Invoke(f, args, old(State()), fuel)
      decreases fuel, ListSize(f.body), 2
    {
      var scope := BindParameters(f, args);
      var b := ExecuteBlock(f.body, scope, fuel);
      if b.Stopped? {
        return Stopped(b.signal);
      }
      c := Done(Nil);
    }

    // ------------------------------------------------------------ statements

    /** `execute`, dispatching on the kind of statement. */
    method Execute(s: Stmt, fuel: nat) returns (c: Completion<()>)
      requires Valid()
      modifies this, environment
      ensures Valid() && environment == old(environment)
      ensures Finish(c, State()) == Semantics.Execute(s, old(State()), fuel)
      decreases fuel, StmtSize(s), 2
    {
      match s
      case Expression(e) =>
        c := ExecuteExpression(e, fuel);
      case Print(e) =>
        c := ExecutePrint(e, fuel);
      case Var(name, init) =>
        c := ExecuteVar(name, init, fuel);
      case Block(ss) =>
        c := ExecuteBlockStmt(ss, fuel);
      case If(cond, thenBranch, elseBranch) =>
        c := ExecuteIf(cond, thenBranch, elseBranch, fuel);
      case While(cond, body) =>
        c := ExecuteWhile(cond, body, fuel);
      case Function(name, params, body) =>
        var f := Callable(nextId, name, params, body);
        environment.Define(name.lexeme, Fn(f));
        nextId := nextId + 1;
        c := Done(());
      case Return(value) =>
        c := ExecuteReturn(value, fuel);
    }

    /** `visitExpressionStmt`. */
    method ExecuteExpression(e: Expr, fuel: nat) returns (c: Completion<()>)
      requires Valid()
      modifies this, environment
      ensures Valid() && environment == old(environment)
      ensures Finish(c, State()) == Semantics.ExecuteExpression(e, old(State()), fuel)
      decreases fuel, StmtSize(Expression(e)), 0
    {
      var v := Evaluate(e, fuel);
      c := if v.Stopped? then Stopped(v.signal) else Done(());
    }

    /** `visitPrintStmt`. */
    method ExecutePrint(e: Expr, fuel: nat) returns (c: Completion<()>)
      requires Valid()
      modifies this, environment
      ensures Valid() && environment == old(environment)
      ensures Finish(c, State()) == Semantics.ExecutePrint(e, old(State()), fuel)
      decreases fuel, StmtSize(Stmt.Print(e)), 0
    {
      var v := Evaluate(e, fuel);
      if v.Stopped? {
        return Stopped(v.signal);
      }
      output := output + [v.value];
      c := Done(());
    }

    /** `visitVarStmt`. */
    method ExecuteVar(name: Token, init: Option<Expr>, fuel: nat) returns (c: Completion<()>)
      requires Valid()
      modifies this, environment
      ensures Valid() && environment == old(environment)
      ensures Finish(c, State()) == Semantics.ExecuteVar(name, init, old(State()), fuel)
      decreases fuel, StmtSize(Stmt.Var(name, init)), 0
    {
      var v := Done(Nil);
      if init.Some? {
        v := Evaluate(init.value, fuel);
      }
      if v.Stopped? {
        return Stopped(v.signal);
      }
      environment.Define(name.lexeme, v.value);
      c := Done(());
    }

    /** `visitReturnStmt`. */
    method ExecuteReturn(value: Option<Expr>, fuel: nat) returns (c: Completion<()>)
      requires Valid()
      modifies this, environment
      ensures Valid() && environment == old(environment)
      ensures Finish(c, State()) == Semantics.ExecuteReturn(value, old(State()), fuel)
      decreases fuel, StmtSize(Stmt.Return(value)), 0
    {
      var v := Done(Nil);
      if value.Some? {
        v := Evaluate(value.value, fuel);
      }
      c := if v.Stopped? then Stopped(v.signal) else Stopped(ReturnSignal(v.value));
    }

    /** `visitBlockStmt`: the statements run in a new scope inside the current one. */
    method ExecuteBlockStmt(ss: seq<Option<Stmt>>, fuel: nat) returns (c: Completion<()>)
      requires Valid()
      modifies this, environment
      ensures Valid() && environment == old(environment)
      ensures Finish(c, State()) == Semantics.Execute(Block(ss), old(State()), fuel)
      decreases fuel, StmtSize(Block(ss)), 0
    {
      var scope := new Environment.Nested(environment);
      c := ExecuteBlock(ss, scope, fuel);
    }

    /** `visitIfStmt`. */
    method ExecuteIf(cond: Expr, thenBranch: Stmt, elseBranch: Option<Stmt>, fuel: nat) returns (c: Completion<()>)
      requires Valid()
      modifies this, environment
      ensures Valid() && environment == old(environment)
      ensures Finish(c, State()) == Semantics.ExecuteIf(cond, thenBranch, elseBranch, old(State()), fuel)
      decreases fuel, StmtSize(Stmt.If(cond, thenBranch, elseBranch)), 0
    {
      var v := Evaluate(cond, fuel);
      if v.Stopped? {
        return Stopped(v.signal);
      }
      if IsTruthy(v.value) {
        c := Execute(thenBranch, fuel);
      } else if elseBranch.Some? {
        c := Execute(elseBranch.value, fuel);
      } else {
        c := Done(());
      }
    }

    /** `visitWhileStmt`: the body runs while the condition is truthy; each further round
        spends one unit of fuel. */
    method ExecuteWhile(cond: Expr, body: Stmt, fuel: nat) returns (c: Completion<()>)
      requires Valid()
      modifies this, environment
      ensures Valid() && environment == old(environment)
      ensures Finish(c, State()) == Semantics.ExecuteWhile(cond, body, old(State()), fuel)
      decreases fuel, StmtSize(Stmt.While(cond, body)), 1
    {
      var left: nat := fuel;
      ghost var goal := Semantics.ExecuteWhile(cond, body, old(State()), fuel);
      while true
        invariant left <= fuel && Valid() && environment == old(environment)
        invariant goal == Semantics.ExecuteWhile(cond, body, State(), left)
        decreases left
      {
        var again: bool;
        again, c := WhileRound(cond, body, left);
        if !again {
          return;
        }
        left := left - 1;
      }
    }

    /** One round of the loop of `visitWhileStmt`: the condition and, when it is truthy,
        the body. The loop goes on (`again`) only when both end normally and there is
        fuel for another round; otherwise `c` is how the whole loop ends. */
    method WhileRound(cond: Expr, body: Stmt, fuel: nat) returns (again: bool, c: Completion<()>)
      requires Valid()
      modifies this, environment
      ensures Valid() && environment == old(environment)
      ensures again ==> fuel > 0
      ensures again ==>
        Semantics.ExecuteWhile(cond, body, old(State()), fuel) == Semantics.ExecuteWhile(cond, body, State(), fuel - 1)
      ensures !again ==> Finish(c, State()) == Semantics.ExecuteWhile(cond, body, old(State()), fuel)
      decreases fuel, StmtSize(Stmt.While(cond, body)), 0
    {
      var v := Evaluate(cond, fuel);
      if v.Stopped? {
        return false, Stopped(v.signal);
      }
      if !IsTruthy(v.value) {
        return false, Done(());
      }
      c := Execute(body, fuel);
      if c.Stopped? {
        return false, c;
      }
      if fuel == 0 {
        return false, Stopped(OutOfFuel);
      }
      again := true;
    }

    /** `executeBlock`: `scope` is the current environment while the statements run, and
        the previous one is current again afterwards, however they end. */
    method ExecuteBlock(ss: seq<Option<Stmt>>, scope: Environment, fuel: nat) returns (c: Completion<()>)
      requires Valid() && scope.Valid() && scope !in environment.Repr
      modifies this, scope
      ensures Valid() && environment == old(environment)
      ensures Finish(c, State()) == Semantics.ExecuteBlock(ss, old(scope.Model()), old(State()), fuel)
      decreases fuel, ListSize(ss), 1
    {
      var previous := environment;
      environment := scope;
      c := ExecuteAll(ss, fuel);
      environment := previous;
      if c.Done? {
        ghost var u: () := c.value;
        assert u == ();
      }
    }

    /** The loop of `executeBlock` and `interpret`: the statements in order, up to the
        first that ends abruptly; a null entry fails. */
    method ExecuteAll(ss: seq<Option<Stmt>>, fuel: nat) returns (c: Completion<()>)
      requires Valid()
      modifies this, environment
      ensures Valid() && environment == old(environment)
      ensures Finish(c, State()) == ExecuteList(ss, old(State()), fuel)
      decreases fuel, ListSize(ss), 0
    {
      ghost var m := State();
      var i := 0;
      while i < |ss|
        invariant i <= |ss| && Valid() && environment == old(environment)
        invariant ExecuteList(ss[..i], m, fuel).Normal? && ExecuteList(ss[..i], m, fuel).after == State()
      {
        assert ss[..i + 1][..i] == ss[..i];
        if ss[i].None? {
          ListStops(ss, i + 1, m, fuel);
          return Stopped(HostFailure(NullStatement));
        }
        StatementBelow(ss, i);
        c := Execute(ss[i].value, fuel);
        if c.Stopped? {
          ListStops(ss, i + 1, m, fuel);
          return;
        }
        i := i + 1;
      }
      assert ss[..i] == ss;
      ghost var u: () := ExecuteList(ss, m, fuel).value;
      assert u == ();
      c := Done(());
    }

    /** `interpret`: the statements run in the current scope; a RuntimeError is caught
        and reported, anything else escapes. */
    method Interpret(ss: seq<Option<Stmt>>, fuel: nat) returns (ending: Ending)
      requires Valid()
      modifies this, environment
      ensures Valid() && environment == old(environment)
      ensures Run(ending, State()) == Semantics.Interpret(ss, old(State()), fuel)
    {
      var c := ExecuteAll(ss, fuel);
      if c.Done? {
        ending := Finished;
      } else if c.signal.RuntimeErr? {
        ending := Reported(RuntimeErrorReport(c.signal.message, c.signal.token.line));
      } else {
        ending := Escaped(c.signal);
      }
    }
  }
}
