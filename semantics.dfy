/** What the interpreter computes, as functions on a machine state: the current chain of
    scopes, the values printed so far and the identity the next function object gets.
    Java exceptions become an explicit abrupt completion: a `return` signal, a
    RuntimeError, a host failure (a failing cast, a null statement, or the exception that
    `get` and `assign` throw) and running out of fuel. Loops and calls spend one unit
    of fuel per turn, so every evaluation ends. */
module Semantics {
  import opened Tokens
  import opened Reporting
  import opened Syntax
  import opened Numbers
  import opened Values
  import opened Environments
  import opened Functions

  datatype Machine = Machine(env: Env, output: seq<Value>, nextId: nat)

  datatype Signal =
    | ReturnSignal(value: Value)
    | RuntimeErr(token: Token, message: string)
    | HostFailure(reason: string)
    | OutOfFuel

  /** How an evaluation ends: with a value, or with an exception. */
  datatype Completion<T> = Done(value: T) | Stopped(signal: Signal)

  /** How an evaluation ends, with the machine state at that point. */
  datatype Result<T> = Normal(value: T, after: Machine) | Abrupt(signal: Signal, after: Machine)

  /** The result of a completion reached in state `m`. */
  function Finish<T>(c: Completion<T>, m: Machine): (r: Result<T>)
    ensures r.after == m && (r.Normal? <==> c.Done?)
    ensures c.Done? ==> r.value == c.value
    ensures c.Stopped? ==> r.signal == c.signal
  {
    if c.Done? then Normal(c.value, m) else Abrupt(c.signal, m)
  }

  /** The reason given for an unchecked `(double)` cast of a value that is not a number. */
  const CastFailure := "operand is not a Double"
  /** The reason given for executing a statement that failed to parse. */
  const NullStatement := "null statement"

  // ---------------------------------------------------------------- values

  /** `isTruthy`: only `null` and `false` are false. */
  predicate IsTruthy(v: Value)
    ensures IsTruthy(v) <==> v != Nil && v != Bool(false)
  {
    match v
    case Nil => false
    case Bool(b) => b
    case _ => true
  }

  /** `isEqual`: `null` equals only `null`; otherwise `equals`, which compares booleans,
      numbers (NaN equals itself as a boxed Double) and strings by value, and function
      objects by identity. */
  predicate IsEqual(a: Value, b: Value)
    ensures IsEqual(a, b) <==> a == b || (a.Fn? && b.Fn? && a.f.id == b.f.id)
  {
    match (a, b)
    case (Nil, Nil) => true
    case (Bool(x), Bool(y)) => x == y
    case (Num(x), Num(y)) => x == y
    case (Str(x), Str(y)) => x == y
    case (Fn(f), Fn(g)) => f.id == g.id
    case (_, _) => false
  }

  lemma TruthyValues(v: Value)
    ensures !IsTruthy(v) <==> v == Nil || v == Bool(false)
  {
  }

  /** `isEqual` is an equivalence, and is `==` up to the identity of function objects. */
  lemma EqualityIsEquivalence(a: Value, b: Value, c: Value)
    ensures IsEqual(a, a)
    ensures IsEqual(a, b) ==> IsEqual(b, a)
    ensures IsEqual(a, b) && IsEqual(b, c) ==> IsEqual(a, c)
    ensures IsEqual(a, b) <==> a == b || (a.Fn? && b.Fn? && a.f.id == b.f.id)
    ensures IsEqual(Nil, b) <==> b == Nil
  {
  }

  // ---------------------------------------------------------------- operators

  /** `visitUnaryExpr` after its operand: `!` negates truthiness, `-` negates a number or
      raises, any other operator gives `null`. */
  function UnaryOp(op: Token, v: Value): (c: Completion<Value>)
    ensures op.kind == Bang ==> c == Done(Bool(!IsTruthy(v)))
    ensures op.kind == Minus ==> (c.Done? <==> v.Num?)
    ensures op.kind == Minus && v.Num? ==> c.value == Num(Neg(v.n))
    ensures op.kind == Minus && !v.Num? ==> c.signal == RuntimeErr(op, "Operand must be a number.")
    ensures op.kind !in {Bang, Minus} ==> c == Done(Nil)
  {
    if op.kind == Bang then Done(Bool(!IsTruthy(v)))
    else if op.kind == Minus then
      if v.Num? then Done(Num(Neg(v.n))) else Stopped(RuntimeErr(op, "Operand must be a number."))
    else Done(Nil)
  }

  predicate IsComparison(kind: TokenType)
  {
    kind in {Greater, GreaterEqual, Less, LessEqual}
  }

  /** `visitBinaryExpr` after both operands. */
  function BinaryOp(op: Token, l: Value, r: Value): (c: Completion<Value>)
    ensures c.Stopped? ==> c.signal.HostFailure? || (c.signal.RuntimeErr? && c.signal.token == op)
    ensures op.kind !in {Plus, Minus, Slash, Star, Greater, GreaterEqual, Less, LessEqual, BangEqual, EqualEqual}
        ==> c == Done(Nil)
    ensures op.kind == Minus && l.Num? && r.Num? ==> c == Done(Num(Sub(l.n, r.n)))
    ensures op.kind == Slash && l.Num? && r.Num? ==> c == Done(Num(Div(l.n, r.n)))
    ensures op.kind == Star && l.Num? && r.Num? ==> c == Done(Num(Mul(l.n, r.n)))
  {
    if op.kind == Plus then
      if l.Num? && r.Num? then Done(Num(Add(l.n, r.n)))
      else if l.Str? && r.Str? then Done(Str(l.s + r.s))
      else Stopped(RuntimeErr(op, "Operands must be two numbers or two strings."))
    else if op.kind == Minus then
      if l.Num? && r.Num? then Done(Num(Sub(l.n, r.n))) else Stopped(HostFailure(CastFailure))
    else if op.kind == Slash then
      if !r.Num? then Stopped(RuntimeErr(op, "Operand must be a number."))
      else if !l.Num? then Stopped(HostFailure(CastFailure))
      else Done(Num(Div(l.n, r.n)))
    else if op.kind == Star then
      if !r.Num? then Stopped(RuntimeErr(op, "Operand must be a number."))
      else if !l.Num? then Stopped(HostFailure(CastFailure))
      else Done(Num(Mul(l.n, r.n)))
    else if IsComparison(op.kind) then Compare(op, l, r)
    else if op.kind == BangEqual then Done(Bool(!IsEqual(l, r)))
    else if op.kind == EqualEqual then Done(Bool(IsEqual(l, r)))
    else Done(Nil)
  }

  /** A comparison: both operands must be numbers, which are then compared in the
      order of the extended reals. */
  function Compare(op: Token, l: Value, r: Value): (c: Completion<Value>)
    requires IsComparison(op.kind)
    ensures c.Done? <==> l.Num? && r.Num?
    ensures c.Stopped? ==> c.signal == RuntimeErr(op, "Operands must be numbers.")
  {
    if !(l.Num? && r.Num?) then Stopped(RuntimeErr(op, "Operands must be numbers."))
    else
      var holds :=
        if op.kind == Greater then Numbers.Less(r.n, l.n)
        else if op.kind == GreaterEqual then LessEq(r.n, l.n)
        else if op.kind == Less then Numbers.Less(l.n, r.n)
        else LessEq(l.n, r.n);
      Done(Bool(holds))
  }

  /** `+` adds two numbers or joins two strings and raises on anything else. */
  lemma PlusOperands(op: Token, l: Value, r: Value)
    requires op.kind == Plus
    ensures l.Num? && r.Num? ==> BinaryOp(op, l, r) == Done(Num(Add(l.n, r.n)))
    ensures l.Str? && r.Str? ==> BinaryOp(op, l, r) == Done(Str(l.s + r.s))
    ensures !(l.Num? && r.Num?) && !(l.Str? && r.Str?)
        ==> BinaryOp(op, l, r) == Stopped(RuntimeErr(op, "Operands must be two numbers or two strings."))
  {
  }

  /** Dividing by zero raises nothing: a nonzero number over zero is the infinity of its
      sign, and zero over zero is NaN. */
  lemma DivisionByZero(op: Token, a: Number)
    requires op.kind == Slash
    ensures a.Finite? && a.r > 0.0 ==> BinaryOp(op, Num(a), Num(Finite(0.0))) == Done(Num(PosInf))
    ensures a.Finite? && a.r < 0.0 ==> BinaryOp(op, Num(a), Num(Finite(0.0))) == Done(Num(NegInf))
    ensures BinaryOp(op, Num(Finite(0.0)), Num(Finite(0.0))) == Done(Num(NaN))
  {
  }

  /** Which operand mistakes the binary operators catch as a RuntimeError, and which
      ones reach an unchecked cast: `-` checks nothing, `/` and `*` check only their
      right operand, the comparisons check both. */
  lemma {:induction false} OperandChecks(op: Token, l: Value, r: Value)
    ensures BinaryOp(op, l, r).Stopped? && BinaryOp(op, l, r).signal.RuntimeErr?
        <==> || (op.kind == Plus && !(l.Num? && r.Num?) && !(l.Str? && r.Str?))
             || (op.kind in {Slash, Star} && !r.Num?)
             || (IsComparison(op.kind) && !(l.Num? && r.Num?))
    ensures BinaryOp(op, l, r).Stopped? && BinaryOp(op, l, r).signal.HostFailure?
        <==> || (op.kind == Minus && !(l.Num? && r.Num?))
             || (op.kind in {Slash, Star} && r.Num? && !l.Num?)
    ensures BinaryOp(op, l, r).Stopped? ==> BinaryOp(op, l, r).signal.HostFailure? || BinaryOp(op, l, r).signal.token == op
  {
  }

  /** `!=` is the negation of `==`; both accept any operands. */
  lemma EqualityOperators(eq: Token, ne: Token, l: Value, r: Value)
    requires eq.kind == EqualEqual && ne.kind == BangEqual
    ensures BinaryOp(eq, l, r) == Done(Bool(IsEqual(l, r)))
    ensures BinaryOp(ne, l, r) == Done(Bool(!BinaryOp(eq, l, r).value.b))
  {
  }

  /** The comparisons on numbers are those of the extended reals: `a > b` is `b < a`, and
      every comparison with NaN is false, while `NaN == NaN` holds. */
  lemma Comparisons(op: Token, a: Number, b: Number)
    requires IsComparison(op.kind)
    ensures op.kind == Greater ==> BinaryOp(op, Num(a), Num(b)).value.b == Numbers.Less(b, a)
    ensures op.kind == Less ==> BinaryOp(op, Num(a), Num(b)).value.b == Numbers.Less(a, b)
    ensures op.kind == GreaterEqual ==> BinaryOp(op, Num(a), Num(b)).value.b == LessEq(b, a)
    ensures op.kind == LessEqual ==> BinaryOp(op, Num(a), Num(b)).value.b == LessEq(a, b)
    ensures a.NaN? || b.NaN? ==> BinaryOp(op, Num(a), Num(b)) == Done(Bool(false))
    ensures IsEqual(Num(NaN), Num(NaN))
  {
    NaNUnordered(b);
    NaNUnordered(a);
  }

  // ---------------------------------------------------------------- sizes

  function ExprSize(e: Expr): (n: nat)
    ensures n >= 1
  {
    match e
    case Literal(_) => 1
    case Grouping(inner) => 1 + ExprSize(inner)
    case Unary(_, right) => 1 + ExprSize(right)
    case Binary(left, _, right) => 1 + ExprSize(left) + ExprSize(right)
    case Logical(left, _, right) => 1 + ExprSize(left) + ExprSize(right)
    case Variable(_) => 1
    case Assign(_, value) => 1 + ExprSize(value)
    case Call(callee, _, args) => 1 + ExprSize(callee) + ArgsSize(args)
  }

  function ArgsSize(args: seq<Expr>): nat
  {
    if args == [] then 0 else ArgsSize(args[..|args| - 1]) + ExprSize(args[|args| - 1]) + 1
  }

  function StmtSize(s: Stmt): (n: nat)
    ensures n >= 1
  {
    match s
    case Expression(e) => 1 + ExprSize(e)
    case Print(e) => 1 + ExprSize(e)
    case Var(_, init) => 1 + (if init.Some? then ExprSize(init.value) else 0)
    case Block(ss) => 1 + ListSize(ss)
    case If(c, t, e) => 1 + ExprSize(c) + StmtSize(t) + OptSize(e)
    case While(c, body) => 1 + ExprSize(c) + StmtSize(body)
    case Function(_, _, _) => 1
    case Return(v) => 1 + (if v.Some? then ExprSize(v.value) else 0)
  }

  function OptSize(s: Option<Stmt>): (n: nat)
    ensures s.Some? ==> n == StmtSize(s.value)
  {
    if s.Some? then StmtSize(s.value) else 0
  }

  function ListSize(ss: seq<Option<Stmt>>): nat
  {
    if ss == [] then 0 else ListSize(ss[..|ss| - 1]) + OptSize(ss[|ss| - 1]) + 1
  }

  // ---------------------------------------------------------------- evaluation

  /** `evaluate`. An expression never declares a name and never changes the shape of the
      scope chain; what it prints is appended to what was printed before. */
  function Evaluate(e: Expr, m: Machine, fuel: nat): (r: Result<Value>)
    ensures Keeps(m, r.after)
    decreases fuel, ExprSize(e), 1
  {
    match e
    case Literal(l) => Normal(FromLiteral(l), m)
    case Grouping(inner) => Evaluate(inner, m, fuel)
    case Unary(op, right) => EvaluateUnary(op, right, m, fuel)
    case Binary(left, op, right) => EvaluateBinary(left, op, right, m, fuel)
    case Logical(left, op, right) => EvaluateLogical(left, op, right, m, fuel)
    case Variable(name) =>
      var v := GetFrom(m.env, name.lexeme);
      if v.Some? then Normal(v.value, m) else Abrupt(HostFailure(NotFound(name.lexeme)), m)
    case Assign(name, value) => EvaluateAssign(name, value, m, fuel)
    case Call(callee, paren, args) => EvaluateCall(callee, paren, args, m, fuel)
  }

  /** `visitUnaryExpr`: the operand, then the operator. */
  function EvaluateUnary(op: Token, right: Expr, m: Machine, fuel: nat): (r: Result<Value>)
    ensures Keeps(m, r.after)
    decreases fuel, ExprSize(Unary(op, right)), 0
  {
    var v := Evaluate(right, m, fuel);
    if v.Abrupt? then v else Finish(UnaryOp(op, v.value), v.after)
  }

  /** `visitBinaryExpr`: the left operand, the right one, then the operator. */
  function EvaluateBinary(left: Expr, op: Token, right: Expr, m: Machine, fuel: nat): (r: Result<Value>)
    ensures Keeps(m, r.after)
    decreases fuel, ExprSize(Binary(left, op, right)), 0
  {
    var l := Evaluate(left, m, fuel);
    if l.Abrupt? then l
    else
      var r := Evaluate(right, l.after, fuel);
      if r.Abrupt? then r else Finish(BinaryOp(op, l.value, r.value), r.after)
  }

  /** `visitLogicalExpr`: the left operand, and the right one only when the left one
      does not decide. */
  function EvaluateLogical(left: Expr, op: Token, right: Expr, m: Machine, fuel: nat): (r: Result<Value>)
    ensures Keeps(m, r.after)
    decreases fuel, ExprSize(Logical(left, op, right)), 0
  {
    var l := Evaluate(left, m, fuel);
    if l.Abrupt? then l
    else if op.kind == Or && IsTruthy(l.value) then l
    else if op.kind != Or && !IsTruthy(l.value) then l
    else Evaluate(right, l.after, fuel)
  }

  /** `visitAssignExpr`: the value, then `assign` in the current scope. */
  function EvaluateAssign(name: Token, value: Expr, m: Machine, fuel: nat): (r: Result<Value>)
    ensures Keeps(m, r.after)
    decreases fuel, ExprSize(Assign(name, value)), 0
  {
    var v := Evaluate(value, m, fuel);
    if v.Abrupt? then v
    else
      var env := AssignIn(v.after.env, name.lexeme, v.value);
      if env.Some? then Normal(v.value, v.after.(env := env.value))
      else Abrupt(HostFailure(NotFound(name.lexeme)), v.after)
  }

  /** `visitCallExpr`: the callee, the arguments, then the call. */
  function EvaluateCall(callee: Expr, paren: Token, args: seq<Expr>, m: Machine, fuel: nat): (r: Result<Value>)
    ensures Keeps(m, r.after)
    decreases fuel, ExprSize(Call(callee, paren, args)), 0
  {
    var f := Evaluate(callee, m, fuel);
    if f.Abrupt? then f
    else
      var a := EvaluateArgs(args, f.after, fuel);
      if a.Abrupt? then Abrupt(a.signal, a.after)
      else CallValue(f.value, paren, a.value, a.after, fuel)
  }

  /** The state after an expression: the same scope chain and the same names in the
      current scope, and the earlier output kept. */
  ghost predicate Keeps(m: Machine, m': Machine)
  {
    && m'.env.enclosing == m.env.enclosing
    && m'.env.values.Keys == m.env.values.Keys
    && m.output <= m'.output
    && m.nextId <= m'.nextId
  }

  /** The arguments of a call, left to right, stopping at the first abrupt one. */
  function EvaluateArgs(args: seq<Expr>, m: Machine, fuel: nat): (r: Result<seq<Value>>)
    ensures Keeps(m, r.after)
    ensures r.Normal? ==> |r.value| == |args|
    decreases fuel, ArgsSize(args), 0
  {
    if args == [] then Normal([], m)
    else
      var a := EvaluateArgs(args[..|args| - 1], m, fuel);
      if a.Abrupt? then a
      else
        var v := Evaluate(args[|args| - 1], a.after, fuel);
        if v.Abrupt? then Abrupt(v.signal, v.after) else Normal(a.value + [v.value], v.after)
  }

  /** `visitCallExpr` once the callee and the arguments are known: the callee must be a
      function and the count must match its arity; then `call` runs the body in the
      function's own scope, and gives `null` unless the body ends abruptly. */
  function CallValue(callee: Value, paren: Token, args: seq<Value>, m: Machine, fuel: nat): (r: Result<Value>)
    ensures Keeps(m, r.after)
    decreases fuel, 0, 0
  {
    if !callee.Fn? then Abrupt(RuntimeErr(paren, "Can only call functions and classes."), m)
    else if |args| != Arity(callee.f) then
      Abrupt(RuntimeErr(paren, "Expected " + DecimalString(Arity(callee.f)) + " arguments but got "
                               + DecimalString(|args|) + "."), m)
    else if fuel == 0 then Abrupt(OutOfFuel, m)
    else Invoke(callee.f, args, m, fuel - 1)
  }

  /** `call`: the body runs in the function's own scope; the call gives `null` unless
      the body ends abruptly, and then it ends the same way. */
  function Invoke(f: Callable, args: seq<Value>, m: Machine, fuel: nat): (r: Result<Value>)
    requires Arity(f) <= |args|
    ensures Keeps(m, r.after)
    decreases fuel, ListSize(f.body), 2
  {
    var b := ExecuteBlock(f.body, CallScope(f, args), m, fuel);
    if b.Abrupt? then Abrupt(b.signal, b.after) else Normal(Nil, b.after)
  }

  // ---------------------------------------------------------------- execution

  /** The state after a statement: the same scope chain, no name of the current scope
      lost, and the earlier output kept. */
  ghost predicate Extends(m: Machine, m': Machine)
  {
    && m'.env.enclosing == m.env.enclosing
    && m.env.values.Keys <= m'.env.values.Keys
    && m.output <= m'.output
    && m.nextId <= m'.nextId
  }

  lemma KeepsExtends(m: Machine, m': Machine)
    requires Keeps(m, m')
    ensures Extends(m, m')
  {
  }

  /** `execute`. */
  function Execute(s: Stmt, m: Machine, fuel: nat): (r: Result<()>)
    ensures Extends(m, r.after)
    decreases fuel, StmtSize(s), 1
  {
    match s
    case Expression(e) => ExecuteExpression(e, m, fuel)
    case Print(e) => ExecutePrint(e, m, fuel)
    case Var(name, init) => ExecuteVar(name, init, m, fuel)
    case Block(ss) => ExecuteBlock(ss, Env(map[], Some(m.env)), m, fuel)
    case If(cond, thenBranch, elseBranch) => ExecuteIf(cond, thenBranch, elseBranch, m, fuel)
    case While(cond, body) => ExecuteWhile(cond, body, m, fuel)
    case Function(name, params, body) =>
      var f := Callable(m.nextId, name, params, body);
      Normal((), m.(env := DefineIn(m.env, name.lexeme, Fn(f)), nextId := m.nextId + 1))
    case Return(value) => ExecuteReturn(value, m, fuel)
  }

  /** `visitExpressionStmt`: the value is dropped. */
  function ExecuteExpression(e: Expr, m: Machine, fuel: nat): (r: Result<()>)
    ensures Extends(m, r.after)
    decreases fuel, StmtSize(Expression(e)), 0
  {
    var v := Evaluate(e, m, fuel);
    if v.Abrupt? then Abrupt(v.signal, v.after) else Normal((), v.after)
  }

  /** `visitPrintStmt`: the value is appended to the output. */
  function ExecutePrint(e: Expr, m: Machine, fuel: nat): (r: Result<()>)
    ensures Extends(m, r.after)
    decreases fuel, StmtSize(Stmt.Print(e)), 0
  {
    var v := Evaluate(e, m, fuel);
    if v.Abrupt? then Abrupt(v.signal, v.after) else Normal((), v.after.(output := v.after.output + [v.value]))
  }

  /** `visitVarStmt`: the initializer, or `null` without one, defined in the current scope. */
  function ExecuteVar(name: Token, init: Option<Expr>, m: Machine, fuel: nat): (r: Result<()>)
    ensures Extends(m, r.after)
    decreases fuel, StmtSize(Stmt.Var(name, init)), 0
  {
    var v := if init.Some? then Evaluate(init.value, m, fuel) else Normal(Nil, m);
    if v.Abrupt? then Abrupt(v.signal, v.after)
    else Normal((), v.after.(env := DefineIn(v.after.env, name.lexeme, v.value)))
  }

  /** `visitIfStmt`. */
  function ExecuteIf(cond: Expr, thenBranch: Stmt, elseBranch: Option<Stmt>, m: Machine, fuel: nat): (r: Result<()>)
    ensures Extends(m, r.after)
    decreases fuel, StmtSize(Stmt.If(cond, thenBranch, elseBranch)), 0
  {
    var c := Evaluate(cond, m, fuel);
    if c.Abrupt? then Abrupt(c.signal, c.after)
    else if IsTruthy(c.value) then Execute(thenBranch, c.after, fuel)
    else if elseBranch.Some? then Execute(elseBranch.value, c.after, fuel)
    else Normal((), c.after)
  }

  /** `visitReturnStmt`: the value, or `null` without one, thrown as a return signal. */
  function ExecuteReturn(value: Option<Expr>, m: Machine, fuel: nat): (r: Result<()>)
    ensures Extends(m, r.after)
    decreases fuel, StmtSize(Stmt.Return(value)), 0
  {
    var v := if value.Some? then Evaluate(value.value, m, fuel) else Normal(Nil, m);
    if v.Abrupt? then Abrupt(v.signal, v.after) else Abrupt(ReturnSignal(v.value), v.after)
  }

  /** `visitWhileStmt`: the condition, and while it is truthy the body; each further
      round spends one unit of fuel. */
  function ExecuteWhile(cond: Expr, body: Stmt, m: Machine, fuel: nat): (r: Result<()>)
    ensures Extends(m, r.after)
    decreases fuel, StmtSize(Stmt.While(cond, body)), 0
  {
    var c := Evaluate(cond, m, fuel);
    if c.Abrupt? then Abrupt(c.signal, c.after)
    else if !IsTruthy(c.value) then Normal((), c.after)
    else
      var b := Execute(body, c.after, fuel);
      if b.Abrupt? then b
      else if fuel == 0 then Abrupt(OutOfFuel, b.after)
      else ExecuteWhile(cond, body, b.after, fuel - 1)
  }

  /** `executeBlock`: the statements run with `env` as the current scope, and the scope
      that was current before is current again afterwards, however they end. */
  function ExecuteBlock(ss: seq<Option<Stmt>>, env: Env, m: Machine, fuel: nat): (r: Result<()>)
    ensures r.after.env == m.env
    ensures m.output <= r.after.output && m.nextId <= r.after.nextId
    decreases fuel, ListSize(ss), 1
  {
    var b := ExecuteList(ss, m.(env := env), fuel);
    if b.Abrupt? then Abrupt(b.signal, b.after.(env := m.env)) else Normal((), b.after.(env := m.env))
  }

  /** The statements in order, stopping at the first abrupt one; a `None` entry is the
      null the parser keeps for a declaration that failed to parse. */
  function ExecuteList(ss: seq<Option<Stmt>>, m: Machine, fuel: nat): (r: Result<()>)
    ensures Extends(m, r.after)
    decreases fuel, ListSize(ss), 0
  {
    if ss == [] then Normal((), m)
    else
      var b := ExecuteList(ss[..|ss| - 1], m, fuel);
      if b.Abrupt? then b
      else if ss[|ss| - 1].None? then Abrupt(HostFailure(NullStatement), b.after)
      else Execute(ss[|ss| - 1].value, b.after, fuel)
  }

  // ---------------------------------------------------------------- interpret

  /** How `interpret` ends: normally; after reporting a RuntimeError; or with an
      exception it does not catch (a `return` outside a function, a host failure, or
      the fuel running out). */
  datatype Ending =
    | Finished
    | Reported(report: string)
    | Escaped(signal: Signal)

  datatype Run = Run(ending: Ending, after: Machine)

  /** `interpret`: the statements run in the current scope; the first RuntimeError
      stops the run and is reported. */
  function Interpret(ss: seq<Option<Stmt>>, m: Machine, fuel: nat): (r: Run)
    ensures Extends(m, r.after)
  {
    var b := ExecuteList(ss, m, fuel);
    if b.Normal? then Run(Finished, b.after)
    else if b.signal.RuntimeErr? then Run(Reported(RuntimeErrorReport(b.signal.message, b.signal.token.line)), b.after)
    else Run(Escaped(b.signal), b.after)
  }

  // ---------------------------------------------------------------- stringify

  /** Double.toString of a number, where `finiteText` gives the text of a finite one. */
  function DoubleText(n: Number, finiteText: real -> string): (t: string)
    ensures n.Finite? ==> t == finiteText(n.r)
    ensures n.PosInf? ==> t == "Infinity"
    ensures n.NegInf? ==> t == "-Infinity"
    ensures n.NaN? ==> t == "NaN"
  {
    match n
    case Finite(r) => finiteText(r)
    case PosInf => "Infinity"
    case NegInf => "-Infinity"
    case NaN => "NaN"
  }

  /** The text without a trailing ".0". */
  function StripPointZero(text: string): (t: string)
    ensures |text| >= 2 && text[|text| - 2..] == ".0" ==> t + ".0" == text
    ensures !(|text| >= 2 && text[|text| - 2..] == ".0") ==> t == text
  {
    if |text| >= 2 && text[|text| - 2..] == ".0" then text[..|text| - 2] else text
  }

  /** `stringify`: the text `print` writes for a value. */
  function Stringify(v: Value, finiteText: real -> string): (s: string)
    ensures v.Nil? ==> s == "null"
    ensures v.Bool? ==> s == if v.b then "true" else "false"
    ensures v.Str? ==> s == v.s
    ensures v.Num? && v.n.Finite? ==> s == finiteText(v.n.r) || s + ".0" == finiteText(v.n.r)
    ensures v.Num? && v.n.Finite? ==> s == StripPointZero(finiteText(v.n.r))
    ensures v.Num? && v.n.PosInf? ==> s == "Infinity"
    ensures v.Num? && v.n.NegInf? ==> s == "-Infinity"
    ensures v.Num? && v.n.NaN? ==> s == "NaN"
    ensures v.Fn? ==> s == ToString(v.f)
  {
    match v
    case Nil => "null"
    case Bool(b) => if b then "true" else "false"
    case Num(n) => StripPointZero(DoubleText(n, finiteText))
    case Str(s) => s
    case Fn(f) => ToString(f)
  }

  /** The lines `print` wrote. */
  function Transcript(output: seq<Value>, finiteText: real -> string): (lines: seq<string>)
    ensures |lines| == |output|
    ensures forall i :: 0 <= i < |output| ==> lines[i] == Stringify(output[i], finiteText)
  {
    if output == [] then [] else Transcript(output[..|output| - 1], finiteText) + [Stringify(output[|output| - 1], finiteText)]
  }
}
