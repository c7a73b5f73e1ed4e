/** What the recursive-descent parser computes, as functions of the token list and a
    cursor. A rule either succeeds with a value and the cursor after it, or raises the
    parse error with the cursor where it was thrown; both carry the errors the rule
    reported, in order. */
module Grammar {
  import opened Tokens
  import opened Reporting
  import opened Syntax

  /** The token lists the parser is given: non-empty and ending in EOF. */
  predicate WellFormed(ts: seq<Token>)
  {
    |ts| > 0 && ts[|ts| - 1].kind == EOF
  }

  datatype Parsed<T> =
    | Ok(value: T, pos: nat, diags: seq<Diagnostic>)
    | Fail(pos: nat, diags: seq<Diagnostic>)

  /** What every rule guarantees: the cursor stays on a token and never moves back, a
      success consumes at least one token, and a parse error comes with a report. */
  ghost predicate Sound<T>(ts: seq<Token>, pos: nat, r: Parsed<T>)
  {
    && pos <= r.pos < |ts|
    && (r.Ok? ==> r.pos > pos)
    && (r.Fail? ==> |r.diags| > 0)
  }

  // ---------------------------------------------------------------- cursor helpers

  predicate IsAtEnd(ts: seq<Token>, pos: nat)
    requires pos < |ts|
  {
    ts[pos].kind == EOF
  }

  /** The current token has kind `t`; never true at the end. */
  predicate Check(ts: seq<Token>, pos: nat, t: TokenType)
    requires pos < |ts|
  {
    if IsAtEnd(ts, pos) then false else ts[pos].kind == t
  }

  /** The cursor after `advance`: one step on, except at the end. */
  function Advance(ts: seq<Token>, pos: nat): (p: nat)
    requires WellFormed(ts) && pos < |ts|
    ensures p < |ts|
    ensures p == (if ts[pos].kind == EOF then pos else pos + 1)
  {
    if !IsAtEnd(ts, pos) then pos + 1 else pos
  }

  /** The cursor after `match(kinds)`: advanced by one exactly when the current token is
      not EOF and has one of the kinds. */
  function Match(ts: seq<Token>, pos: nat, kinds: seq<TokenType>): (p: nat)
    requires WellFormed(ts) && pos < |ts|
    ensures p < |ts|
    ensures p == pos + 1 <==> ts[pos].kind != EOF && ts[pos].kind in kinds
    ensures p == pos <==> !(ts[pos].kind != EOF && ts[pos].kind in kinds)
  {
    if !IsAtEnd(ts, pos) && ts[pos].kind in kinds then pos + 1 else pos
  }

  /** `consume(t, message)`: the current token when it has kind `t`, otherwise the error
      `message` reported at the current token. */
  function Consume(ts: seq<Token>, pos: nat, t: TokenType, message: string): (r: Parsed<Token>)
    requires WellFormed(ts) && pos < |ts|
    ensures Sound(ts, pos, r)
    ensures r.Ok? <==> Check(ts, pos, t)
    ensures r.Ok? ==> r.value == ts[pos] && r.pos == pos + 1 && r.diags == []
    ensures r.Fail? ==> r.pos == pos && r.diags == [ErrorAtToken(ts[pos], message)]
  {
    if Check(ts, pos, t) then Ok(ts[pos], Advance(ts, pos), [])
    else Fail(pos, [ErrorAtToken(ts[pos], message)])
  }

  // ---------------------------------------------------------------- recovery

  /** The kinds that start a statement, before which `synchronize` stops. */
  const StatementStarts: set<TokenType> := {Fun, TokenType.Var, For, TokenType.If, TokenType.While, TokenType.Print, TokenType.Return}

  /** Where `synchronize` may stop: at the end, just after a ';', or before a statement
      keyword. */
  predicate SyncPoint(ts: seq<Token>, pos: nat)
    requires 0 < pos < |ts|
  {
    IsAtEnd(ts, pos) || ts[pos - 1].kind == Semicolon || ts[pos].kind in StatementStarts
  }

  /** `synchronize`: skip the token where the error was raised, then stop at the first
      synchronisation point. At the very start of the list the token is never EOF. */
  function Synchronize(ts: seq<Token>, pos: nat): (p: nat)
    requires WellFormed(ts) && pos < |ts| && (pos > 0 || !IsAtEnd(ts, pos))
    ensures 0 < p < |ts| && pos <= p && SyncPoint(ts, p)
    ensures !IsAtEnd(ts, pos) ==> p > pos
    ensures forall k :: Advance(ts, pos) <= k < p ==> !SyncPoint(ts, k)
  {
    SyncLoop(ts, Advance(ts, pos))
  }

  /** The loop of `synchronize` from cursor `pos`, at least one token in. */
  function SyncLoop(ts: seq<Token>, pos: nat): (p: nat)
    requires WellFormed(ts) && 0 < pos < |ts|
    ensures pos <= p < |ts| && SyncPoint(ts, p)
    ensures forall k :: pos <= k < p ==> !SyncPoint(ts, k)
    decreases |ts| - pos
  {
    if IsAtEnd(ts, pos) then pos
    else if ts[pos - 1].kind == Semicolon then pos
    else if ts[pos].kind in StatementStarts then pos
    else SyncLoop(ts, pos + 1)
  }

  // ---------------------------------------------------------------- precedence

  /** The four left-associative binary levels, loosest first. */
  datatype Level = Equality | Comparison | Term | Factor

  function Operators(level: Level): seq<TokenType>
  {
    match level
    case Equality => [BangEqual, EqualEqual]
    case Comparison => [Greater, GreaterEqual, Less, LessEqual]
    case Term => [Minus, Plus]
    case Factor => [Slash, Star]
  }

  /** Binding strength of a level: the larger, the looser. */
  function LevelPrec(level: Level): (n: nat)
    ensures 1 <= n <= 4
  {
    match level
    case Equality => 4
    case Comparison => 3
    case Term => 2
    case Factor => 1
  }

  /** The level whose rule parses the operands of `level`'s rule. */
  function Next(level: Level): (next: Level)
    requires level != Factor
    ensures LevelPrec(next) == LevelPrec(level) - 1
  {
    match level
    case Equality => Comparison
    case Comparison => Term
    case Term => Factor
  }

  /** The binding strength of a binary operator kind; 0 for any other kind. */
  function OpPrec(kind: TokenType): (n: nat)
    ensures n <= 4
  {
    if kind in {BangEqual, EqualEqual} then 4
    else if kind in {Greater, GreaterEqual, Less, LessEqual} then 3
    else if kind in {Minus, Plus} then 2
    else if kind in {Slash, Star} then 1
    else 0
  }

  /** A kind is an operator of a level exactly when it binds as the level does. */
  lemma OperatorOfLevel(kind: TokenType, level: Level)
    ensures kind in Operators(level) <==> OpPrec(kind) == LevelPrec(level)
  {
  }

  /** How loosely an expression binds at its root: an assignment loosest, a binary node
      by its operator, everything else (including a parenthesised expression) not at all. */
  function Prec(e: Expr): nat
  {
    match e
    case Assign(_, _) => 5
    case Binary(_, op, _) => OpPrec(op.kind)
    case _ => 0
  }

  /** The trees the parser builds: a binary node's left operand binds no looser than the
      node and its right operand strictly tighter (precedence and left associativity),
      unary operands bind tightest, an assignment target is a plain name and its value
      any expression (right associativity); `Logical` and `Call` are never built. */
  ghost predicate WellBracketed(e: Expr)
  {
    match e
    case Literal(_) => true
    case Grouping(inner) => WellBracketed(inner)
    case Unary(op, right) => op.kind in {Bang, Minus} && Prec(right) == 0 && WellBracketed(right)
    case Binary(left, op, right) =>
      && OpPrec(op.kind) > 0
      && Prec(left) <= OpPrec(op.kind) && Prec(right) < OpPrec(op.kind)
      && WellBracketed(left) && WellBracketed(right)
    case Variable(name) => name.kind == Identifier
    case Assign(name, value) => name.kind == Identifier && WellBracketed(value)
    case Logical(_, _, _) => false
    case Call(_, _, _) => false
  }

  // ---------------------------------------------------------------- expressions

  /** expression -> assignment */
  function ParseExpression(ts: seq<Token>, pos: nat): (r: Parsed<Expr>)
    requires WellFormed(ts) && pos < |ts|
    ensures Sound(ts, pos, r)
    decreases |ts| - pos, 11
  {
    ParseAssignment(ts, pos)
  }

  /** assignment -> equality ( "=" assignment )?; a target other than a name reports
      "Invalid assignment target." at the '=' and keeps the left side. */
  function ParseAssignment(ts: seq<Token>, pos: nat): (r: Parsed<Expr>)
    requires WellFormed(ts) && pos < |ts|
    ensures Sound(ts, pos, r)
    decreases |ts| - pos, 10
  {
    var left := ParseBinary(Equality, ts, pos);
    if left.Fail? then left
    else
      var p := Match(ts, left.pos, [Equal]);
      if p == left.pos then left
      else
        var equals := ts[left.pos];
        var value := ParseAssignment(ts, p);
        if value.Fail? then Fail(value.pos, left.diags + value.diags)
        else if left.value.Variable? then
          Ok(Assign(left.value.name, value.value), value.pos, left.diags + value.diags)
        else
          Ok(left.value, value.pos,
             left.diags + value.diags + [ErrorAtToken(equals, "Invalid assignment target.")])
  }

  /** equality, comparison, term and factor: an operand, then any number of
      (operator operand) pairs folded to the left. */
  function ParseBinary(level: Level, ts: seq<Token>, pos: nat): (r: Parsed<Expr>)
    requires WellFormed(ts) && pos < |ts|
    ensures Sound(ts, pos, r)
    decreases |ts| - pos, 2 * LevelPrec(level) + 1
  {
    var left := ParseOperand(level, ts, pos);
    if left.Fail? then left
    else ParseBinaryRest(level, ts, left.pos, left.value, left.diags)
  }

  /** The rule one level tighter than `level`. */
  function ParseOperand(level: Level, ts: seq<Token>, pos: nat): (r: Parsed<Expr>)
    requires WellFormed(ts) && pos < |ts|
    ensures Sound(ts, pos, r)
    decreases |ts| - pos, 2 * LevelPrec(level)
  {
    if level == Factor then ParseUnary(ts, pos) else ParseBinary(Next(level), ts, pos)
  }

  /** The loop of a binary level: `left` and `diags` are what was parsed so far. */
  function ParseBinaryRest(level: Level, ts: seq<Token>, pos: nat, left: Expr, diags: seq<Diagnostic>): (r: Parsed<Expr>)
    requires WellFormed(ts) && pos < |ts|
    ensures pos <= r.pos < |ts|
    ensures r.Fail? ==> |r.diags| > 0
    decreases |ts| - pos, 2 * LevelPrec(level) + 1
  {
    var p := Match(ts, pos, Operators(level));
    if p == pos then Ok(left, pos, diags)
    else
      var operator := ts[pos];
      var right := ParseOperand(level, ts, p);
      if right.Fail? then Fail(right.pos, diags + right.diags)
      else ParseBinaryRest(level, ts, right.pos, Binary(left, operator, right.value), diags + right.diags)
  }

  /** One turn of a binary level's loop: the loop stops when the operator is missing,
      fails when the operand fails, and otherwise goes on with the folded tree. */
  lemma BinaryRestStep(level: Level, ts: seq<Token>, pos: nat, left: Expr, diags: seq<Diagnostic>)
    requires WellFormed(ts) && pos < |ts|
    ensures var r := ParseBinaryRest(level, ts, pos, left, diags);
      var p := Match(ts, pos, Operators(level));
      if p == pos then r == Ok(left, pos, diags)
      else
        var right := ParseOperand(level, ts, p);
        if right.Fail? then r == Fail(right.pos, diags + right.diags)
        else r == ParseBinaryRest(level, ts, right.pos, Binary(left, ts[pos], right.value), diags + right.diags)
  {
  }

  /** unary -> ( "!" | "-" ) unary | primary */
  function ParseUnary(ts: seq<Token>, pos: nat): (r: Parsed<Expr>)
    requires WellFormed(ts) && pos < |ts|
    ensures Sound(ts, pos, r)
    decreases |ts| - pos, 1
  {
    var p := Match(ts, pos, [Bang, Minus]);
    if p == pos then ParsePrimary(ts, pos)
    else
      var right := ParseUnary(ts, p);
      if right.Fail? then right
      else Ok(Unary(ts[pos], right.value), right.pos, right.diags)
  }

  /** primary -> NUMBER | STRING | IDENTIFIER | "false" | "true" | "null" | "(" expression ")" */
  function ParsePrimary(ts: seq<Token>, pos: nat): (r: Parsed<Expr>)
    requires WellFormed(ts) && pos < |ts|
    ensures Sound(ts, pos, r)
    decreases |ts| - pos, 0
  {
    if Match(ts, pos, [LeftParen]) > pos then ParseGrouping(ts, pos + 1) else ParseAtom(ts, pos)
  }

  /** The one-token primaries; any other token is the error "Expect expression.". */
  function ParseAtom(ts: seq<Token>, pos: nat): (r: Parsed<Expr>)
    requires WellFormed(ts) && pos < |ts|
    ensures Sound(ts, pos, r)
    ensures r.Fail? <==> ts[pos].kind !in {Number, String, Identifier, False, True, Null}
    ensures r.Ok? ==> r.pos == pos + 1 && r.diags == []
    ensures r.Fail? ==> r.pos == pos && r.diags == [ErrorAtToken(ts[pos], "Expect expression.")]
    ensures ts[pos].kind in {Number, String} ==> r.Ok? && r.value == Literal(ts[pos].literal)
    ensures ts[pos].kind == Identifier ==> r.Ok? && r.value == Variable(ts[pos])
    ensures ts[pos].kind == False ==> r.Ok? && r.value == Literal(BoolLit(false))
    ensures ts[pos].kind == True ==> r.Ok? && r.value == Literal(BoolLit(true))
    ensures ts[pos].kind == Null ==> r.Ok? && r.value == Literal(NullLit)
  {
    if Match(ts, pos, [Number, String]) > pos then Ok(Literal(ts[pos].literal), pos + 1, [])
    else if Match(ts, pos, [Identifier]) > pos then Ok(Variable(ts[pos]), pos + 1, [])
    else if Match(ts, pos, [False]) > pos then Ok(Literal(BoolLit(false)), pos + 1, [])
    else if Match(ts, pos, [True]) > pos then Ok(Literal(BoolLit(true)), pos + 1, [])
    else if Match(ts, pos, [Null]) > pos then Ok(Literal(NullLit), pos + 1, [])
    else Fail(pos, [ErrorAtToken(ts[pos], "Expect expression.")])
  }

  /** "(" expression ")", from after "(". */
  function ParseGrouping(ts: seq<Token>, pos: nat): (r: Parsed<Expr>)
    requires WellFormed(ts) && pos < |ts|
    ensures Sound(ts, pos, r)
    ensures r.Ok? ==> r.value.Grouping?
    decreases |ts| - pos, 12
  {
    var inner := ParseExpression(ts, pos);
    if inner.Fail? then inner
    else
      var close := Consume(ts, inner.pos, RightParen, "Expect ')' after expression.");
      if close.Fail? then Fail(close.pos, inner.diags + close.diags)
      else Ok(Grouping(inner.value), close.pos, inner.diags)
  }

  // ---------------------------------------------------------------- statements

  /** declaration -> varDecl | statement; a parse error is caught here: the parser
      synchronises and the declaration is `None`. Only called off the end, where it
      always consumes a token. */
  function ParseDeclaration(ts: seq<Token>, pos: nat): (r: Parsed<Option<Stmt>>)
    requires WellFormed(ts) && pos < |ts| && !IsAtEnd(ts, pos)
    ensures r.Ok? && Sound(ts, pos, r)
    ensures r.value.None? ==> |r.diags| > 0 && SyncPoint(ts, r.pos)
    decreases |ts| - pos, 14
  {
    var p := Match(ts, pos, [TokenType.Var]);
    var s := if p > pos then ParseVarDeclaration(ts, p) else ParseStatement(ts, pos);
    if s.Ok? then Ok(Some(s.value), s.pos, s.diags)
    else Ok(None, Synchronize(ts, s.pos), s.diags)
  }

  /** varDecl -> "var" IDENTIFIER ( "=" expression )? ";", from after "var". */
  function ParseVarDeclaration(ts: seq<Token>, pos: nat): (r: Parsed<Stmt>)
    requires WellFormed(ts) && pos < |ts|
    ensures Sound(ts, pos, r)
    ensures r.Ok? ==> r.value.Var? && r.value.name == ts[pos] && r.value.name.kind == Identifier
    decreases |ts| - pos, 12
  {
    var name := Consume(ts, pos, Identifier, "Expect variable name.");
    if name.Fail? then Fail(name.pos, name.diags)
    else
      var p := Match(ts, name.pos, [Equal]);
      if p == name.pos then
        VarEnd(ts, name.pos, name.value, None, [])
      else
        var init := ParseExpression(ts, p);
        if init.Fail? then Fail(init.pos, init.diags)
        else VarEnd(ts, init.pos, name.value, Some(init.value), init.diags)
  }

  /** The closing ';' of a variable declaration. */
  function VarEnd(ts: seq<Token>, pos: nat, name: Token, init: Option<Expr>, diags: seq<Diagnostic>): (r: Parsed<Stmt>)
    requires WellFormed(ts) && pos < |ts|
    ensures pos <= r.pos <= pos + 1
    ensures r.Ok? <==> Check(ts, pos, Semicolon)
    ensures r.Ok? ==> r.value == Stmt.Var(name, init) && r.diags == diags
    ensures r.Fail? ==> r.diags == diags + [ErrorAtToken(ts[pos], "Expect ';' after variable declaration.")]
  {
    var semi := Consume(ts, pos, Semicolon, "Expect ';' after variable declaration.");
    if semi.Fail? then Fail(semi.pos, diags + semi.diags) else Ok(Stmt.Var(name, init), semi.pos, diags)
  }

  /** statement -> printStmt | ifStmt | block | exprStmt */
  function ParseStatement(ts: seq<Token>, pos: nat): (r: Parsed<Stmt>)
    requires WellFormed(ts) && pos < |ts|
    ensures Sound(ts, pos, r)
    decreases |ts| - pos, 13
  {
    if Match(ts, pos, [TokenType.Print]) > pos then ParsePrint(ts, pos + 1)
    else if Match(ts, pos, [TokenType.If]) > pos then ParseIf(ts, pos + 1)
    else if Match(ts, pos, [LeftBrace]) > pos then ParseBlock(ts, pos + 1)
    else ParseExpressionStatement(ts, pos)
  }

  /** ifStmt -> "if" "(" expression ")" statement ( "else" statement )?, from after "if". */
  function ParseIf(ts: seq<Token>, pos: nat): (r: Parsed<Stmt>)
    requires WellFormed(ts) && pos < |ts|
    ensures Sound(ts, pos, r)
    ensures r.Ok? ==> r.value.If?
    decreases |ts| - pos, 12
  {
    var open := Consume(ts, pos, LeftParen, "Expect '(' after 'if'.");
    if open.Fail? then Fail(open.pos, open.diags)
    else
      var condition := ParseExpression(ts, open.pos);
      if condition.Fail? then Fail(condition.pos, condition.diags)
      else
        var close := Consume(ts, condition.pos, RightParen, "Expect ')' after if condition.");
        if close.Fail? then Fail(close.pos, condition.diags + close.diags)
        else ParseBranches(ts, close.pos, condition.value, condition.diags)
  }

  /** The branches of an if statement, after its condition. */
  function ParseBranches(ts: seq<Token>, pos: nat, condition: Expr, diags: seq<Diagnostic>): (r: Parsed<Stmt>)
    requires WellFormed(ts) && pos < |ts|
    ensures Sound(ts, pos, r)
    ensures r.Ok? ==> r.value.If? && r.value.condition == condition
    decreases |ts| - pos, 14
  {
    var thenBranch := ParseStatement(ts, pos);
    if thenBranch.Fail? then Fail(thenBranch.pos, diags + thenBranch.diags)
    else
      var p := Match(ts, thenBranch.pos, [Else]);
      if p == thenBranch.pos then
        Ok(Stmt.If(condition, thenBranch.value, None), thenBranch.pos, diags + thenBranch.diags)
      else
        var elseBranch := ParseStatement(ts, p);
        if elseBranch.Fail? then Fail(elseBranch.pos, diags + thenBranch.diags + elseBranch.diags)
        else Ok(Stmt.If(condition, thenBranch.value, Some(elseBranch.value)),
                elseBranch.pos, diags + thenBranch.diags + elseBranch.diags)
  }

  /** printStmt -> "print" expression ";", from after "print". */
  function ParsePrint(ts: seq<Token>, pos: nat): (r: Parsed<Stmt>)
    requires WellFormed(ts) && pos < |ts|
    ensures Sound(ts, pos, r)
    decreases |ts| - pos, 12
  {
    var value := ParseExpression(ts, pos);
    if value.Fail? then Fail(value.pos, value.diags)
    else
      var semi := Consume(ts, value.pos, Semicolon, "Expect ';' after value.");
      if semi.Fail? then Fail(semi.pos, value.diags + semi.diags)
      else Ok(Stmt.Print(value.value), semi.pos, value.diags)
  }

  /** block -> "{" declaration* "}", from after "{". */
  function ParseBlock(ts: seq<Token>, pos: nat): (r: Parsed<Stmt>)
    requires WellFormed(ts) && pos < |ts|
    ensures Sound(ts, pos, r)
    ensures r.Ok? ==> r.value.Block?
    decreases |ts| - pos, 16
  {
    ParseBlockRest(ts, pos, [], [])
  }

  /** The loop of `block`: declarations until '}' or the end, then the '}'. */
  function ParseBlockRest(ts: seq<Token>, pos: nat, statements: seq<Option<Stmt>>, diags: seq<Diagnostic>): (r: Parsed<Stmt>)
    requires WellFormed(ts) && pos < |ts|
    ensures Sound(ts, pos, r)
    ensures r.Ok? ==> r.value.Block? && |r.value.statements| >= |statements|
    ensures r.Ok? ==> statements <= r.value.statements
    ensures diags <= r.diags
    decreases |ts| - pos, 15
  {
    if !Check(ts, pos, RightBrace) && !IsAtEnd(ts, pos) then
      var d := ParseDeclaration(ts, pos);
      ParseBlockRest(ts, d.pos, statements + [d.value], diags + d.diags)
    else
      var close := Consume(ts, pos, RightBrace, "Expect '}' after block.");
      if close.Fail? then Fail(close.pos, diags + close.diags)
      else Ok(Block(statements), close.pos, diags)
  }

  /** exprStmt -> expression ";" */
  function ParseExpressionStatement(ts: seq<Token>, pos: nat): (r: Parsed<Stmt>)
    requires WellFormed(ts) && pos < |ts|
    ensures Sound(ts, pos, r)
    decreases |ts| - pos, 12
  {
    var value := ParseExpression(ts, pos);
    if value.Fail? then Fail(value.pos, value.diags)
    else
      var semi := Consume(ts, value.pos, Semicolon, "Expect ';' after expression.");
      if semi.Fail? then Fail(semi.pos, value.diags + semi.diags)
      else Ok(Stmt.Expression(value.value), semi.pos, value.diags)
  }

  // ---------------------------------------------------------------- programs

  /** `parse`: declarations until the end of the token list. */
  function ParseProgram(ts: seq<Token>): (r: (seq<Option<Stmt>>, seq<Diagnostic>))
    requires WellFormed(ts)
    ensures |r.0| <= |ts| - 1
  {
    ParseFrom(ts, 0, [], [])
  }

  /** The loop of `parse` from cursor `pos`, with the statements and errors so far. */
  function ParseFrom(ts: seq<Token>, pos: nat, statements: seq<Option<Stmt>>, diags: seq<Diagnostic>): (r: (seq<Option<Stmt>>, seq<Diagnostic>))
    requires WellFormed(ts) && pos < |ts|
    ensures statements <= r.0 && diags <= r.1
    ensures |r.0| <= |statements| + (|ts| - 1 - pos)
    decreases |ts| - pos
  {
    if IsAtEnd(ts, pos) then (statements, diags)
    else
      var d := ParseDeclaration(ts, pos);
      ParseFrom(ts, d.pos, statements + [d.value], diags + d.diags)
  }
}
