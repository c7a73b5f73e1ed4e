/** The parser as the source writes it: rule methods that call each other and loop over
    the token list. The source keeps its cursor in a field that the rules advance; here
    each rule method takes the cursor where it starts and returns, inside its result, the
    cursor where it stops. A thrown parse error is a `Fail` result, and the errors the
    source prints through its error reporter come back as the result's diagnostics, in
    order. Each method is proved to return what the corresponding function of the
    Grammar module describes. */
module Parsing {
  import opened Tokens
  import opened Reporting
  import opened Syntax
  import opened Grammar

  class Parser {
    const tokens: seq<Token>

    constructor (tokens: seq<Token>)
      requires WellFormed(tokens)
      ensures this.tokens == tokens
    {
      this.tokens := tokens;
    }

    /** A cursor on one of the tokens of a well-formed list. */
    predicate At(current: nat)
    {
      WellFormed(tokens) && current < |tokens|
    }

    /** `parse`: declarations until the end; a failed declaration is kept as `None`. */
    method Parse() returns (statements: seq<Option<Stmt>>, reported: seq<Diagnostic>)
      requires WellFormed(tokens)
      ensures (statements, reported) == ParseProgram(tokens)
    {
      var current := 0;
      statements, reported := [], [];
      while !IsAtEnd(current)
        invariant At(current)
        invariant ParseFrom(tokens, current, statements, reported) == ParseProgram(tokens)
        decreases |tokens| - current
      {
        var d := Declaration(current);
        statements, reported, current := statements + [d.value], reported + d.diags, d.pos;
      }
    }

    // -------------------------------------------------------------- declarations

    method Declaration(current: nat) returns (r: Parsed<Option<Stmt>>)
      requires At(current) && !IsAtEnd(current)
      ensures r == ParseDeclaration(tokens, current)
      decreases |tokens| - current, 14
    {
      var m := Match([TokenType.Var], current);
      var s;
      if m {
        s := VarDeclaration(current + 1);
      } else {
        s := Statement(current);
      }
      if s.Ok? {
        return Ok(Some(s.value), s.pos, s.diags);
      }
      var next := Synchronize(s.pos);
      return Ok(None, next, s.diags);
    }

    method VarDeclaration(current: nat) returns (r: Parsed<Stmt>)
      requires At(current)
      ensures r == ParseVarDeclaration(tokens, current)
      decreases |tokens| - current, 12
    {
      var name := Consume(Identifier, "Expect variable name.", current);
      if name.Fail? {
        return Fail(name.pos, name.diags);
      }
      var initializer: Option<Expr> := None;
      var pos, reported := name.pos, [];
      var m := Match([Equal], pos);
      if m {
        var value := Expression(pos + 1);
        if value.Fail? {
          return Fail(value.pos, value.diags);
        }
        initializer, pos, reported := Some(value.value), value.pos, value.diags;
      }
      var semi := Consume(Semicolon, "Expect ';' after variable declaration.", pos);
      if semi.Fail? {
        return Fail(semi.pos, reported + semi.diags);
      }
      return Ok(Stmt.Var(name.value, initializer), semi.pos, reported);
    }

    method Statement(current: nat) returns (r: Parsed<Stmt>)
      requires At(current)
      ensures r == ParseStatement(tokens, current)
      decreases |tokens| - current, 13
    {
      var m := Match([TokenType.Print], current);
      if m {
        r := PrintStatement(current + 1);
        return;
      }
      m := Match([TokenType.If], current);
      if m {
        r := IfStatement(current + 1);
        return;
      }
      m := Match([LeftBrace], current);
      if m {
        r := Block(current + 1);
        return;
      }
      r := ExpressionStatement(current);
    }

    method IfStatement(current: nat) returns (r: Parsed<Stmt>)
      requires At(current)
      ensures r == ParseIf(tokens, current)
      decreases |tokens| - current, 12
    {
      var open := Consume(LeftParen, "Expect '(' after 'if'.", current);
      if open.Fail? {
        return Fail(open.pos, open.diags);
      }
      var condition := Expression(open.pos);
      if condition.Fail? {
        return Fail(condition.pos, condition.diags);
      }
      var close := Consume(RightParen, "Expect ')' after if condition.", condition.pos);
      if close.Fail? {
        return Fail(close.pos, condition.diags + close.diags);
      }
      r := Branches(condition.value, condition.diags, close.pos);
    }

    /** The rest of `ifStatement`: the then branch and an optional else branch. */
    method Branches(condition: Expr, reported: seq<Diagnostic>, current: nat) returns (r: Parsed<Stmt>)
      requires At(current)
      ensures r == ParseBranches(tokens, current, condition, reported)
      decreases |tokens| - current, 14
    {
      var thenBranch := Statement(current);
      if thenBranch.Fail? {
        return Fail(thenBranch.pos, reported + thenBranch.diags);
      }
      var m := Match([Else], thenBranch.pos);
      if !m {
        return Ok(Stmt.If(condition, thenBranch.value, None), thenBranch.pos, reported + thenBranch.diags);
      }
      var elseBranch := Statement(thenBranch.pos + 1);
      if elseBranch.Fail? {
        return Fail(elseBranch.pos, reported + thenBranch.diags + elseBranch.diags);
      }
      return Ok(Stmt.If(condition, thenBranch.value, Some(elseBranch.value)),
                elseBranch.pos, reported + thenBranch.diags + elseBranch.diags);
    }

    method PrintStatement(current: nat) returns (r: Parsed<Stmt>)
      requires At(current)
      ensures r == ParsePrint(tokens, current)
      decreases |tokens| - current, 12
    {
      var value := Expression(current);
      if value.Fail? {
        return Fail(value.pos, value.diags);
      }
      var semi := Consume(Semicolon, "Expect ';' after value.", value.pos);
      if semi.Fail? {
        return Fail(semi.pos, value.diags + semi.diags);
      }
      return Ok(Stmt.Print(value.value), semi.pos, value.diags);
    }

    /** The declarations of a block up to '}' or the end, then the '}'. */
    method Block(current: nat) returns (r: Parsed<Stmt>)
      requires At(current)
      ensures r == ParseBlock(tokens, current)
      decreases |tokens| - current, 16
    {
      var statements: seq<Option<Stmt>> := [];
      var pos, reported := current, [];
      while !Check(RightBrace, pos) && !IsAtEnd(pos)
        invariant current <= pos && At(pos)
        invariant ParseBlockRest(tokens, pos, statements, reported) == ParseBlock(tokens, current)
        decreases |tokens| - pos
      {
        var d := Declaration(pos);
        statements, reported, pos := statements + [d.value], reported + d.diags, d.pos;
      }
      var close := Consume(RightBrace, "Expect '}' after block.", pos);
      if close.Fail? {
        return Fail(close.pos, reported + close.diags);
      }
      return Ok(Stmt.Block(statements), close.pos, reported);
    }

    method ExpressionStatement(current: nat) returns (r: Parsed<Stmt>)
      requires At(current)
      ensures r == ParseExpressionStatement(tokens, current)
      decreases |tokens| - current, 12
    {
      var value := Expression(current);
      if value.Fail? {
        return Fail(value.pos, value.diags);
      }
      var semi := Consume(Semicolon, "Expect ';' after expression.", value.pos);
      if semi.Fail? {
        return Fail(semi.pos, value.diags + semi.diags);
      }
      return Ok(Stmt.Expression(value.value), semi.pos, value.diags);
    }

    // -------------------------------------------------------------- expressions

    method Expression(current: nat) returns (r: Parsed<Expr>)
      requires At(current)
      ensures r == ParseExpression(tokens, current)
      decreases |tokens| - current, 11
    {
      r := Assignment(current);
    }

    method Assignment(current: nat) returns (r: Parsed<Expr>)
      requires At(current)
      ensures r == ParseAssignment(tokens, current)
      decreases |tokens| - current, 10
    {
      var left := Binary(Equality, current);
      if left.Fail? {
        return left;
      }
      var m := Match([Equal], left.pos);
      if !m {
        return left;
      }
      var equals := tokens[left.pos];
      var value := Assignment(left.pos + 1);
      if value.Fail? {
        return Fail(value.pos, left.diags + value.diags);
      }
      if left.value.Variable? {
        return Ok(Assign(left.value.name, value.value), value.pos, left.diags + value.diags);
      }
      return Ok(left.value, value.pos,
                left.diags + value.diags + [ErrorAtToken(equals, "Invalid assignment target.")]);
    }

    /** equality, comparison, term and factor, which differ only in their operators and
        in the rule for their operands. */
    method Binary(level: Level, current: nat) returns (r: Parsed<Expr>)
      requires At(current)
      ensures r == ParseBinary(level, tokens, current)
      decreases |tokens| - current, 2 * LevelPrec(level) + 1
    {
      var left := Operand(level, current);
      if left.Fail? {
        return left;
      }
      var expr, pos, reported := left.value, left.pos, left.diags;
      while true
        invariant current < pos && At(pos)
        invariant ParseBinaryRest(level, tokens, pos, expr, reported) == ParseBinary(level, tokens, current)
        decreases |tokens| - pos
      {
        BinaryRestStep(level, tokens, pos, expr, reported);
        var m := Match(Operators(level), pos);
        if !m {
          return Ok(expr, pos, reported);
        }
        var operator := tokens[pos];
        var right := Operand(level, pos + 1);
        if right.Fail? {
          return Fail(right.pos, reported + right.diags);
        }
        expr, pos, reported := Syntax.Binary(expr, operator, right.value), right.pos, reported + right.diags;
      }
    }

    /** The rule one level tighter than `level`. */
    method Operand(level: Level, current: nat) returns (r: Parsed<Expr>)
      requires At(current)
      ensures r == ParseOperand(level, tokens, current)
      decreases |tokens| - current, 2 * LevelPrec(level)
    {
      if level == Factor {
        r := Unary(current);
      } else {
        r := Binary(Next(level), current);
      }
    }

    method Unary(current: nat) returns (r: Parsed<Expr>)
      requires At(current)
      ensures r == ParseUnary(tokens, current)
      decreases |tokens| - current, 1
    {
      var m := Match([Bang, Minus], current);
      if !m {
        r := Primary(current);
        return;
      }
      var operator := tokens[current];
      var right := Unary(current + 1);
      if right.Fail? {
        return right;
      }
      return Ok(Syntax.Unary(operator, right.value), right.pos, right.diags);
    }

    method Primary(current: nat) returns (r: Parsed<Expr>)
      requires At(current)
      ensures r == ParsePrimary(tokens, current)
      decreases |tokens| - current, 0
    {
      var m := Match([LeftParen], current);
      if m {
        r := Grouping(current + 1);
      } else {
        r := Atom(current);
      }
    }

    /** The one-token primaries, tried in the source's order. */
    method Atom(current: nat) returns (r: Parsed<Expr>)
      requires At(current)
      ensures r == ParseAtom(tokens, current)
    {
      var m := Match([Number, String], current);
      if m {
        return Ok(Literal(tokens[current].literal), current + 1, []);
      }
      m := Match([Identifier], current);
      if m {
        return Ok(Variable(tokens[current]), current + 1, []);
      }
      m := Match([False], current);
      if m {
        return Ok(Literal(BoolLit(false)), current + 1, []);
      }
      m := Match([True], current);
      if m {
        return Ok(Literal(BoolLit(true)), current + 1, []);
      }
      m := Match([Null], current);
      if m {
        return Ok(Literal(NullLit), current + 1, []);
      }
      return Fail(current, [ErrorAtToken(tokens[current], "Expect expression.")]);
    }

    /** The rest of "(" expression ")". */
    method Grouping(current: nat) returns (r: Parsed<Expr>)
      requires At(current)
      ensures r == ParseGrouping(tokens, current)
      decreases |tokens| - current, 12
    {
      var inner := Expression(current);
      if inner.Fail? {
        return inner;
      }
      var close := Consume(RightParen, "Expect ')' after expression.", inner.pos);
      if close.Fail? {
        return Fail(close.pos, inner.diags + close.diags);
      }
      return Ok(Syntax.Grouping(inner.value), close.pos, inner.diags);
    }

    // -------------------------------------------------------------- helpers

    /** `consume`: the current token when it has kind `t`; otherwise `message` is
        reported at the current token (the source's `error`) and the parse error is
        raised. */
    method Consume(t: TokenType, message: string, current: nat) returns (r: Parsed<Token>)
      requires At(current)
      ensures r == Grammar.Consume(tokens, current, t, message)
    {
      if Check(t, current) {
        var next := Advance(current);
        return Ok(tokens[current], next, []);
      }
      return Fail(current, [ErrorAtToken(tokens[current], message)]);
    }

    /** `synchronize`: skips tokens after a parse error up to a likely statement
        boundary. */
    method Synchronize(current: nat) returns (next: nat)
      requires At(current) && (current > 0 || !IsAtEnd(current))
      ensures next == Grammar.Synchronize(tokens, current)
    {
      next := Advance(current);
      while !IsAtEnd(next)
        invariant At(next) && 0 < next
        invariant SyncLoop(tokens, next) == Grammar.Synchronize(tokens, current)
        decreases |tokens| - next
      {
        if tokens[next - 1].kind == Semicolon {
          return;
        }
        if tokens[next].kind in StatementStarts {
          return;
        }
        next := Advance(next);
      }
    }

    /** The test of `match`: tries the kinds in order and stops at the first that the
        current token has. The source's `match` then advances over that token, which the
        callers here do by going on from the next cursor. */
    method Match(kinds: seq<TokenType>, current: nat) returns (matched: bool)
      requires At(current)
      ensures matched <==> Grammar.Match(tokens, current, kinds) == current + 1
    {
      for i := 0 to |kinds|
        invariant forall j :: 0 <= j < i ==> !Check(kinds[j], current)
      {
        if Check(kinds[i], current) {
          return true;
        }
      }
      return false;
    }

    /** `advance`: the cursor one token on, except at the end. */
    method Advance(current: nat) returns (next: nat)
      requires At(current)
      ensures next == Grammar.Advance(tokens, current)
    {
      next := if IsAtEnd(current) then current else current + 1;
    }

    predicate Check(t: TokenType, current: nat)
      requires At(current)
    {
      Grammar.Check(tokens, current, t)
    }

    predicate IsAtEnd(current: nat)
      requires At(current)
    {
      Grammar.IsAtEnd(tokens, current)
    }
  }
}
