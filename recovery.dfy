/** What the statement rules build and how the parser recovers from a parse error. */
module Recovery {
  import opened Tokens
  import opened Reporting
  import opened Syntax
  import opened Grammar
  import opened Precedence

  // ---------------------------------------------------------------- variable declarations

  /** `var x;` declares `x` with no initializer. */
  lemma VarWithoutInitializer(ts: seq<Token>, pos: nat)
    requires WellFormed(ts) && pos + 3 < |ts|
    requires ts[pos].kind == TokenType.Var && ts[pos + 1].kind == Identifier && ts[pos + 2].kind == Semicolon
    ensures ParseDeclaration(ts, pos) == Ok(Some(Stmt.Var(ts[pos + 1], None)), pos + 3, [])
  {
    assert Match(ts, pos, [TokenType.Var]) == pos + 1;
    assert Match(ts, pos + 2, [Equal]) == pos + 2;
  }

  /** `var x = e;` declares `x` with the initializer `e`. */
  lemma VarWithInitializer(ts: seq<Token>, pos: nat, e: Expr)
    requires WellFormed(ts) && pos + 3 < |ts| && WellBracketed(e) && Spelled(ts, pos + 3, e)
    requires ts[pos].kind == TokenType.Var && ts[pos + 1].kind == Identifier && ts[pos + 2].kind == Equal
    requires ts[End(pos + 3, e)].kind == Semicolon
    ensures ParseDeclaration(ts, pos) == Ok(Some(Stmt.Var(ts[pos + 1], Some(e))), End(pos + 3, e) + 1, [])
  {
    ExpressionRoundTrip(e, ts, pos + 3);
    VarInitializerStep(ts, pos + 1, e, End(pos + 3, e));
    assert Match(ts, pos, [TokenType.Var]) == pos + 1;
  }

  lemma VarInitializerStep(ts: seq<Token>, pos: nat, e: Expr, end: nat)
    requires WellFormed(ts) && pos + 2 < end < |ts|
    requires ts[pos].kind == Identifier && ts[pos + 1].kind == Equal && ts[end].kind == Semicolon
    requires ParseExpression(ts, pos + 2) == Ok(e, end, [])
    ensures ParseVarDeclaration(ts, pos) == Ok(Stmt.Var(ts[pos], Some(e)), end + 1, [])
  {
    assert Match(ts, pos + 1, [Equal]) == pos + 2;
  }

  /** A declaration `var x` followed by anything but '=' or ';' is a parse error reported
      at that token; the parser then skips to the next synchronisation point. */
  lemma VarMissingSemicolon(ts: seq<Token>, pos: nat)
    requires WellFormed(ts) && pos + 2 < |ts|
    requires ts[pos].kind == TokenType.Var && ts[pos + 1].kind == Identifier
    requires ts[pos + 2].kind !in {Equal, Semicolon}
    ensures ParseDeclaration(ts, pos)
         == Ok(None, Synchronize(ts, pos + 2), [ErrorAtToken(ts[pos + 2], "Expect ';' after variable declaration.")])
  {
    assert Match(ts, pos, [TokenType.Var]) == pos + 1;
    assert Match(ts, pos + 2, [Equal]) == pos + 2;
  }

  // ---------------------------------------------------------------- assignment targets

  /** An assignment whose target is not a name is reported at the '=' and not raised:
      the rule goes on with the value and returns the left-hand side unchanged. */
  lemma InvalidAssignmentTarget(ts: seq<Token>, pos: nat, target: Expr, value: Expr)
    requires WellFormed(ts) && !target.Variable? && !target.Assign?
    requires Fits(ts, pos, target, 4, 4) && ts[End(pos, target)].kind == Equal
    requires AssignmentAt(ts, End(pos, target) + 1, value)
    ensures ParseAssignment(ts, pos)
         == Ok(target, End(End(pos, target) + 1, value),
               [ErrorAtToken(ts[End(pos, target)], "Invalid assignment target.")])
  {
    var at := End(pos, target);
    InvalidTargetParts(ts, pos, target, at, value);
    InvalidTargetStep(ts, pos, target, at, value, End(at + 1, value));
  }

  lemma InvalidTargetParts(ts: seq<Token>, pos: nat, target: Expr, at: nat, value: Expr)
    requires Fits(ts, pos, target, 4, 4) && at == End(pos, target) && ts[at].kind == Equal
    requires AssignmentAt(ts, at + 1, value)
    ensures pos < at && at + 1 < End(at + 1, value) < |ts|
    ensures ParseBinary(Equality, ts, pos) == Ok(target, at, [])
    ensures ParseAssignment(ts, at + 1) == Ok(value, End(at + 1, value), [])
  {
    BinaryRoundTrip(Equality, target, ts, pos);
    ValueRoundTrip(ts, at + 1, value);
  }

  /** `e` is spelled at `pos` and followed by a token that ends an assignment. */
  ghost predicate AssignmentAt(ts: seq<Token>, pos: nat, e: Expr)
  {
    && WellFormed(ts) && WellBracketed(e) && Spelled(ts, pos, e)
    && Stops(ts, End(pos, e), 4) && ts[End(pos, e)].kind != Equal
  }

  lemma ValueRoundTrip(ts: seq<Token>, pos: nat, e: Expr)
    requires AssignmentAt(ts, pos, e)
    ensures pos < End(pos, e) < |ts| && ParseAssignment(ts, pos) == Ok(e, End(pos, e), [])
  {
    AssignmentRoundTrip(e, ts, pos);
    RenderNonEmpty(e);
  }

  lemma InvalidTargetStep(ts: seq<Token>, pos: nat, target: Expr, at: nat, value: Expr, end: nat)
    requires WellFormed(ts) && pos < at < end < |ts| && ts[at].kind == Equal && !target.Variable?
    requires ParseBinary(Equality, ts, pos) == Ok(target, at, [])
    requires ParseAssignment(ts, at + 1) == Ok(value, end, [])
    ensures ParseAssignment(ts, pos) == Ok(target, end, [ErrorAtToken(ts[at], "Invalid assignment target.")])
  {
    assert Match(ts, at, [Equal]) == at + 1;
  }

  // ---------------------------------------------------------------- whole programs

  /** The number of declarations that failed and were kept as `None`. */
  function Failed(statements: seq<Option<Stmt>>): (n: nat)
    ensures n <= |statements|
  {
    if statements == [] then 0
    else Failed(statements[..|statements| - 1]) + (if statements[|statements| - 1].None? then 1 else 0)
  }

  /** Every declaration kept as `None` was reported, and every declaration consumed at
      least one token. */
  lemma {:induction false} ParseFromReports(ts: seq<Token>, pos: nat, statements: seq<Option<Stmt>>, diags: seq<Diagnostic>)
    requires WellFormed(ts) && pos < |ts|
    requires Failed(statements) <= |diags|
    ensures Failed(ParseFrom(ts, pos, statements, diags).0) <= |ParseFrom(ts, pos, statements, diags).1|
    ensures |statements| <= |ParseFrom(ts, pos, statements, diags).0| <= |statements| + (|ts| - 1 - pos)
    decreases |ts| - pos
  {
    if !IsAtEnd(ts, pos) {
      var r := ParseDeclaration(ts, pos);
      var statements', diags' := statements + [r.value], diags + r.diags;
      DeclarationStep(ts, pos, statements, diags);
      assert statements'[..|statements'| - 1] == statements;
      ParseFromReports(ts, r.pos, statements', diags');
    }
  }

  /** One turn of the loop of `parse`. */
  lemma DeclarationStep(ts: seq<Token>, pos: nat, statements: seq<Option<Stmt>>, diags: seq<Diagnostic>)
    requires WellFormed(ts) && pos < |ts| && !IsAtEnd(ts, pos)
    ensures var r := ParseDeclaration(ts, pos);
      && pos < r.pos < |ts|
      && (r.value.None? ==> |r.diags| > 0)
      && ParseFrom(ts, pos, statements, diags) == ParseFrom(ts, r.pos, statements + [r.value], diags + r.diags)
  {
  }

  /** `parse` reports at least one error for every declaration it keeps as `None`, so a
      program parsed without errors has no `None` entries; it returns at most one entry
      per token before the end. */
  lemma ProgramReports(ts: seq<Token>)
    requires WellFormed(ts)
    ensures Failed(ParseProgram(ts).0) <= |ParseProgram(ts).1|
    ensures ParseProgram(ts).1 == [] ==> forall i :: 0 <= i < |ParseProgram(ts).0| ==> ParseProgram(ts).0[i].Some?
    ensures |ParseProgram(ts).0| <= |ts| - 1
  {
    var program := ParseProgram(ts);
    assert program == ParseFrom(ts, 0, [], []);
    ParseFromReports(ts, 0, [], []);
    if program.1 == [] {
      forall i | 0 <= i < |program.0|
        ensures program.0[i].Some?
      {
        if program.0[i].None? {
          FailedCounts(program.0, i);
        }
      }
    }
  }

  /** A `None` entry counts as a failure. */
  lemma {:induction false} FailedCounts(statements: seq<Option<Stmt>>, i: nat)
    requires i < |statements| && statements[i].None?
    ensures Failed(statements) > 0
    decreases |statements|
  {
    if i < |statements| - 1 {
      FailedCounts(statements[..|statements| - 1], i);
    }
  }
}
