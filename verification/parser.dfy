/** The Arbok parser: an object holding the current and peek tokens and an
    error list, with one method per parse method of the source. Every
    method is proved to compute exactly what its function in `ParserSpec`
    computes, result and new state alike, so the properties proved about
    those functions hold of the methods. */
module Parser {
  import opened Token
  import opened Wrappers
  import opened Strconv
  import opened Ast
  import Spec = ParserSpec
  import Lexer

  /* Non-recursive names for the functions of `ParserSpec` that the methods'
     contracts mention. A caller of a method then sees the function it is
     specified by unfolded one level only, which keeps the proofs of the
     callers small; each is exactly its namesake. */

  ghost function ProgramLoopResult(ts: seq<Token>, st: Spec.PState, statements: seq<Statement>): (Program, Spec.PState)
  {
    Spec.ProgramLoop(ts, st, statements)
  }

  ghost function ParseStatementResult(ts: seq<Token>, st: Spec.PState): (Statement, Spec.PState)
  {
    Spec.ParseStatement(ts, st)
  }

  ghost function ParseLetStatementResult(ts: seq<Token>, st: Spec.PState): (Statement, Spec.PState)
  {
    Spec.ParseLetStatement(ts, st)
  }

  ghost function ParseReturnStatementResult(ts: seq<Token>, st: Spec.PState): (Statement, Spec.PState)
    requires Spec.Curr(ts, st).kind == RETURN
  {
    Spec.ParseReturnStatement(ts, st)
  }

  ghost function SkipToSemicolonResult(ts: seq<Token>, st: Spec.PState): Spec.PState
  {
    Spec.SkipToSemicolon(ts, st)
  }

  ghost function ParseExpressionStatementResult(ts: seq<Token>, st: Spec.PState): (Statement, Spec.PState)
  {
    Spec.ParseExpressionStatement(ts, st)
  }

  ghost function ParseExpressionResult(ts: seq<Token>, st: Spec.PState, precedence: int): (Expression, Spec.PState)
  {
    Spec.ParseExpression(ts, st, precedence)
  }

  ghost function InfixLoopResult(ts: seq<Token>, st: Spec.PState, precedence: int, left: Expression): (Expression, Spec.PState)
  {
    Spec.InfixLoop(ts, st, precedence, left)
  }

  ghost function PrefixParseFnResult(ts: seq<Token>, st: Spec.PState): (Expression, Spec.PState)
  {
    Spec.PrefixParseFn(ts, st)
  }

  ghost function InfixParseFnResult(ts: seq<Token>, st: Spec.PState, left: Expression): (Expression, Spec.PState)
  {
    Spec.InfixParseFn(ts, st, left)
  }

  ghost function ParsePrefixExpressionResult(ts: seq<Token>, st: Spec.PState): (Expression, Spec.PState)
    requires Spec.Curr(ts, st).kind in {BANG, MINUS}
  {
    Spec.ParsePrefixExpression(ts, st)
  }

  ghost function ParseGroupedExpressionResult(ts: seq<Token>, st: Spec.PState): (Expression, Spec.PState)
    requires Spec.Curr(ts, st).kind == LPAREN
  {
    Spec.ParseGroupedExpression(ts, st)
  }

  ghost function ParseIfExpressionResult(ts: seq<Token>, st: Spec.PState): (Expression, Spec.PState)
  {
    Spec.ParseIfExpression(ts, st)
  }

  ghost function IfBranchesResult(ts: seq<Token>, st: Spec.PState, token: Token, condition: Expression): (Expression, Spec.PState)
  {
    Spec.IfBranches(ts, st, token, condition)
  }

  ghost function ParseFunctionLiteralResult(ts: seq<Token>, st: Spec.PState): (Expression, Spec.PState)
  {
    Spec.ParseFunctionLiteral(ts, st)
  }

  ghost function ParseArrayLiteralResult(ts: seq<Token>, st: Spec.PState): (Expression, Spec.PState)
    requires Spec.Curr(ts, st).kind == LBRACKET
  {
    Spec.ParseArrayLiteral(ts, st)
  }

  ghost function ParseHashLiteralResult(ts: seq<Token>, st: Spec.PState): (Expression, Spec.PState)
    requires Spec.Curr(ts, st).kind == LBRACE
  {
    Spec.ParseHashLiteral(ts, st)
  }

  ghost function HashLoopResult(ts: seq<Token>, st: Spec.PState, token: Token, pairs: seq<Pair>): (Expression, Spec.PState)
    requires st.pos < |ts|
  {
    Spec.HashLoop(ts, st, token, pairs)
  }

  ghost function HashPairResult(ts: seq<Token>, st: Spec.PState): (Option<Pair>, Spec.PState)
    requires st.pos < |ts|
  {
    Spec.HashPair(ts, st)
  }

  ghost function ParseExpressionListResult(ts: seq<Token>, st: Spec.PState, end: Kind): (ExpressionList, Spec.PState)
    requires st.pos < |ts|
  {
    Spec.ParseExpressionList(ts, st, end)
  }

  ghost function ListLoopResult(ts: seq<Token>, st: Spec.PState, end: Kind, elements: seq<Expression>): (ExpressionList, Spec.PState)
  {
    Spec.ListLoop(ts, st, end, elements)
  }

  ghost function ParseFunctionParameterResult(ts: seq<Token>, st: Spec.PState): (Option<seq<Identifier>>, Spec.PState)
  {
    Spec.ParseFunctionParameter(ts, st)
  }

  ghost function ParameterLoopResult(ts: seq<Token>, st: Spec.PState, identifiers: seq<Identifier>): (Option<seq<Identifier>>, Spec.PState)
  {
    Spec.ParameterLoop(ts, st, identifiers)
  }

  ghost function ParseBlockStatementResult(ts: seq<Token>, st: Spec.PState): (BlockStatement, Spec.PState)
    requires Spec.Curr(ts, st).kind == LBRACE
  {
    Spec.ParseBlockStatement(ts, st)
  }

  ghost function BlockLoopResult(ts: seq<Token>, st: Spec.PState, token: Token, statements: seq<Statement>): (BlockStatement, Spec.PState)
  {
    Spec.BlockLoop(ts, st, token, statements)
  }

  ghost function ParseInfixExpressionResult(ts: seq<Token>, st: Spec.PState, left: Expression): (Expression, Spec.PState)
    requires Spec.IsBinaryOperator(Spec.Curr(ts, st).kind)
  {
    Spec.ParseInfixExpression(ts, st, left)
  }

  ghost function ParseCallExpressionResult(ts: seq<Token>, st: Spec.PState, callee: Expression): (Expression, Spec.PState)
    requires Spec.Curr(ts, st).kind == LPAREN
  {
    Spec.ParseCallExpression(ts, st, callee)
  }

  ghost function ParseIndexExpressionResult(ts: seq<Token>, st: Spec.PState, left: Expression): (Expression, Spec.PState)
    requires Spec.Curr(ts, st).kind == LBRACKET
  {
    Spec.ParseIndexExpression(ts, st, left)
  }

  class Parser {
    /** What the lexer hands out, one token per `NextToken` call (EOF from
        the end of the sequence on). */
    const tokens: seq<Token>
    /** How many tokens have been pulled from the lexer. */
    var next: nat
    var currToken: Token
    var peekToken: Token
    var errors: seq<Spec.ParseError>
    /** Set when a skip loop has reached the all-EOF tail, where the
        source's loop never ends. */
    ghost var hung: bool

    /** The current and peek tokens are the last two tokens pulled. */
    ghost predicate Valid()
      reads this
    {
      next >= 2 &&
      currToken == Lexer.TokenAt(tokens, next - 2) &&
      peekToken == Lexer.TokenAt(tokens, next - 1)
    }

    /** The state the functions of `ParserSpec` work on. */
    ghost function State(): Spec.PState
      reads this
      requires next >= 2
    {
      Spec.PState(next - 2, errors, hung)
    }

    /** `New`: an empty error list, and two pulls so that the current and
        the peek token are the first two tokens. */
    constructor (tokens: seq<Token>)
      ensures this.tokens == tokens
      ensures Valid() && State() == Spec.PState(0, [], false)
    {
      this.tokens := tokens;
      next := 0;
      // overwritten by the two pulls below, as Go's zero token is
      currToken := Token(ILLEGAL, []);
      peekToken := Token(ILLEGAL, []);
      errors := [];
      hung := false;
      new;
      NextToken();
      NextToken();
    }

    predicate CurrTokenIs(k: Kind)
      reads this
    {
      currToken.kind == k
    }

    predicate PeekTokenIs(k: Kind)
      reads this
    {
      peekToken.kind == k
    }

    function PeekPrecedence(): int
      reads this
    {
      Spec.Precedence(peekToken.kind)
    }

    function CurrPrecedence(): int
      reads this
    {
      Spec.Precedence(currToken.kind)
    }

    function Errors(): seq<Spec.ParseError>
      reads this
    {
      errors
    }

    /** `nextToken`: the peek token becomes current and one more token is
        pulled from the lexer. */
    method NextToken()
      modifies this
      ensures currToken == old(peekToken) && peekToken == Lexer.TokenAt(tokens, old(next))
      ensures next == old(next) + 1 && errors == old(errors) && hung == old(hung)
      ensures old(Valid()) ==> Valid() && State() == Spec.NextToken(old(State()))
    {
      currToken := peekToken;
      peekToken := Lexer.TokenAt(tokens, next);
      next := next + 1;
    }

    method PeekError(k: Kind)
      modifies this
      ensures errors == old(errors) + [Spec.ParseError.PeekError(peekToken, k)]
      ensures next == old(next) && currToken == old(currToken) && peekToken == old(peekToken)
      ensures hung == old(hung)
    {
      errors := errors + [Spec.ParseError.PeekError(peekToken, k)];
    }

    method NoPrefixParseFnError(k: Kind)
      modifies this
      ensures errors == old(errors) + [Spec.NoPrefixParseFn(k)]
      ensures next == old(next) && currToken == old(currToken) && peekToken == old(peekToken)
      ensures hung == old(hung)
    {
      errors := errors + [Spec.NoPrefixParseFn(k)];
    }

    method ExpectPeek(k: Kind) returns (ok: bool)
      requires Valid()
      modifies this
      ensures Valid() && (ok, State()) == Spec.ExpectPeek(tokens, old(State()), k)
      ensures ok == (old(peekToken).kind == k) && (ok ==> currToken == old(peekToken))
    {
      if PeekTokenIs(k) {
        NextToken();
        ok := true;
      } else {
        PeekError(k);
        ok := false;
      }
    }

    /** `ParseProgram`. Every statement is appended: `parseStatement` never
        returns a nil interface, so the source's nil check never fires. */
    method ParseProgram() returns (program: Program)
      requires Valid()
      modifies this
      ensures Valid() && (program, State()) == ProgramLoopResult(tokens, old(State()), [])
    {
      var statements: seq<Statement> := [];
      while !CurrTokenIs(EOF)
        invariant Valid()
        invariant ProgramLoopResult(tokens, State(), statements) == ProgramLoopResult(tokens, old(State()), [])
        decreases Spec.Remaining(tokens, next - 2)
      {
        ghost var before := State();
        var statement := ParseStatement();
        ProgramStep(tokens, before, statements, statement, State());
        statements := statements + [statement];
        NextToken();
      }
      program := Program(statements);
    }

    static lemma ProgramStep(ts: seq<Token>, st: Spec.PState, statements: seq<Statement>, s: Statement, st1: Spec.PState)
      requires Spec.Curr(ts, st).kind != EOF
      requires (s, st1) == Spec.ParseStatement(ts, st)
      ensures ProgramLoopResult(ts, st, statements) == ProgramLoopResult(ts, Spec.NextToken(st1), statements + [s])
    {}

    method ParseStatement() returns (statement: Statement)
      requires Valid()
      modifies this
      ensures Valid() && (statement, State()) == ParseStatementResult(tokens, old(State()))
      decreases Spec.Remaining(tokens, next - 2), 8
    {
      if CurrTokenIs(LET) {
        statement := ParseLetStatement();
      } else if CurrTokenIs(RETURN) {
        statement := ParseReturnStatement();
      } else {
        statement := ParseExpressionStatement();
      }
    }

    method ParseLetStatement() returns (statement: Statement)
      requires Valid()
      modifies this
      ensures Valid() && (statement, State()) == ParseLetStatementResult(tokens, old(State()))
      decreases Spec.Remaining(tokens, next - 2), 7
    {
      var token := currToken;
      var ok := ExpectPeek(IDENTIFIER);
      if !ok {
        return FailedLet;
      }
      var name := Identifier(currToken, currToken.literal);
      ok := ExpectPeek(ASSIGN);
      if !ok {
        return FailedLet;
      }
      NextToken();
      var value := ParseExpression(Spec.LOWEST);
      SkipToSemicolon();
      statement := Let(token, name, value);
    }

    method ParseReturnStatement() returns (statement: Statement)
      requires Valid() && currToken.kind == RETURN
      modifies this
      ensures Valid() && (statement, State()) == ParseReturnStatementResult(tokens, old(State()))
      decreases Spec.Remaining(tokens, next - 2), 7
    {
      var token := currToken;
      NextToken();
      var returnValue := ParseExpression(Spec.LOWEST);
      SkipToSemicolon();
      statement := Return(token, returnValue);
    }

    /** The loop after a `let` or `return` value. */
    method SkipToSemicolon()
      requires Valid()
      modifies this
      ensures Valid() && State() == SkipToSemicolonResult(tokens, old(State()))
    {
      while !CurrTokenIs(SEMICOLON) && next - 2 < |tokens|
        invariant Valid()
        invariant SkipToSemicolonResult(tokens, State()) == SkipToSemicolonResult(tokens, old(State()))
        decreases |tokens| - (next - 2)
      {
        NextToken();
      }
      if !CurrTokenIs(SEMICOLON) {
        hung := true;
      }
    }

    method ParseExpressionStatement() returns (statement: Statement)
      requires Valid()
      modifies this
      ensures Valid() && (statement, State()) == ParseExpressionStatementResult(tokens, old(State()))
      decreases Spec.Remaining(tokens, next - 2), 7
    {
      var token := currToken;
      var expression := ParseExpression(Spec.LOWEST);
      if PeekTokenIs(SEMICOLON) {
        NextToken();
      }
      statement := ExpressionStatement(token, expression);
    }

    method ParseExpression(precedence: int) returns (expression: Expression)
      requires Valid()
      modifies this
      ensures Valid() && (expression, State()) == ParseExpressionResult(tokens, old(State()), precedence)
      decreases Spec.Remaining(tokens, next - 2), 6
    {
      if !Spec.HasPrefix(currToken.kind) {
        NoPrefixParseFnError(currToken.kind);
        return Nil;
      }
      var left := PrefixParseFn();
      expression := InfixLoop(precedence, left);
    }

    /** The loop of `parseExpression`, from the prefix expression `left`. */
    method InfixLoop(precedence: int, left: Expression) returns (expression: Expression)
      requires Valid()
      modifies this
      ensures Valid() && (expression, State()) == InfixLoopResult(tokens, old(State()), precedence, left)
      decreases Spec.Remaining(tokens, next - 2), 5
    {
      expression := left;
      while !PeekTokenIs(SEMICOLON) && precedence < PeekPrecedence()
        invariant Valid() && old(next) <= next
        invariant InfixLoopResult(tokens, State(), precedence, expression) == InfixLoopResult(tokens, old(State()), precedence, left)
        decreases Spec.Remaining(tokens, next - 2)
      {
        if !Spec.HasInfix(peekToken.kind) {
          assert peekToken == Spec.Peek(tokens, State());
          InfixStop(tokens, State(), precedence, expression);
          return;
        }
        ghost var before, previous := State(), expression;
        assert Spec.Remaining(tokens, next - 1) < Spec.Remaining(tokens, old(next) - 2);
        NextToken();
        expression := InfixParseFn(expression);
        InfixStep(tokens, before, precedence, previous, expression, State());
      }
      InfixStop(tokens, State(), precedence, expression);
    }

    static lemma InfixStop(ts: seq<Token>, st: Spec.PState, precedence: int, left: Expression)
      requires Spec.Peek(ts, st).kind == SEMICOLON || precedence >= Spec.Precedence(Spec.Peek(ts, st).kind) ||
        !Spec.HasInfix(Spec.Peek(ts, st).kind)
      ensures InfixLoopResult(ts, st, precedence, left) == (left, st)
    {}

    static lemma InfixStep(ts: seq<Token>, st: Spec.PState, precedence: int, left: Expression, e: Expression, st2: Spec.PState)
      requires Spec.Peek(ts, st).kind != SEMICOLON && precedence < Spec.Precedence(Spec.Peek(ts, st).kind)
      requires Spec.HasInfix(Spec.Peek(ts, st).kind)
      requires (e, st2) == Spec.InfixParseFn(ts, Spec.NextToken(st), left)
      ensures InfixLoopResult(ts, st, precedence, left) == InfixLoopResult(ts, st2, precedence, e)
      ensures st.pos < st2.pos && st.pos + 1 < |ts|
    {}

    /** Looks up and calls the prefix parse function of the current token's
        kind; the source's map lookup. */
    method PrefixParseFn() returns (expression: Expression)
      requires Valid()
      modifies this
      ensures Valid() && (expression, State()) == PrefixParseFnResult(tokens, old(State()))
      decreases Spec.Remaining(tokens, next - 2), 5
    {
      var k := currToken.kind;
      if k == IDENTIFIER {
        expression := ParseIdentifier();
      } else if k == INTEGER {
        expression := ParseIntegerLiteral();
      } else if k == BANG || k == MINUS {
        expression := ParsePrefixExpression();
      } else if k == TRUE || k == FALSE {
        expression := ParseBoolean();
      } else if k == LPAREN {
        expression := ParseGroupedExpression();
      } else if k == IF {
        expression := ParseIfExpression();
      } else if k == FUNCTION {
        expression := ParseFunctionLiteral();
      } else if k == STRING {
        expression := ParseStringLiteral();
      } else if k == LBRACKET {
        expression := ParseArrayLiteral();
      } else if k == LBRACE {
        expression := ParseHashLiteral();
      } else {
        expression := Nil;
      }
    }

    /** Looks up and calls the infix parse function of the current token's
        kind on `left`. */
    method InfixParseFn(left: Expression) returns (expression: Expression)
      requires Valid()
      modifies this
      ensures Valid() && (expression, State()) == InfixParseFnResult(tokens, old(State()), left)
      decreases Spec.Remaining(tokens, next - 2), 5
    {
      var k := currToken.kind;
      if k == LPAREN {
        expression := ParseCallExpression(left);
      } else if k == LBRACKET {
        expression := ParseIndexExpression(left);
      } else if Spec.IsBinaryOperator(k) {
        expression := ParseInfixExpression(left);
      } else {
        expression := left;
      }
    }

    method ParseIdentifier() returns (expression: Expression)
      requires Valid()
      ensures expression == Spec.ParseIdentifier(tokens, State())
    {
      expression := Ident(Identifier(currToken, currToken.literal));
    }

    method ParseBoolean() returns (expression: Expression)
      requires Valid()
      ensures expression == Spec.ParseBoolean(tokens, State())
    {
      expression := Boolean(currToken, CurrTokenIs(TRUE));
    }

    method ParseStringLiteral() returns (expression: Expression)
      requires Valid()
      ensures expression == Spec.ParseStringLiteral(tokens, State())
    {
      expression := StringLiteral(currToken, currToken.literal);
    }

    method ParseIntegerLiteral() returns (expression: Expression)
      requires Valid()
      modifies this
      ensures Valid() && (expression, State()) == Spec.ParseIntegerLiteral(tokens, old(State()))
    {
      var value := ParseInt(currToken.literal);
      match value {
        case None =>
          errors := errors + [Spec.IntegerParseError(currToken.literal)];
          expression := Nil;
        case Some(v) =>
          expression := IntegerLiteral(currToken, v);
      }
    }

    method ParsePrefixExpression() returns (expression: Expression)
      requires Valid() && currToken.kind in {BANG, MINUS}
      modifies this
      ensures Valid() && (expression, State()) == ParsePrefixExpressionResult(tokens, old(State()))
      decreases Spec.Remaining(tokens, next - 2), 4
    {
      var token := currToken;
      NextToken();
      var right := ParseExpression(Spec.PREFIX);
      expression := Prefix(token, token.literal, right);
    }

    method ParseGroupedExpression() returns (expression: Expression)
      requires Valid() && currToken.kind == LPAREN
      modifies this
      ensures Valid() && (expression, State()) == ParseGroupedExpressionResult(tokens, old(State()))
      decreases Spec.Remaining(tokens, next - 2), 4
    {
      NextToken();
      expression := ParseExpression(Spec.LOWEST);
      var ok := ExpectPeek(RPAREN);
      if !ok {
        expression := Nil;
      }
    }

    method ParseIfExpression() returns (expression: Expression)
      requires Valid()
      modifies this
      ensures Valid() && (expression, State()) == ParseIfExpressionResult(tokens, old(State()))
      decreases Spec.Remaining(tokens, next - 2), 4
    {
      var token := currToken;
      var ok := ExpectPeek(LPAREN);
      if !ok {
        return Nil;
      }
      NextToken();
      var condition := ParseExpression(Spec.LOWEST);
      ok := ExpectPeek(RPAREN);
      if !ok {
        return Nil;
      }
      expression := IfBranches(token, condition);
    }

    /** The rest of `parseIfExpression`, after the condition's `)`. */
    method IfBranches(token: Token, condition: Expression) returns (expression: Expression)
      requires Valid()
      modifies this
      ensures Valid() && (expression, State()) == IfBranchesResult(tokens, old(State()), token, condition)
      decreases Spec.Remaining(tokens, next - 2), 4
    {
      var ok := ExpectPeek(LBRACE);
      if !ok {
        return Nil;
      }
      var consequence := ParseBlockStatement();
      var alternative: Option<BlockStatement> := None;
      if PeekTokenIs(ELSE) {
        NextToken();
        ok := ExpectPeek(LBRACE);
        if !ok {
          return Nil;
        }
        var block := ParseBlockStatement();
        alternative := Some(block);
      }
      expression := If(token, condition, consequence, alternative);
    }

    method ParseFunctionLiteral() returns (expression: Expression)
      requires Valid()
      modifies this
      ensures Valid() && (expression, State()) == ParseFunctionLiteralResult(tokens, old(State()))
      decreases Spec.Remaining(tokens, next - 2), 4
    {
      var token := currToken;
      var ok := ExpectPeek(LPAREN);
      if !ok {
        return Nil;
      }
      var parameters := ParseFunctionParameter();
      ok := ExpectPeek(LBRACE);
      if !ok {
        return Nil;
      }
      var body := ParseBlockStatement();
      expression := FunctionLiteral(token, parameters, body);
    }

    method ParseArrayLiteral() returns (expression: Expression)
      requires Valid() && currToken.kind == LBRACKET
      modifies this
      ensures Valid() && (expression, State()) == ParseArrayLiteralResult(tokens, old(State()))
      decreases Spec.Remaining(tokens, next - 2), 4
    {
      var token := currToken;
      var elements := ParseExpressionList(RBRACKET);
      expression := ArrayLiteral(token, elements);
    }

    method ParseHashLiteral() returns (expression: Expression)
      requires Valid() && currToken.kind == LBRACE
      modifies this
      ensures Valid() && (expression, State()) == ParseHashLiteralResult(tokens, old(State()))
      decreases Spec.Remaining(tokens, next - 2), 4
    {
      var token := currToken;
      var pairs: seq<Pair> := [];
      while !PeekTokenIs(RBRACE)
        invariant Valid() && old(next) <= next && next - 2 < |tokens|
        invariant HashLoopResult(tokens, State(), token, pairs) == HashLoopResult(tokens, old(State()), token, [])
        decreases Spec.Remaining(tokens, next - 2)
      {
        var pair := HashPair();
        if pair.None? {
          return Nil;
        }
        pairs := pairs + [pair.value];
        if !PeekTokenIs(RBRACE) {
          var ok := ExpectPeek(COMMA);
          if !ok {
            return Nil;
          }
        }
      }
      var ok := ExpectPeek(RBRACE);
      if !ok {
        return Nil;
      }
      expression := HashLiteral(token, pairs);
    }

    /** The `key : value` part of the hash literal loop. */
    method HashPair() returns (pair: Option<Pair>)
      requires Valid() && next - 2 < |tokens|
      modifies this
      ensures Valid() && (pair, State()) == HashPairResult(tokens, old(State()))
      decreases Spec.Remaining(tokens, next - 2), 2
    {
      NextToken();
      var key := ParseExpression(Spec.LOWEST);
      var ok := ExpectPeek(COLON);
      if !ok {
        return None;
      }
      NextToken();
      var value := ParseExpression(Spec.LOWEST);
      pair := Some(Pair(key, value));
    }

    method ParseExpressionList(end: Kind) returns (elements: ExpressionList)
      requires Valid() && next - 2 < |tokens|
      modifies this
      ensures Valid() && (elements, State()) == ParseExpressionListResult(tokens, old(State()), end)
      decreases Spec.Remaining(tokens, next - 2), 3
    {
      if PeekTokenIs(end) {
        NextToken();
        return List([]);
      }
      NextToken();
      var first := ParseExpression(Spec.LOWEST);
      elements := ListLoop(end, [first]);
    }

    /** The comma loop of `parseExpressionList` and its closing check. */
    method ListLoop(end: Kind, first: seq<Expression>) returns (elements: ExpressionList)
      requires Valid()
      modifies this
      ensures Valid() && (elements, State()) == ListLoopResult(tokens, old(State()), end, first)
      decreases Spec.Remaining(tokens, next - 2), 3
    {
      var items := first;
      while PeekTokenIs(COMMA)
        invariant Valid() && old(next) <= next
        invariant ListLoopResult(tokens, State(), end, items) == ListLoopResult(tokens, old(State()), end, first)
        decreases Spec.Remaining(tokens, next - 2)
      {
        ghost var before := State();
        NextToken();
        NextToken();
        var element := ParseExpression(Spec.LOWEST);
        ListStep(tokens, before, end, items, element, State());
        items := items + [element];
      }
      var ok := ExpectPeek(end);
      if !ok {
        return NilList;
      }
      elements := List(items);
    }

    static lemma ListStep(ts: seq<Token>, st: Spec.PState, end: Kind, items: seq<Expression>, e: Expression, st2: Spec.PState)
      requires Spec.Peek(ts, st).kind == COMMA
      requires (e, st2) == Spec.ParseExpression(ts, Spec.NextToken(Spec.NextToken(st)), Spec.LOWEST)
      ensures ListLoopResult(ts, st, end, items) == ListLoopResult(ts, st2, end, items + [e])
    {}

    method ParseFunctionParameter() returns (parameters: Option<seq<Identifier>>)
      requires Valid()
      modifies this
      ensures Valid() && (parameters, State()) == ParseFunctionParameterResult(tokens, old(State()))
    {
      if PeekTokenIs(RPAREN) {
        NextToken();
        return Some([]);
      }
      NextToken();
      var identifiers := [Identifier(currToken, currToken.literal)];
      ghost var st, first := State(), identifiers;
      while PeekTokenIs(COMMA)
        invariant Valid()
        invariant ParameterLoopResult(tokens, State(), identifiers) == ParameterLoopResult(tokens, st, first)
        decreases Spec.Remaining(tokens, next - 2)
      {
        NextToken();
        NextToken();
        identifiers := identifiers + [Identifier(currToken, currToken.literal)];
      }
      var ok := ExpectPeek(RPAREN);
      if !ok {
        return None;
      }
      parameters := Some(identifiers);
    }

    method ParseBlockStatement() returns (block: BlockStatement)
      requires Valid() && currToken.kind == LBRACE
      modifies this
      ensures Valid() && (block, State()) == ParseBlockStatementResult(tokens, old(State()))
      decreases Spec.Remaining(tokens, next - 2), 10
    {
      var token := currToken;
      var statements: seq<Statement> := [];
      NextToken();
      ghost var st := State();
      while !CurrTokenIs(RBRACE) && !CurrTokenIs(EOF)
        invariant Valid() && old(next) < next
        invariant BlockLoopResult(tokens, State(), token, statements) == BlockLoopResult(tokens, st, token, [])
        decreases Spec.Remaining(tokens, next - 2)
      {
        ghost var before := State();
        var statement := ParseStatement();
        BlockStep(tokens, before, token, statements, statement, State());
        statements := statements + [statement];
        NextToken();
      }
      block := BlockStatement(token, statements);
    }

    static lemma BlockStep(ts: seq<Token>, st: Spec.PState, token: Token, statements: seq<Statement>, s: Statement, st1: Spec.PState)
      requires Spec.Curr(ts, st).kind != RBRACE && Spec.Curr(ts, st).kind != EOF
      requires (s, st1) == Spec.ParseStatement(ts, st)
      ensures BlockLoopResult(ts, st, token, statements) == BlockLoopResult(ts, Spec.NextToken(st1), token, statements + [s])
    {}

    method ParseInfixExpression(left: Expression) returns (expression: Expression)
      requires Valid() && Spec.IsBinaryOperator(currToken.kind)
      modifies this
      ensures Valid() && (expression, State()) == ParseInfixExpressionResult(tokens, old(State()), left)
      decreases Spec.Remaining(tokens, next - 2), 4
    {
      var token := currToken;
      var precedence := CurrPrecedence();
      NextToken();
      var right := ParseExpression(precedence);
      expression := Infix(token, left, token.literal, right);
    }

    method ParseCallExpression(callee: Expression) returns (expression: Expression)
      requires Valid() && currToken.kind == LPAREN
      modifies this
      ensures Valid() && (expression, State()) == ParseCallExpressionResult(tokens, old(State()), callee)
      decreases Spec.Remaining(tokens, next - 2), 4
    {
      var token := currToken;
      var arguments := ParseExpressionList(RPAREN);
      expression := Call(token, callee, arguments);
    }

    method ParseIndexExpression(left: Expression) returns (expression: Expression)
      requires Valid() && currToken.kind == LBRACKET
      modifies this
      ensures Valid() && (expression, State()) == ParseIndexExpressionResult(tokens, old(State()), left)
      decreases Spec.Remaining(tokens, next - 2), 4
    {
      var token := currToken;
      NextToken();
      var index := ParseExpression(Spec.LOWEST);
      var ok := ExpectPeek(RBRACKET);
      if !ok {
        return Nil;
      }
      expression := Index(token, left, index);
    }
  }
}
