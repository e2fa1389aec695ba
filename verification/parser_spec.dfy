/** The Pratt parser as pure functions over its state.

    The lexer is replaced by the sequence of tokens it hands out: the token
    at index i is `Lexer.TokenAt(ts, i)`, which is EOF past the end of the
    sequence, as the lexer repeats EOF. A `PState` holds what the parser's
    calls change: the index of the current token (the peek token is the
    next one), the error list, and the flag `hung`.

    `hung` marks a run the source never finishes: the loop that skips to
    the `;` after a `let` or `return` value spins forever once only EOF is
    left. The model stops that loop at the end of the sequence, sets the
    flag, and carries on from there; the flag is never cleared, so a final
    state without it describes a run of the source that returns.

    There is one function per parse method, each loop becomes a recursive
    function whose arguments are the loop's variables, and the handler maps
    become `PrefixParseFn` and `InfixParseFn`, a dispatch on the token kind.
    Every function states how the state evolves (`Extends`) and that the
    error list grows exactly when the result has a hole (a nil node, a nil
    list or a failed `let`). */
module ParserSpec {
  import opened Token
  import opened Wrappers
  import opened Strconv
  import opened Ast
  import Lexer

  /** The precedence ladder; Go's `iota` with the blank first entry. */
  const LOWEST: int := 1
  const EQUALS: int := 2
  const LESSGREATER: int := 3
  const SUM: int := 4
  const PRODUCT: int := 5
  const PREFIX: int := 6
  const CALL: int := 7
  const INDEX: int := 8

  /** The `precedences` table, LOWEST for every kind not in it. */
  function Precedence(k: Kind): int
  {
    match k
    case EQUAL => EQUALS
    case NOT_EQUAL => EQUALS
    case LESS_THAN => LESSGREATER
    case GREATER_THAN => LESSGREATER
    case PLUS => SUM
    case MINUS => SUM
    case ASTERISK => PRODUCT
    case SLASH => PRODUCT
    case LPAREN => CALL
    case LBRACKET => INDEX
    case _ => LOWEST
  }

  /** The kinds `New` registers a prefix parse function for. */
  predicate HasPrefix(k: Kind)
  {
    k in {IDENTIFIER, INTEGER, BANG, MINUS, TRUE, FALSE, LPAREN, IF, FUNCTION, STRING, LBRACKET, LBRACE}
  }

  /** The kinds `New` registers `parseInfixExpression` for. */
  predicate IsBinaryOperator(k: Kind)
  {
    k in {PLUS, MINUS, SLASH, ASTERISK, EQUAL, NOT_EQUAL, LESS_THAN, GREATER_THAN}
  }

  /** The kinds `New` registers an infix parse function for. */
  predicate HasInfix(k: Kind)
  {
    IsBinaryOperator(k) || k == LPAREN || k == LBRACKET
  }

  /** What the parser appends to its error list. The message text is not
      modelled; `peekError` formats the peek token it got into the slot its
      message calls "expected". */
  datatype ParseError =
    | PeekError(got: Token, wanted: Kind)
    | NoPrefixParseFn(kind: Kind)
    | IntegerParseError(literal: ByteString)

  datatype PState = PState(pos: nat, errors: seq<ParseError>, hung: bool)

  function Curr(ts: seq<Token>, st: PState): Token
  {
    Lexer.TokenAt(ts, st.pos)
  }

  function Peek(ts: seq<Token>, st: PState): Token
  {
    Lexer.TokenAt(ts, st.pos + 1)
  }

  /** A later state: the cursor has not moved back, errors were only
      appended, and `hung` stays set. */
  predicate Extends(st: PState, st': PState)
  {
    st.pos <= st'.pos && st.errors <= st'.errors && (st.hung ==> st'.hung)
  }

  /** The error list did not grow between the two states. */
  predicate NoNewErrors(st: PState, st': PState)
  {
    |st'.errors| == |st.errors|
  }

  /** The termination measure: tokens left before the all-EOF tail. */
  function Remaining(ts: seq<Token>, pos: nat): nat
  {
    if pos < |ts| then |ts| - pos else 0
  }

  /** `nextToken`: peek becomes current, and one more token is pulled. */
  function NextToken(st: PState): PState
  {
    st.(pos := st.pos + 1)
  }

  function AddError(st: PState, e: ParseError): PState
  {
    st.(errors := st.errors + [e])
  }

  /** `expectPeek(k)`: advance if the peek token has kind k, otherwise
      record a peek error and stay. */
  function ExpectPeek(ts: seq<Token>, st: PState, k: Kind): (r: (bool, PState))
    ensures Extends(st, r.1)
    ensures r.0 <==> Peek(ts, st).kind == k
    ensures r.0 ==> r.1 == NextToken(st) && Curr(ts, r.1).kind == k
    ensures r.0 && k != EOF ==> st.pos + 1 < |ts|
    ensures |r.1.errors| == |st.errors| + (if r.0 then 0 else 1)
  {
    if Peek(ts, st).kind == k then (true, NextToken(st))
    else (false, AddError(st, PeekError(Peek(ts, st), k)))
  }

  /** `ParseProgram`: statements until the current token is EOF. */
  function ParseProgram(ts: seq<Token>): (r: (Program, PState))
    ensures Curr(ts, r.1).kind == EOF
    ensures (r.1.errors == []) == r.0.Complete()
  {
    ProgramLoop(ts, PState(0, [], false), [])
  }

  /** The loop of `ParseProgram`; `statements` is what it has appended. */
  function ProgramLoop(ts: seq<Token>, st: PState, statements: seq<Statement>): (r: (Program, PState))
    ensures Extends(st, r.1)
    ensures Curr(ts, r.1).kind == EOF
    ensures statements <= r.0.statements
    ensures (NoNewErrors(st, r.1) && AllStatementsComplete(statements)) == r.0.Complete()
    decreases Remaining(ts, st.pos)
  {
    if Curr(ts, st).kind == EOF then (Program(statements), st)
    else
      var (s, st1) := ParseStatement(ts, st);
      AllStatementsCompleteAppend(statements, s);
      ProgramLoop(ts, NextToken(st1), statements + [s])
  }

  function ParseStatement(ts: seq<Token>, st: PState): (r: (Statement, PState))
    ensures Extends(st, r.1)
    ensures NoNewErrors(st, r.1) == r.0.Complete()
    ensures !r.0.FailedLet? ==> r.0.token == Curr(ts, st)
    decreases Remaining(ts, st.pos), 8
  {
    if Curr(ts, st).kind == LET then ParseLetStatement(ts, st)
    else if Curr(ts, st).kind == RETURN then ParseReturnStatement(ts, st)
    else ParseExpressionStatement(ts, st)
  }

  /** `parseLetStatement`; a failure after the `let` gives the typed nil
      `FailedLet`. */
  function ParseLetStatement(ts: seq<Token>, st: PState): (r: (Statement, PState))
    ensures Extends(st, r.1)
    ensures NoNewErrors(st, r.1) == r.0.Complete()
    ensures !r.0.FailedLet? ==> r.0.Let? && r.0.token == Curr(ts, st)
    decreases Remaining(ts, st.pos), 7
  {
    var token := Curr(ts, st);
    var (ok1, st1) := ExpectPeek(ts, st, IDENTIFIER);
    if !ok1 then (FailedLet, st1)
    else
      var name := Identifier(Curr(ts, st1), Curr(ts, st1).literal);
      var (ok2, st2) := ExpectPeek(ts, st1, ASSIGN);
      if !ok2 then (FailedLet, st2)
      else
        var (value, st3) := ParseExpression(ts, NextToken(st2), LOWEST);
        (Let(token, name, value), SkipToSemicolon(ts, st3))
  }

  function ParseReturnStatement(ts: seq<Token>, st: PState): (r: (Statement, PState))
    requires Curr(ts, st).kind == RETURN
    ensures Extends(st, r.1)
    ensures NoNewErrors(st, r.1) == r.0.Complete()
    ensures r.0.Return? && r.0.token == Curr(ts, st)
    decreases Remaining(ts, st.pos), 7
  {
    var token := Curr(ts, st);
    var (value, st1) := ParseExpression(ts, NextToken(st), LOWEST);
    (Return(token, value), SkipToSemicolon(ts, st1))
  }

  /** The loop after a `let` or `return` value: skip to the current `;`.
      It either stops on the first `;` at or after the cursor, or, when
      there is none, reaches the end and sets `hung`. */
  function SkipToSemicolon(ts: seq<Token>, st: PState): (r: PState)
    ensures st.pos <= r.pos && r.errors == st.errors
    ensures forall i :: st.pos <= i < r.pos ==> i < |ts| && ts[i].kind != SEMICOLON
    ensures r.hung == (st.hung || Curr(ts, r).kind != SEMICOLON)
    ensures Curr(ts, r).kind != SEMICOLON ==> r.pos >= |ts|
    decreases Remaining(ts, st.pos)
  {
    if Curr(ts, st).kind == SEMICOLON then st
    else if st.pos >= |ts| then st.(hung := true)
    else SkipToSemicolon(ts, NextToken(st))
  }

  /** `parseExpressionStatement`: an expression, and a `;` after it is
      consumed. */
  function ParseExpressionStatement(ts: seq<Token>, st: PState): (r: (Statement, PState))
    ensures Extends(st, r.1)
    ensures NoNewErrors(st, r.1) == r.0.Complete()
    ensures r.0.ExpressionStatement? && r.0.token == Curr(ts, st)
    decreases Remaining(ts, st.pos), 7
  {
    var token := Curr(ts, st);
    var (expression, st1) := ParseExpression(ts, st, LOWEST);
    (ExpressionStatement(token, expression),
     if Peek(ts, st1).kind == SEMICOLON then NextToken(st1) else st1)
  }

  /** `parseExpression(precedence)`. */
  function ParseExpression(ts: seq<Token>, st: PState, precedence: int): (r: (Expression, PState))
    ensures Extends(st, r.1)
    ensures NoNewErrors(st, r.1) == r.0.Complete()
    decreases Remaining(ts, st.pos), 6
  {
    if !HasPrefix(Curr(ts, st).kind) then
      (Nil, AddError(st, NoPrefixParseFn(Curr(ts, st).kind)))
    else
      var (left, st1) := PrefixParseFn(ts, st);
      InfixLoop(ts, st1, precedence, left)
  }

  /** The loop of `parseExpression`: while the peek token is not `;` and
      binds tighter than `precedence`, hand the expression so far to the
      peek token's infix parse function. */
  function InfixLoop(ts: seq<Token>, st: PState, precedence: int, left: Expression): (r: (Expression, PState))
    ensures Extends(st, r.1)
    ensures (NoNewErrors(st, r.1) && left.Complete()) == r.0.Complete()
    decreases Remaining(ts, st.pos), 5
  {
    if Peek(ts, st).kind != SEMICOLON && precedence < Precedence(Peek(ts, st).kind) then
      if !HasInfix(Peek(ts, st).kind) then (left, st)
      else
        var (expression, st1) := InfixParseFn(ts, NextToken(st), left);
        InfixLoop(ts, st1, precedence, expression)
    else (left, st)
  }

  /** The prefix parse function registered for the current token's kind,
      called; with none registered, nothing happens. */
  function PrefixParseFn(ts: seq<Token>, st: PState): (r: (Expression, PState))
    ensures Extends(st, r.1)
    ensures HasPrefix(Curr(ts, st).kind) ==> NoNewErrors(st, r.1) == r.0.Complete()
    decreases Remaining(ts, st.pos), 5
  {
    var k := Curr(ts, st).kind;
    if k == IDENTIFIER then (ParseIdentifier(ts, st), st)
    else if k == INTEGER then ParseIntegerLiteral(ts, st)
    else if k == BANG || k == MINUS then ParsePrefixExpression(ts, st)
    else if k == TRUE || k == FALSE then (ParseBoolean(ts, st), st)
    else if k == LPAREN then ParseGroupedExpression(ts, st)
    else if k == IF then ParseIfExpression(ts, st)
    else if k == FUNCTION then ParseFunctionLiteral(ts, st)
    else if k == STRING then (ParseStringLiteral(ts, st), st)
    else if k == LBRACKET then ParseArrayLiteral(ts, st)
    else if k == LBRACE then ParseHashLiteral(ts, st)
    else (Nil, st)
  }

  /** The infix parse function registered for the current token's kind,
      called on `left`; with none registered, `left` is returned. */
  function InfixParseFn(ts: seq<Token>, st: PState, left: Expression): (r: (Expression, PState))
    ensures Extends(st, r.1)
    ensures HasInfix(Curr(ts, st).kind) ==> (NoNewErrors(st, r.1) && left.Complete()) == r.0.Complete()
    decreases Remaining(ts, st.pos), 5
  {
    var k := Curr(ts, st).kind;
    if k == LPAREN then ParseCallExpression(ts, st, left)
    else if k == LBRACKET then ParseIndexExpression(ts, st, left)
    else if IsBinaryOperator(k) then ParseInfixExpression(ts, st, left)
    else (left, st)
  }

  function ParseIdentifier(ts: seq<Token>, st: PState): Expression
  {
    Ident(Identifier(Curr(ts, st), Curr(ts, st).literal))
  }

  function ParseBoolean(ts: seq<Token>, st: PState): Expression
  {
    Boolean(Curr(ts, st), Curr(ts, st).kind == TRUE)
  }

  function ParseStringLiteral(ts: seq<Token>, st: PState): Expression
  {
    StringLiteral(Curr(ts, st), Curr(ts, st).literal)
  }

  /** `parseIntegerLiteral`: `ParseInt` of the literal, or an error and no
      node. */
  function ParseIntegerLiteral(ts: seq<Token>, st: PState): (r: (Expression, PState))
    ensures Extends(st, r.1) && r.1.pos == st.pos
    ensures NoNewErrors(st, r.1) == r.0.Complete()
    ensures r.0.IntegerLiteral? <==> ParseInt(Curr(ts, st).literal).Some?
  {
    var literal := Curr(ts, st).literal;
    match ParseInt(literal)
    case None => (Nil, AddError(st, IntegerParseError(literal)))
    case Some(v) => (IntegerLiteral(Curr(ts, st), v), st)
  }

  /** `parsePrefixExpression`: the operand is parsed at PREFIX precedence. */
  function ParsePrefixExpression(ts: seq<Token>, st: PState): (r: (Expression, PState))
    requires Curr(ts, st).kind in {BANG, MINUS}
    ensures Extends(st, r.1)
    ensures NoNewErrors(st, r.1) == r.0.Complete()
    decreases Remaining(ts, st.pos), 4
  {
    var token := Curr(ts, st);
    var (right, st1) := ParseExpression(ts, NextToken(st), PREFIX);
    (Prefix(token, token.literal, right), st1)
  }

  /** `parseGroupedExpression`: the inner expression itself, no wrapper
      node, once its `)` is found. */
  function ParseGroupedExpression(ts: seq<Token>, st: PState): (r: (Expression, PState))
    requires Curr(ts, st).kind == LPAREN
    ensures Extends(st, r.1)
    ensures NoNewErrors(st, r.1) == r.0.Complete()
    decreases Remaining(ts, st.pos), 4
  {
    var (expression, st1) := ParseExpression(ts, NextToken(st), LOWEST);
    var (ok, st2) := ExpectPeek(ts, st1, RPAREN);
    if ok then (expression, st2) else (Nil, st2)
  }

  function ParseIfExpression(ts: seq<Token>, st: PState): (r: (Expression, PState))
    ensures Extends(st, r.1)
    ensures NoNewErrors(st, r.1) == r.0.Complete()
    decreases Remaining(ts, st.pos), 4
  {
    var token := Curr(ts, st);
    var (ok1, st1) := ExpectPeek(ts, st, LPAREN);
    if !ok1 then (Nil, st1)
    else
      var (condition, st2) := ParseExpression(ts, NextToken(st1), LOWEST);
      var (ok2, st3) := ExpectPeek(ts, st2, RPAREN);
      if !ok2 then (Nil, st3)
      else IfBranches(ts, st3, token, condition)
  }

  /** The part of `parseIfExpression` after the condition's `)`: the
      consequence block, and an alternative block when `else` follows. */
  function IfBranches(ts: seq<Token>, st: PState, token: Token, condition: Expression): (r: (Expression, PState))
    ensures Extends(st, r.1)
    ensures (NoNewErrors(st, r.1) && condition.Complete()) == r.0.Complete()
    decreases Remaining(ts, st.pos), 4
  {
    var (ok1, st1) := ExpectPeek(ts, st, LBRACE);
    if !ok1 then (Nil, st1)
    else
      var (consequence, st2) := ParseBlockStatement(ts, st1);
      if Peek(ts, st2).kind != ELSE then (If(token, condition, consequence, None), st2)
      else
        var (ok2, st3) := ExpectPeek(ts, NextToken(st2), LBRACE);
        if !ok2 then (Nil, st3)
        else
          var (alternative, st4) := ParseBlockStatement(ts, st3);
          (If(token, condition, consequence, Some(alternative)), st4)
  }

  function ParseFunctionLiteral(ts: seq<Token>, st: PState): (r: (Expression, PState))
    ensures Extends(st, r.1)
    ensures NoNewErrors(st, r.1) == r.0.Complete()
    decreases Remaining(ts, st.pos), 4
  {
    var token := Curr(ts, st);
    var (ok1, st1) := ExpectPeek(ts, st, LPAREN);
    if !ok1 then (Nil, st1)
    else
      var (parameters, st2) := ParseFunctionParameter(ts, st1);
      var (ok2, st3) := ExpectPeek(ts, st2, LBRACE);
      if !ok2 then (Nil, st3)
      else
        var (body, st4) := ParseBlockStatement(ts, st3);
        (FunctionLiteral(token, parameters, body), st4)
  }

  function ParseArrayLiteral(ts: seq<Token>, st: PState): (r: (Expression, PState))
    requires Curr(ts, st).kind == LBRACKET
    ensures Extends(st, r.1)
    ensures NoNewErrors(st, r.1) == r.0.Complete()
    decreases Remaining(ts, st.pos), 4
  {
    var (elements, st1) := ParseExpressionList(ts, st, RBRACKET);
    (ArrayLiteral(Curr(ts, st), elements), st1)
  }

  function ParseHashLiteral(ts: seq<Token>, st: PState): (r: (Expression, PState))
    requires Curr(ts, st).kind == LBRACE
    ensures Extends(st, r.1)
    ensures NoNewErrors(st, r.1) == r.0.Complete()
    decreases Remaining(ts, st.pos), 4
  {
    HashLoop(ts, st, Curr(ts, st), [])
  }

  predicate PairsComplete(pairs: seq<Pair>)
  {
    forall i :: 0 <= i < |pairs| ==> pairs[i].key.Complete() && pairs[i].value.Complete()
  }

  /** Proof helper: completeness of a pair list grown by one pair, for the
      hash literal loop. */
  lemma PairsCompleteAppend(pairs: seq<Pair>, p: Pair)
    ensures PairsComplete(pairs + [p]) == (PairsComplete(pairs) && p.key.Complete() && p.value.Complete())
  {
    assert forall i :: 0 <= i < |pairs| ==> (pairs + [p])[i] == pairs[i];
    assert (pairs + [p])[|pairs|] == p;
  }

  /** The loop of `parseHashLiteral`, with the entries read so far. */
  function HashLoop(ts: seq<Token>, st: PState, token: Token, pairs: seq<Pair>): (r: (Expression, PState))
    requires st.pos < |ts|
    ensures Extends(st, r.1)
    ensures (NoNewErrors(st, r.1) && PairsComplete(pairs)) == r.0.Complete()
    decreases Remaining(ts, st.pos), 3
  {
    if Peek(ts, st).kind == RBRACE then
      var (ok, st1) := ExpectPeek(ts, st, RBRACE);
      (if ok then HashLiteral(token, pairs) else Nil, st1)
    else
      var (pair, st1) := HashPair(ts, st);
      if pair.None? then (Nil, st1)
      else
        PairsCompleteAppend(pairs, pair.value);
        if Peek(ts, st1).kind == RBRACE then HashLoop(ts, st1, token, pairs + [pair.value])
        else
          var (ok, st2) := ExpectPeek(ts, st1, COMMA);
          if !ok then (Nil, st2)
          else HashLoop(ts, st2, token, pairs + [pair.value])
  }

  /** One `key : value` entry of the hash literal loop; `None` when the
      `:` is missing. */
  function HashPair(ts: seq<Token>, st: PState): (r: (Option<Pair>, PState))
    requires st.pos < |ts|
    ensures Extends(st, r.1) && st.pos < r.1.pos
    ensures NoNewErrors(st, r.1) == (r.0.Some? && r.0.value.key.Complete() && r.0.value.value.Complete())
    decreases Remaining(ts, st.pos), 2
  {
    var (key, st1) := ParseExpression(ts, NextToken(st), LOWEST);
    var (ok, st2) := ExpectPeek(ts, st1, COLON);
    if !ok then (None, st2)
    else
      var (value, st3) := ParseExpression(ts, NextToken(st2), LOWEST);
      (Some(Pair(key, value)), st3)
  }

  /** `parseExpressionList(end)`: expressions separated by commas up to
      `end`; nil when `end` is missing. */
  function ParseExpressionList(ts: seq<Token>, st: PState, end: Kind): (r: (ExpressionList, PState))
    requires st.pos < |ts|
    ensures Extends(st, r.1)
    ensures NoNewErrors(st, r.1) == (r.0.List? && AllComplete(r.0.items))
    decreases Remaining(ts, st.pos), 3
  {
    if Peek(ts, st).kind == end then (List([]), NextToken(st))
    else
      var (element, st1) := ParseExpression(ts, NextToken(st), LOWEST);
      AllCompleteAppend([], element);
      ListLoop(ts, st1, end, [element])
  }

  /** The comma loop of `parseExpressionList` and the closing check. */
  function ListLoop(ts: seq<Token>, st: PState, end: Kind, elements: seq<Expression>): (r: (ExpressionList, PState))
    ensures Extends(st, r.1)
    ensures (NoNewErrors(st, r.1) && AllComplete(elements)) == (r.0.List? && AllComplete(r.0.items))
    ensures r.0.List? ==> elements <= r.0.items
    decreases Remaining(ts, st.pos), 3
  {
    if Peek(ts, st).kind == COMMA then
      var (element, st1) := ParseExpression(ts, NextToken(NextToken(st)), LOWEST);
      AllCompleteAppend(elements, element);
      ListLoop(ts, st1, end, elements + [element])
    else
      var (ok, st1) := ExpectPeek(ts, st, end);
      (if ok then List(elements) else NilList, st1)
  }

  /** `parseFunctionParameter`: the same shape as an expression list, but
      each parameter is an identifier made from whatever token is there. */
  function ParseFunctionParameter(ts: seq<Token>, st: PState): (r: (Option<seq<Identifier>>, PState))
    ensures Extends(st, r.1)
    ensures NoNewErrors(st, r.1) == r.0.Some?
  {
    if Peek(ts, st).kind == RPAREN then (Some([]), NextToken(st))
    else
      var st1 := NextToken(st);
      ParameterLoop(ts, st1, [Identifier(Curr(ts, st1), Curr(ts, st1).literal)])
  }

  function ParameterLoop(ts: seq<Token>, st: PState, identifiers: seq<Identifier>): (r: (Option<seq<Identifier>>, PState))
    ensures Extends(st, r.1)
    ensures NoNewErrors(st, r.1) == r.0.Some?
    ensures r.0.Some? ==> identifiers <= r.0.value
    decreases Remaining(ts, st.pos)
  {
    if Peek(ts, st).kind == COMMA then
      var st1 := NextToken(NextToken(st));
      ParameterLoop(ts, st1, identifiers + [Identifier(Curr(ts, st1), Curr(ts, st1).literal)])
    else
      var (ok, st1) := ExpectPeek(ts, st, RPAREN);
      (if ok then Some(identifiers) else None, st1)
  }

  /** `parseBlockStatement`: statements after the `{` up to a `}` or EOF. */
  function ParseBlockStatement(ts: seq<Token>, st: PState): (r: (BlockStatement, PState))
    requires Curr(ts, st).kind == LBRACE
    ensures Extends(st, r.1) && st.pos < r.1.pos
    ensures NoNewErrors(st, r.1) == r.0.Complete()
    ensures Curr(ts, r.1).kind in {RBRACE, EOF}
    ensures r.0.token == Curr(ts, st)
    decreases Remaining(ts, st.pos), 10
  {
    BlockLoop(ts, NextToken(st), Curr(ts, st), [])
  }

  function BlockLoop(ts: seq<Token>, st: PState, token: Token, statements: seq<Statement>): (r: (BlockStatement, PState))
    ensures Extends(st, r.1)
    ensures (NoNewErrors(st, r.1) && AllStatementsComplete(statements)) == r.0.Complete()
    ensures Curr(ts, r.1).kind in {RBRACE, EOF}
    ensures r.0.token == token && statements <= r.0.statements
    decreases Remaining(ts, st.pos), 9
  {
    if Curr(ts, st).kind == RBRACE || Curr(ts, st).kind == EOF then (BlockStatement(token, statements), st)
    else
      var (s, st1) := ParseStatement(ts, st);
      AllStatementsCompleteAppend(statements, s);
      BlockLoop(ts, NextToken(st1), token, statements + [s])
  }

  /** `parseInfixExpression`: the right operand is parsed at the operator's
      own precedence. */
  function ParseInfixExpression(ts: seq<Token>, st: PState, left: Expression): (r: (Expression, PState))
    requires IsBinaryOperator(Curr(ts, st).kind)
    ensures Extends(st, r.1)
    ensures (NoNewErrors(st, r.1) && left.Complete()) == r.0.Complete()
    decreases Remaining(ts, st.pos), 4
  {
    var token := Curr(ts, st);
    var (right, st1) := ParseExpression(ts, NextToken(st), Precedence(token.kind));
    (Infix(token, left, token.literal, right), st1)
  }

  function ParseCallExpression(ts: seq<Token>, st: PState, callee: Expression): (r: (Expression, PState))
    requires Curr(ts, st).kind == LPAREN
    ensures Extends(st, r.1)
    ensures (NoNewErrors(st, r.1) && callee.Complete()) == r.0.Complete()
    decreases Remaining(ts, st.pos), 4
  {
    var (arguments, st1) := ParseExpressionList(ts, st, RPAREN);
    (Call(Curr(ts, st), callee, arguments), st1)
  }

  function ParseIndexExpression(ts: seq<Token>, st: PState, left: Expression): (r: (Expression, PState))
    requires Curr(ts, st).kind == LBRACKET
    ensures Extends(st, r.1)
    ensures (NoNewErrors(st, r.1) && left.Complete()) == r.0.Complete()
    decreases Remaining(ts, st.pos), 4
  {
    var token := Curr(ts, st);
    var (index, st1) := ParseExpression(ts, NextToken(st), LOWEST);
    var (ok, st2) := ExpectPeek(ts, st1, RBRACKET);
    (if ok then Index(token, left, index) else Nil, st2)
  }
}
