/** Whole programs from the parser's tests, stated over the tokens the lexer
    hands out for them, with the tree the parser builds, the empty error
    list, and the rendering the tests compare against. */
module ParserExamples {
  import opened Token
  import opened Wrappers
  import opened Strconv
  import opened Ast
  import opened ParserSpec
  import opened ParserProperties
  import Lexer
  import LexerProperties

  const Start: PState := PState(0, [], false)

  /** `return 5; return 10; return 1000;` */
  const ReturnTokens: seq<Token> := [
    Token(RETURN, "return"), Token(INTEGER, "5"), Token(SEMICOLON, ";"),
    Token(RETURN, "return"), Token(INTEGER, "10"), Token(SEMICOLON, ";"),
    Token(RETURN, "return"), Token(INTEGER, "1000"), Token(SEMICOLON, ";"),
    Token(EOF, "")]

  lemma ParseIntReturnValues()
    ensures ParseInt("5") == Some(5) && ParseInt("10") == Some(10) && ParseInt("1000") == Some(1000)
  {
    assert "10"[..1] == "1" && "1"[..0] == [];
    assert "1000"[..3] == "100" && "100"[..2] == "10";
  }

  /** `ts` holds the tokens of `expected`. The examples take their tokens
      as a parameter that satisfies this, so that the parse functions are
      unfolded step by step rather than evaluated on a constant. */
  predicate SameTokens(ts: seq<Token>, expected: seq<Token>)
  {
    |ts| == |expected| && forall i :: 0 <= i < |ts| ==> ts[i] == expected[i]
  }

  lemma ReturnTokensAt(ts: seq<Token>)
    requires SameTokens(ts, ReturnTokens)
    ensures |ts| == 10
    ensures ts[0].kind == RETURN && ts[3].kind == RETURN && ts[6].kind == RETURN
    ensures ts[1] == Token(INTEGER, "5") && ts[4] == Token(INTEGER, "10") && ts[7] == Token(INTEGER, "1000")
    ensures ts[2].kind == SEMICOLON && ts[5].kind == SEMICOLON && ts[8].kind == SEMICOLON
    ensures ts[9].kind == EOF
  {
  }

  lemma ReturnTokensShape(ts: seq<Token>)
    requires SameTokens(ts, ReturnTokens)
    ensures ReturnAtoms(ts, 0, 3)
    ensures ReturnAtomsList(ts, 0, 3) == [
      Return(ts[0], IntegerLiteral(ts[1], 5)),
      Return(ts[3], IntegerLiteral(ts[4], 10)),
      Return(ts[6], IntegerLiteral(ts[7], 1000))]
  {
    ParseIntReturnValues();
    ReturnTokensAt(ts);
    assert ReturnAtoms(ts, 9, 0);
    assert ReturnAtoms(ts, 6, 1);
    assert ReturnAtoms(ts, 3, 2);
    assert ReturnAtomsList(ts, 6, 1) == [Return(ts[6], IntegerLiteral(ts[7], 1000))];
    assert ReturnAtomsList(ts, 3, 2) == [Return(ts[3], IntegerLiteral(ts[4], 10))] + ReturnAtomsList(ts, 6, 1);
  }

  /** Three `Return` statements with the values 5, 10 and 1000, no
      errors. */
  lemma ThreeReturns(ts: seq<Token>)
    requires SameTokens(ts, ReturnTokens)
    ensures var (p, st) := ParseProgram(ts);
      && p.statements == [
        Return(ts[0], IntegerLiteral(ts[1], 5)),
        Return(ts[3], IntegerLiteral(ts[4], 10)),
        Return(ts[6], IntegerLiteral(ts[7], 1000))]
      && st.errors == []
  {
    ReturnTokensShape(ts);
    ProgramOfReturns(ts, Start, [], 3);
    assert [] + ReturnAtomsList(ts, 0, 3) == ReturnAtomsList(ts, 0, 3);
  }

  /** `3 + 4;-5 * 5` */
  const SumThenProductTokens: seq<Token> := [
    Token(INTEGER, "3"), Token(PLUS, "+"), Token(INTEGER, "4"), Token(SEMICOLON, ";"),
    Token(MINUS, "-"), Token(INTEGER, "5"), Token(ASTERISK, "*"), Token(INTEGER, "5")]

  /** The trees the parser builds for `3 + 4;-5 * 5`. */
  const SumStatement: Statement :=
    ExpressionStatement(Token(INTEGER, "3"),
      Infix(Token(PLUS, "+"), IntegerLiteral(Token(INTEGER, "3"), 3), "+", IntegerLiteral(Token(INTEGER, "4"), 4)))

  const ProductStatement: Statement :=
    ExpressionStatement(Token(MINUS, "-"),
      Infix(Token(ASTERISK, "*"),
        Prefix(Token(MINUS, "-"), "-", IntegerLiteral(Token(INTEGER, "5"), 5)),
        "*", IntegerLiteral(Token(INTEGER, "5"), 5)))

  const SumThenProductTree: Program := Program([SumStatement, ProductStatement])

  /** `3 + 4;` is one infix node; the `;` is consumed. */
  lemma SumStatementParse(ts: seq<Token>)
    requires SameTokens(ts, SumThenProductTokens)
    ensures ParseStatement(ts, Start) == (SumStatement, Start.(pos := 3))
  {
    assert ParseInt("3") == Some(3) && ParseInt("4") == Some(4);
    OneOperator(ts, Start, LOWEST);
    ExpressionStatementStep(ts, Start, SumStatement.expression, Start.(pos := 2));
  }

  /** `-5 * 5`: the prefix minus binds tighter than `*`. */
  lemma ProductStatementParse(ts: seq<Token>)
    requires SameTokens(ts, SumThenProductTokens)
    ensures ParseStatement(ts, Start.(pos := 4)) == (ProductStatement, Start.(pos := 7))
  {
    assert ParseInt("5") == Some(5);
    PrefixBindsTighter(ts, Start.(pos := 4));
    ExpressionStatementStep(ts, Start.(pos := 4), ProductStatement.expression, Start.(pos := 7));
  }

  /** The program: two expression statements, no errors. */
  lemma SumThenProductParse(ts: seq<Token>)
    requires SameTokens(ts, SumThenProductTokens)
    ensures ParseProgram(ts) == (SumThenProductTree, Start.(pos := 8))
  {
    SumStatementParse(ts);
    ProductStatementParse(ts);
    ProgramLoopStep(ts, Start, [], SumStatement, Start.(pos := 3));
    ProgramLoopStep(ts, Start.(pos := 4), [] + [SumStatement], ProductStatement, Start.(pos := 7));
    assert [] + [SumStatement] + [ProductStatement] == [SumStatement, ProductStatement];
    assert Curr(ts, Start.(pos := 8)).kind == EOF;
  }

  /** Rendered, the two statements follow each other with no separator. */
  lemma SumThenProductString()
    ensures SumThenProductTree.String() == "(3 + 4)((-5) * 5)"
  {
    assert SumStatement.String() == "(3 + 4)";
    assert ProductStatement.String() == "((-5) * 5)";
    assert StatementsString([ProductStatement]) == ProductStatement.String();
  }

  const SumThenProductInput: ByteString := "3 + 4;-5 * 5"

  /** A one-digit number after whitespace. */
  lemma ScanOneDigit(input: ByteString, p: nat, q: nat)
    requires p <= q < |input|
    requires forall i :: p <= i < q ==> Lexer.InClass(Lexer.CharAt(input, i), Lexer.Whitespace)
    requires Lexer.InClass(input[q], Lexer.Digits) && !Lexer.InClass(Lexer.CharAt(input, q + 1), Lexer.Digits)
    ensures Lexer.Scan(input, p) == (Token(INTEGER, [input[q]]), q + 1)
  {
    LexerProperties.RunEndAt(input, p, q, Lexer.Whitespace);
    LexerProperties.RunEndAt(input, q, q + 1, Lexer.Digits);
    assert input[q..q + 1] == [input[q]];
  }

  /** The tokens the lexer hands out for `3 + 4;-5 * 5`, by position. */
  lemma SumThenProductScanNumbers()
    ensures Lexer.Scan(SumThenProductInput, 0) == (Token(INTEGER, "3"), 1)
    ensures Lexer.Scan(SumThenProductInput, 3) == (Token(INTEGER, "4"), 5)
    ensures Lexer.Scan(SumThenProductInput, 7) == (Token(INTEGER, "5"), 8)
    ensures Lexer.Scan(SumThenProductInput, 10) == (Token(INTEGER, "5"), 12)
  {
    var input := SumThenProductInput;
    ScanOneDigit(input, 0, 0);
    ScanOneDigit(input, 3, 4);
    ScanOneDigit(input, 7, 7);
    ScanOneDigit(input, 10, 11);
  }

  lemma SumThenProductScanOperators()
    ensures Lexer.Scan(SumThenProductInput, 1) == (Token(PLUS, "+"), 3)
    ensures Lexer.Scan(SumThenProductInput, 5) == (Token(SEMICOLON, ";"), 6)
    ensures Lexer.Scan(SumThenProductInput, 6) == (Token(MINUS, "-"), 7)
    ensures Lexer.Scan(SumThenProductInput, 8) == (Token(ASTERISK, "*"), 10)
  {
    var input := SumThenProductInput;
    LexerProperties.RunEndAt(input, 1, 2, Lexer.Whitespace);
    LexerProperties.RunEndAt(input, 5, 5, Lexer.Whitespace);
    LexerProperties.RunEndAt(input, 6, 6, Lexer.Whitespace);
    LexerProperties.RunEndAt(input, 8, 9, Lexer.Whitespace);
  }

  /** The lexer's tokens for `3 + 4;-5 * 5`. */
  lemma SumThenProductLex()
    ensures Lexer.Stream(SumThenProductInput, 0) == SumThenProductTokens
  {
    var input, t := SumThenProductInput, SumThenProductTokens;
    SumThenProductScanNumbers();
    SumThenProductScanOperators();
    LexerProperties.StreamStep(input, 10, t[7], 12);
    LexerProperties.StreamStep(input, 8, t[6], 10);
    LexerProperties.StreamStep(input, 7, t[5], 8);
    LexerProperties.StreamStep(input, 6, t[4], 7);
    LexerProperties.StreamStep(input, 5, t[3], 6);
    LexerProperties.StreamStep(input, 3, t[2], 5);
    LexerProperties.StreamStep(input, 1, t[1], 3);
    LexerProperties.StreamStep(input, 0, t[0], 1);
    assert t == [t[0], t[1], t[2], t[3], t[4], t[5], t[6], t[7]];
  }

  /** From source text to rendering, as the precedence test does it: the
      lexer's tokens for `3 + 4;-5 * 5`, parsed without errors, render as
      `(3 + 4)((-5) * 5)`. */
  lemma SumThenProductPipeline()
    ensures ParseProgram(Lexer.Stream(SumThenProductInput, 0)).1.errors == []
    ensures ParseProgram(Lexer.Stream(SumThenProductInput, 0)).0.Renderable()
    ensures ParseProgram(Lexer.Stream(SumThenProductInput, 0)).0.String() == "(3 + 4)((-5) * 5)"
  {
    SumThenProductLex();
    SumThenProductTokensParse(Lexer.Stream(SumThenProductInput, 0));
  }

  lemma SumThenProductTokensParse(ts: seq<Token>)
    requires ts == SumThenProductTokens
    ensures ParseProgram(ts).1.errors == []
    ensures ParseProgram(ts).0.Renderable() && ParseProgram(ts).0.String() == "(3 + 4)((-5) * 5)"
  {
    SumThenProductParse(ts);
    SumThenProductString();
  }

  /** `08(1)`: the callee `08` is not a decimal literal, so the parser
      records an integer error and calls nil with the argument `1`. */
  const NilCalleeInput: ByteString := "08(1)"

  const NilCalleeTokens: seq<Token> := [
    Token(INTEGER, "08"), Token(LPAREN, "("), Token(INTEGER, "1"), Token(RPAREN, ")")]

  const NilCalleeTree: Program :=
    Program([ExpressionStatement(Token(INTEGER, "08"), NilCalleeCall)])

  lemma NilCalleeTokensAt(ts: seq<Token>)
    requires SameTokens(ts, NilCalleeTokens)
    ensures |ts| == 4
    ensures ts[0] == Token(INTEGER, "08") && ts[1] == Token(LPAREN, "(")
    ensures ts[2] == Token(INTEGER, "1") && ts[3] == Token(RPAREN, ")")
  {
  }

  /** `08` parses to nil with the literal's error, leaving the cursor on it. */
  lemma NilCalleePrefix(ts: seq<Token>)
    requires SameTokens(ts, NilCalleeTokens)
    ensures ParseExpression(ts, Start, LOWEST) == InfixLoop(ts, Start.(errors := [IntegerParseError("08")]), LOWEST, Nil)
  {
    NilCalleeTokensAt(ts);
    ParseIntLeadingZeroExamples();
    assert Curr(ts, Start).literal == "08";
    assert ParseInt(Curr(ts, Start).literal) == None;
    assert AddError(Start, IntegerParseError("08")) == Start.(errors := [IntegerParseError("08")]);
    assert ParseIntegerLiteral(ts, Start) == (Nil, Start.(errors := [IntegerParseError("08")]));
    assert PrefixParseFn(ts, Start) == ParseIntegerLiteral(ts, Start);
  }

  const NilCalleeCall: Expression :=
    Call(Token(LPAREN, "("), Nil, List([IntegerLiteral(Token(INTEGER, "1"), 1)]))

  /** The expression goes on past the bad literal: the call is built
      around the nil callee, and the one error is the literal's. */
  lemma NilCalleeExpression(ts: seq<Token>)
    requires SameTokens(ts, NilCalleeTokens)
    ensures ParseExpression(ts, Start, LOWEST) == (NilCalleeCall, Start.(pos := 3, errors := [IntegerParseError("08")]))
  {
    NilCalleeTokensAt(ts);
    NilCalleePrefix(ts);
    assert ParseInt("1") == Some(1);
    var st1 := Start.(errors := [IntegerParseError("08")]);
    var arguments := List([IntegerLiteral(Token(INTEGER, "1"), 1)]);
    ExpressionListAtoms(ts, st1.(pos := 1), RPAREN, 0);
    assert [Atom(ts[2])] + CommaAtomsList(ts, 2, 0, RPAREN) == arguments.items;
    InfixLoopCall(ts, st1, LOWEST, Nil, arguments, st1.(pos := 3));
    InfixLoopStops(ts, st1.(pos := 3), LOWEST, NilCalleeCall);
  }

  /** The program is the one statement holding that call. */
  lemma NilCalleeParse(ts: seq<Token>)
    requires SameTokens(ts, NilCalleeTokens)
    ensures ParseProgram(ts) == (NilCalleeTree, Start.(pos := 4, errors := [IntegerParseError("08")]))
  {
    NilCalleeTokensAt(ts);
    NilCalleeExpression(ts);
    var st1 := Start.(pos := 3, errors := [IntegerParseError("08")]);
    ExpressionStatementStep(ts, Start, NilCalleeCall, st1);
    var statement := ExpressionStatement(Token(INTEGER, "08"), NilCalleeCall);
    ProgramLoopStep(ts, Start, [], statement, st1);
    ProgramLoopEof(ts, st1.(pos := 4), [] + [statement]);
    assert [] + [statement] == NilCalleeTree.statements;
  }

  /** The nil callee renders as `fmt`'s placeholder for a nil operand. */
  lemma NilCalleeString()
    ensures NilCalleeTree.Renderable()
    ensures NilCalleeTree.String() == "%!s(<nil>)(1)"
  {
    var arguments := [IntegerLiteral(Token(INTEGER, "1"), 1)];
    assert ExpressionStrings(arguments) == ["1"];
    assert JoinStrings(["1"], ", ") == "1";
    assert NilCalleeTree.statements[0].String() == "%!s(<nil>)(1)";
    assert StatementsString(NilCalleeTree.statements) == NilCalleeTree.statements[0].String();
  }

  lemma NilCalleeScanNumbers()
    ensures Lexer.Scan(NilCalleeInput, 0) == (Token(INTEGER, "08"), 2)
    ensures Lexer.Scan(NilCalleeInput, 3) == (Token(INTEGER, "1"), 4)
  {
    var input := NilCalleeInput;
    LexerProperties.RunEndAt(input, 0, 0, Lexer.Whitespace);
    LexerProperties.RunEndAt(input, 0, 2, Lexer.Digits);
    assert input[0..2] == "08";
    ScanOneDigit(input, 3, 3);
  }

  lemma NilCalleeScanParentheses()
    ensures Lexer.Scan(NilCalleeInput, 2) == (Token(LPAREN, "("), 3)
    ensures Lexer.Scan(NilCalleeInput, 4) == (Token(RPAREN, ")"), 5)
  {
    var input := NilCalleeInput;
    LexerProperties.RunEndAt(input, 2, 2, Lexer.Whitespace);
    LexerProperties.RunEndAt(input, 4, 4, Lexer.Whitespace);
  }

  /** The lexer's tokens for `08(1)`: `08` is one digit run. */
  lemma NilCalleeLex()
    ensures Lexer.Stream(NilCalleeInput, 0) == NilCalleeTokens
  {
    var input, t := NilCalleeInput, NilCalleeTokens;
    NilCalleeScanNumbers();
    NilCalleeScanParentheses();
    LexerProperties.StreamStep(input, 4, t[3], 5);
    LexerProperties.StreamStep(input, 3, t[2], 4);
    LexerProperties.StreamStep(input, 2, t[1], 3);
    LexerProperties.StreamStep(input, 0, t[0], 2);
    assert t == [t[0], t[1], t[2], t[3]];
  }

  /** From source text to rendering: `08(1)` leaves one error and renders
      with the nil placeholder where the callee would be. */
  lemma NilCalleePipeline()
    ensures ParseProgram(Lexer.Stream(NilCalleeInput, 0)).1.errors == [IntegerParseError("08")]
    ensures ParseProgram(Lexer.Stream(NilCalleeInput, 0)).0.Renderable()
    ensures ParseProgram(Lexer.Stream(NilCalleeInput, 0)).0.String() == "%!s(<nil>)(1)"
  {
    NilCalleeLex();
    NilCalleeTokensParse(Lexer.Stream(NilCalleeInput, 0));
  }

  lemma NilCalleeTokensParse(ts: seq<Token>)
    requires ts == NilCalleeTokens
    ensures ParseProgram(ts).1.errors == [IntegerParseError("08")]
    ensures ParseProgram(ts).0.Renderable() && ParseProgram(ts).0.String() == "%!s(<nil>)(1)"
  {
    NilCalleeParse(ts);
    NilCalleeString();
  }

  /** `{}`: the lexer's tokens reach the hash literal parser, which builds
      an empty hash literal with no error. */
  const EmptyHashInput: ByteString := "{}"

  const EmptyHashTokens: seq<Token> := [Token(LBRACE, "{"), Token(RBRACE, "}")]

  const EmptyHashTree: Program :=
    Program([ExpressionStatement(Token(LBRACE, "{"), HashLiteral(Token(LBRACE, "{"), []))])

  lemma EmptyHashExpression(ts: seq<Token>)
    requires SameTokens(ts, EmptyHashTokens)
    ensures ParseExpression(ts, Start, LOWEST) == (HashLiteral(Token(LBRACE, "{"), []), Start.(pos := 1))
  {
    assert ts[0] == Token(LBRACE, "{") && ts[1] == Token(RBRACE, "}");
    var hash := HashLiteral(Token(LBRACE, "{"), []);
    EmptyHashLiteral(ts, Start);
    assert PrefixParseFn(ts, Start) == (hash, Start.(pos := 1));
    InfixLoopStops(ts, Start.(pos := 1), LOWEST, hash);
  }

  lemma EmptyHashParse(ts: seq<Token>)
    requires SameTokens(ts, EmptyHashTokens)
    ensures ParseProgram(ts) == (EmptyHashTree, Start.(pos := 2))
  {
    assert ts[0] == Token(LBRACE, "{") && |ts| == 2;
    var hash := HashLiteral(Token(LBRACE, "{"), []);
    EmptyHashExpression(ts);
    ExpressionStatementStep(ts, Start, hash, Start.(pos := 1));
    var statement := ExpressionStatement(Token(LBRACE, "{"), hash);
    ProgramLoopStep(ts, Start, [], statement, Start.(pos := 1));
    ProgramLoopEof(ts, Start.(pos := 2), [] + [statement]);
    assert [] + [statement] == EmptyHashTree.statements;
  }

  lemma EmptyHashLex()
    ensures Lexer.Stream(EmptyHashInput, 0) == EmptyHashTokens
  {
    var input, t := EmptyHashInput, EmptyHashTokens;
    LexerProperties.RunEndAt(input, 0, 0, Lexer.Whitespace);
    LexerProperties.RunEndAt(input, 1, 1, Lexer.Whitespace);
    LexerProperties.StreamStep(input, 1, t[1], 2);
    LexerProperties.StreamStep(input, 0, t[0], 1);
    assert t == [t[0], t[1]];
  }

  /** From source text: `{}` parses with no error to one statement holding
      an empty hash literal, which the AST package cannot render. */
  lemma EmptyHashPipeline()
    ensures ParseProgram(Lexer.Stream(EmptyHashInput, 0)).1.errors == []
    ensures ParseProgram(Lexer.Stream(EmptyHashInput, 0)).0 == EmptyHashTree
    ensures !EmptyHashTree.Renderable()
  {
    EmptyHashLex();
    EmptyHashTokensParse(Lexer.Stream(EmptyHashInput, 0));
    assert !EmptyHashTree.statements[0].Renderable();
  }

  lemma EmptyHashTokensParse(ts: seq<Token>)
    requires ts == EmptyHashTokens
    ensures ParseProgram(ts).1.errors == [] && ParseProgram(ts).0 == EmptyHashTree
  {
    EmptyHashParse(ts);
  }

  /** On the lexer's output, a hash literal other than `{}` fails at its
      first key, whatever the input: no token is a `:`. */
  lemma LexedHashFailsAtFirstKey(input: ByteString, st: PState)
    requires Curr(Lexer.Stream(input, 0), st).kind == LBRACE
    requires Peek(Lexer.Stream(input, 0), st).kind != RBRACE
    ensures var ts := Lexer.Stream(input, 0);
      var (key, st1) := ParseExpression(ts, NextToken(st), LOWEST);
      ParseHashLiteral(ts, st) == (Nil, st1.(errors := st1.errors + [PeekError(Peek(ts, st1), COLON)]))
  {
    var ts := Lexer.Stream(input, 0);
    LexerProperties.StreamHasNoUnlexedKinds(input, 0);
    HashFailsWithoutColon(ts, st);
  }
}
