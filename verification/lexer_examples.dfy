/** The lexer on the sample program of the repository's lexer test: the
    tokens `NextToken` hands out for it, one by one, up to the final EOF.
    The sample is cut into pieces; every piece but the last ends on a
    token that needs no look past it, so the stream of the whole text is
    the streams of the pieces one after another
    (`LexerProperties.StreamConcat`). */
module LexerExamples {
  import opened Token
  import opened Lexer
  import opened Wrappers
  import opened LexerProperties

  /** The bytes of input from q on spell w. */
  lemma SliceIs(input: ByteString, q: nat, w: ByteString)
    requires q + |w| <= |input|
    requires forall i :: 0 <= i < |w| ==> input[q + i] == w[i]
    ensures input[q..q + |w|] == w
  {
  }

  /** A call whose cursor at p skips whitespace up to q and finds the letter
      run w there returns w, classified by `LookupIdentifier`. */
  lemma ScanWord(input: ByteString, p: nat, q: nat, w: ByteString)
    requires p <= q && q + |w| <= |input| && |w| > 0
    requires forall i :: p <= i < q ==> InClass(CharAt(input, i), Whitespace)
    requires forall i :: 0 <= i < |w| ==> input[q + i] == w[i] && InClass(w[i], Letters)
    requires !InClass(CharAt(input, q + |w|), Letters)
    ensures Scan(input, p) == (Token(LookupIdentifier(w), w), q + |w|)
  {
    assert input[q] == w[0];
    RunEndAt(input, p, q, Whitespace);
    forall i | q <= i < q + |w|
      ensures InClass(CharAt(input, i), Letters)
    {
      assert input[q + (i - q)] == w[i - q];
    }
    RunEndAt(input, q, q + |w|, Letters);
    SliceIs(input, q, w);
  }

  /** The same for a digit run, which is an INTEGER token. */
  lemma ScanDigits(input: ByteString, p: nat, q: nat, w: ByteString)
    requires p <= q && q + |w| <= |input| && |w| > 0
    requires forall i :: p <= i < q ==> InClass(CharAt(input, i), Whitespace)
    requires forall i :: 0 <= i < |w| ==> input[q + i] == w[i] && InClass(w[i], Digits)
    requires !InClass(CharAt(input, q + |w|), Digits)
    ensures Scan(input, p) == (Token(INTEGER, w), q + |w|)
  {
    assert input[q] == w[0];
    RunEndAt(input, p, q, Whitespace);
    forall i | q <= i < q + |w|
      ensures InClass(CharAt(input, i), Digits)
    {
      assert input[q + (i - q)] == w[i - q];
    }
    RunEndAt(input, q, q + |w|, Digits);
    SliceIs(input, q, w);
  }

  /** A call whose cursor at p skips whitespace up to q and finds an
      operator, a delimiter or the end there returns that token. */
  lemma ScanOperatorAt(input: ByteString, p: nat, q: nat, t: Token, n: nat)
    requires p <= q <= |input|
    requires forall i :: p <= i < q ==> InClass(CharAt(input, i), Whitespace)
    requires !InClass(CharAt(input, q), Whitespace)
    requires Operator(CharAt(input, q), CharAt(input, q + 1)) == Some((t, n))
    ensures Scan(input, p) == (t, q + n)
  {
    RunEndAt(input, p, q, Whitespace);
  }

  /** One step of `EndsCleanly`: a token that ends inside c, followed by
      tokens that end cleanly. */
  lemma CleanStep(c: ByteString, p: nat, t: Token, q: nat)
    requires p < |c| && Scan(c, p) == (t, q) && q < |c| && EndsCleanly(c, q)
    ensures EndsCleanly(c, p)
  {
  }

  /** The last token of a text that ends cleanly. */
  lemma CleanLast(c: ByteString, p: nat, t: Token)
    requires p < |c| && Scan(c, p) == (t, |c|) && NoLookahead(t.kind)
    ensures EndsCleanly(c, p)
  {
  }

  /** The sample, cut after the last token of each source line, and the two
      longest lines also after their opening parenthesis: a piece starts
      with the line breaks and indentation before its first token. */
  const Piece1: ByteString := "let five = 5;"
  const Piece2: ByteString := "\nlet ten = 10;"
  const Piece3: ByteString := "\n\nlet add = func("
  const Piece4: ByteString := "x, y) {"
  const Piece5: ByteString := "\n\treturn x+y;"
  const Piece6: ByteString := "\n};"
  const Piece7: ByteString := "\n\nlet result = add("
  const Piece8: ByteString := "five, ten);"
  const Piece9: ByteString := "\n\n!-/*5;"
  const Piece10: ByteString := "\n5 < 10 > 5;"
  const Piece11: ByteString := "\n\nif (5 < 10) {"
  const Piece12: ByteString := "\n\treturn true;"
  const Piece13: ByteString := "\n} else {"
  const Piece14: ByteString := "\n\treturn false;"
  const Piece15: ByteString := "\n}"
  const Piece16: ByteString := "\n10 == 10;"
  const Piece17: ByteString := "\n10 != 5;"
  const Piece18: ByteString := "\n"

  /** The tokens each piece yields, as the lexer test lists them. */
  const Tokens1: seq<Token> :=
    [Token(LET, "let"), Token(IDENTIFIER, "five"), Token(ASSIGN, "="), Token(INTEGER, "5"), Token(SEMICOLON, ";")]
  const Tokens2: seq<Token> :=
    [Token(LET, "let"), Token(IDENTIFIER, "ten"), Token(ASSIGN, "="), Token(INTEGER, "10"), Token(SEMICOLON, ";")]
  const Tokens3: seq<Token> :=
    [Token(LET, "let"), Token(IDENTIFIER, "add"), Token(ASSIGN, "="), Token(FUNCTION, "func"), Token(LPAREN, "(")]
  const Tokens4: seq<Token> :=
    [Token(IDENTIFIER, "x"), Token(COMMA, ","), Token(IDENTIFIER, "y"), Token(RPAREN, ")"), Token(LBRACE, "{")]
  const Tokens5: seq<Token> :=
    [Token(RETURN, "return"), Token(IDENTIFIER, "x"), Token(PLUS, "+"), Token(IDENTIFIER, "y"), Token(SEMICOLON, ";")]
  const Tokens6: seq<Token> :=
    [Token(RBRACE, "}"), Token(SEMICOLON, ";")]
  const Tokens7: seq<Token> :=
    [Token(LET, "let"), Token(IDENTIFIER, "result"), Token(ASSIGN, "="), Token(IDENTIFIER, "add"), Token(LPAREN, "(")]
  const Tokens8: seq<Token> :=
    [Token(IDENTIFIER, "five"), Token(COMMA, ","), Token(IDENTIFIER, "ten"), Token(RPAREN, ")"), Token(SEMICOLON, ";")]
  const Tokens9: seq<Token> :=
    [Token(BANG, "!"), Token(MINUS, "-"), Token(SLASH, "/"), Token(ASTERISK, "*"), Token(INTEGER, "5"), Token(SEMICOLON, ";")]
  const Tokens10: seq<Token> :=
    [Token(INTEGER, "5"), Token(LESS_THAN, "<"), Token(INTEGER, "10"), Token(GREATER_THAN, ">"), Token(INTEGER, "5"), Token(SEMICOLON, ";")]
  const Tokens11: seq<Token> :=
    [Token(IF, "if"), Token(LPAREN, "("), Token(INTEGER, "5"), Token(LESS_THAN, "<"), Token(INTEGER, "10"), Token(RPAREN, ")"), Token(LBRACE, "{")]
  const Tokens12: seq<Token> :=
    [Token(RETURN, "return"), Token(TRUE, "true"), Token(SEMICOLON, ";")]
  const Tokens13: seq<Token> :=
    [Token(RBRACE, "}"), Token(ELSE, "else"), Token(LBRACE, "{")]
  const Tokens14: seq<Token> :=
    [Token(RETURN, "return"), Token(FALSE, "false"), Token(SEMICOLON, ";")]
  const Tokens15: seq<Token> :=
    [Token(RBRACE, "}")]
  const Tokens16: seq<Token> :=
    [Token(INTEGER, "10"), Token(EQUAL, "=="), Token(INTEGER, "10"), Token(SEMICOLON, ";")]
  const Tokens17: seq<Token> :=
    [Token(INTEGER, "10"), Token(NOT_EQUAL, "!="), Token(INTEGER, "5"), Token(SEMICOLON, ";")]
  const Tokens18: seq<Token> :=
    [Token(EOF, "")]

  /** The sample from piece k on, and the tokens the test expects for it. */
  const Rest18: ByteString := Piece18
  const Tail18: seq<Token> := Tokens18
  const Rest17: ByteString := Piece17 + Rest18
  const Tail17: seq<Token> := Tokens17 + Tail18
  const Rest16: ByteString := Piece16 + Rest17
  const Tail16: seq<Token> := Tokens16 + Tail17
  const Rest15: ByteString := Piece15 + Rest16
  const Tail15: seq<Token> := Tokens15 + Tail16
  const Rest14: ByteString := Piece14 + Rest15
  const Tail14: seq<Token> := Tokens14 + Tail15
  const Rest13: ByteString := Piece13 + Rest14
  const Tail13: seq<Token> := Tokens13 + Tail14
  const Rest12: ByteString := Piece12 + Rest13
  const Tail12: seq<Token> := Tokens12 + Tail13
  const Rest11: ByteString := Piece11 + Rest12
  const Tail11: seq<Token> := Tokens11 + Tail12
  const Rest10: ByteString := Piece10 + Rest11
  const Tail10: seq<Token> := Tokens10 + Tail11
  const Rest9: ByteString := Piece9 + Rest10
  const Tail9: seq<Token> := Tokens9 + Tail10
  const Rest8: ByteString := Piece8 + Rest9
  const Tail8: seq<Token> := Tokens8 + Tail9
  const Rest7: ByteString := Piece7 + Rest8
  const Tail7: seq<Token> := Tokens7 + Tail8
  const Rest6: ByteString := Piece6 + Rest7
  const Tail6: seq<Token> := Tokens6 + Tail7
  const Rest5: ByteString := Piece5 + Rest6
  const Tail5: seq<Token> := Tokens5 + Tail6
  const Rest4: ByteString := Piece4 + Rest5
  const Tail4: seq<Token> := Tokens4 + Tail5
  const Rest3: ByteString := Piece3 + Rest4
  const Tail3: seq<Token> := Tokens3 + Tail4
  const Rest2: ByteString := Piece2 + Rest3
  const Tail2: seq<Token> := Tokens2 + Tail3
  const Rest1: ByteString := Piece1 + Rest2
  const Tail1: seq<Token> := Tokens1 + Tail2

  /** The sample text of the lexer test. */
  const SampleInput: ByteString := Rest1

  /** The 75 tokens the lexer test expects, line by line. */
  const SampleTokens: seq<Token> := Tail1

  // Piece 1, "let five = 5;": each token read by its own `NextToken` call, then the
  // calls chained into the stream of the piece.

  lemma Piece1Token0(c: ByteString)
    requires c == Piece1
    ensures Scan(c, 0) == (Token(LET, "let"), 3)
  {
    ScanWord(c, 0, 0, "let");
    LookupIdentifierKeywords("let");
  }

  lemma Piece1Token1(c: ByteString)
    requires c == Piece1
    ensures Scan(c, 3) == (Token(IDENTIFIER, "five"), 8)
  {
    ScanWord(c, 3, 4, "five");
    LookupIdentifierKeywords("five");
  }

  lemma Piece1Token2(c: ByteString)
    requires c == Piece1
    ensures Scan(c, 8) == (Token(ASSIGN, "="), 10)
  {
    ScanOperatorAt(c, 8, 9, Token(ASSIGN, "="), 1);
  }

  lemma Piece1Token3(c: ByteString)
    requires c == Piece1
    ensures Scan(c, 10) == (Token(INTEGER, "5"), 12)
  {
    ScanDigits(c, 10, 11, "5");
  }

  lemma Piece1Token4(c: ByteString)
    requires c == Piece1
    ensures Scan(c, 12) == (Token(SEMICOLON, ";"), 13)
  {
    ScanOperatorAt(c, 12, 12, Token(SEMICOLON, ";"), 1);
  }

  lemma Piece1Chain(c: ByteString)
    requires |c| == 13
    requires Scan(c, 0) == (Tokens1[0], 3)
    requires Scan(c, 3) == (Tokens1[1], 8)
    requires Scan(c, 8) == (Tokens1[2], 10)
    requires Scan(c, 10) == (Tokens1[3], 12)
    requires Scan(c, 12) == (Tokens1[4], 13)
    ensures Stream(c, 0) == Tokens1
    ensures EndsCleanly(c, 0)
  {
    CleanLast(c, 12, Tokens1[4]);
    StreamStep(c, 12, Tokens1[4], 13);
    CleanStep(c, 10, Tokens1[3], 12);
    StreamStep(c, 10, Tokens1[3], 12);
    CleanStep(c, 8, Tokens1[2], 10);
    StreamStep(c, 8, Tokens1[2], 10);
    CleanStep(c, 3, Tokens1[1], 8);
    StreamStep(c, 3, Tokens1[1], 8);
    CleanStep(c, 0, Tokens1[0], 3);
    StreamStep(c, 0, Tokens1[0], 3);
  }

  lemma Piece1Lex(c: ByteString)
    requires c == Piece1
    ensures Stream(c, 0) == Tokens1
    ensures EndsCleanly(c, 0)
  {
    Piece1Token0(c);
    Piece1Token1(c);
    Piece1Token2(c);
    Piece1Token3(c);
    Piece1Token4(c);
    Piece1Chain(c);
  }

  // Piece 2, "\nlet ten = 10;": each token read by its own `NextToken` call, then the
  // calls chained into the stream of the piece.

  lemma Piece2Token0(c: ByteString)
    requires c == Piece2
    ensures Scan(c, 0) == (Token(LET, "let"), 4)
  {
    ScanWord(c, 0, 1, "let");
    LookupIdentifierKeywords("let");
  }

  lemma Piece2Token1(c: ByteString)
    requires c == Piece2
    ensures Scan(c, 4) == (Token(IDENTIFIER, "ten"), 8)
  {
    ScanWord(c, 4, 5, "ten");
    LookupIdentifierKeywords("ten");
  }

  lemma Piece2Token2(c: ByteString)
    requires c == Piece2
    ensures Scan(c, 8) == (Token(ASSIGN, "="), 10)
  {
    ScanOperatorAt(c, 8, 9, Token(ASSIGN, "="), 1);
  }

  lemma Piece2Token3(c: ByteString)
    requires c == Piece2
    ensures Scan(c, 10) == (Token(INTEGER, "10"), 13)
  {
    ScanDigits(c, 10, 11, "10");
  }

  lemma Piece2Token4(c: ByteString)
    requires c == Piece2
    ensures Scan(c, 13) == (Token(SEMICOLON, ";"), 14)
  {
    ScanOperatorAt(c, 13, 13, Token(SEMICOLON, ";"), 1);
  }

  lemma Piece2Chain(c: ByteString)
    requires |c| == 14
    requires Scan(c, 0) == (Tokens2[0], 4)
    requires Scan(c, 4) == (Tokens2[1], 8)
    requires Scan(c, 8) == (Tokens2[2], 10)
    requires Scan(c, 10) == (Tokens2[3], 13)
    requires Scan(c, 13) == (Tokens2[4], 14)
    ensures Stream(c, 0) == Tokens2
    ensures EndsCleanly(c, 0)
  {
    CleanLast(c, 13, Tokens2[4]);
    StreamStep(c, 13, Tokens2[4], 14);
    CleanStep(c, 10, Tokens2[3], 13);
    StreamStep(c, 10, Tokens2[3], 13);
    CleanStep(c, 8, Tokens2[2], 10);
    StreamStep(c, 8, Tokens2[2], 10);
    CleanStep(c, 4, Tokens2[1], 8);
    StreamStep(c, 4, Tokens2[1], 8);
    CleanStep(c, 0, Tokens2[0], 4);
    StreamStep(c, 0, Tokens2[0], 4);
  }

  lemma Piece2Lex(c: ByteString)
    requires c == Piece2
    ensures Stream(c, 0) == Tokens2
    ensures EndsCleanly(c, 0)
  {
    Piece2Token0(c);
    Piece2Token1(c);
    Piece2Token2(c);
    Piece2Token3(c);
    Piece2Token4(c);
    Piece2Chain(c);
  }

  // Piece 3, "\n\nlet add = func(": each token read by its own `NextToken` call, then the
  // calls chained into the stream of the piece.

  lemma Piece3Token0(c: ByteString)
    requires c == Piece3
    ensures Scan(c, 0) == (Token(LET, "let"), 5)
  {
    ScanWord(c, 0, 2, "let");
    LookupIdentifierKeywords("let");
  }

  lemma Piece3Token1(c: ByteString)
    requires c == Piece3
    ensures Scan(c, 5) == (Token(IDENTIFIER, "add"), 9)
  {
    ScanWord(c, 5, 6, "add");
    LookupIdentifierKeywords("add");
  }

  lemma Piece3Token2(c: ByteString)
    requires c == Piece3
    ensures Scan(c, 9) == (Token(ASSIGN, "="), 11)
  {
    ScanOperatorAt(c, 9, 10, Token(ASSIGN, "="), 1);
  }

  lemma Piece3Token3(c: ByteString)
    requires c == Piece3
    ensures Scan(c, 11) == (Token(FUNCTION, "func"), 16)
  {
    ScanWord(c, 11, 12, "func");
    LookupIdentifierKeywords("func");
  }

  lemma Piece3Token4(c: ByteString)
    requires c == Piece3
    ensures Scan(c, 16) == (Token(LPAREN, "("), 17)
  {
    ScanOperatorAt(c, 16, 16, Token(LPAREN, "("), 1);
  }

  lemma Piece3Chain(c: ByteString)
    requires |c| == 17
    requires Scan(c, 0) == (Tokens3[0], 5)
    requires Scan(c, 5) == (Tokens3[1], 9)
    requires Scan(c, 9) == (Tokens3[2], 11)
    requires Scan(c, 11) == (Tokens3[3], 16)
    requires Scan(c, 16) == (Tokens3[4], 17)
    ensures Stream(c, 0) == Tokens3
    ensures EndsCleanly(c, 0)
  {
    CleanLast(c, 16, Tokens3[4]);
    StreamStep(c, 16, Tokens3[4], 17);
    CleanStep(c, 11, Tokens3[3], 16);
    StreamStep(c, 11, Tokens3[3], 16);
    CleanStep(c, 9, Tokens3[2], 11);
    StreamStep(c, 9, Tokens3[2], 11);
    CleanStep(c, 5, Tokens3[1], 9);
    StreamStep(c, 5, Tokens3[1], 9);
    CleanStep(c, 0, Tokens3[0], 5);
    StreamStep(c, 0, Tokens3[0], 5);
  }

  lemma Piece3Lex(c: ByteString)
    requires c == Piece3
    ensures Stream(c, 0) == Tokens3
    ensures EndsCleanly(c, 0)
  {
    Piece3Token0(c);
    Piece3Token1(c);
    Piece3Token2(c);
    Piece3Token3(c);
    Piece3Token4(c);
    Piece3Chain(c);
  }

  // Piece 4, "x, y) {": each token read by its own `NextToken` call, then the
  // calls chained into the stream of the piece.

  lemma Piece4Token0(c: ByteString)
    requires c == Piece4
    ensures Scan(c, 0) == (Token(IDENTIFIER, "x"), 1)
  {
    ScanWord(c, 0, 0, "x");
    LookupIdentifierKeywords("x");
  }

  lemma Piece4Token1(c: ByteString)
    requires c == Piece4
    ensures Scan(c, 1) == (Token(COMMA, ","), 2)
  {
    ScanOperatorAt(c, 1, 1, Token(COMMA, ","), 1);
  }

  lemma Piece4Token2(c: ByteString)
    requires c == Piece4
    ensures Scan(c, 2) == (Token(IDENTIFIER, "y"), 4)
  {
    ScanWord(c, 2, 3, "y");
    LookupIdentifierKeywords("y");
  }

  lemma Piece4Token3(c: ByteString)
    requires c == Piece4
    ensures Scan(c, 4) == (Token(RPAREN, ")"), 5)
  {
    ScanOperatorAt(c, 4, 4, Token(RPAREN, ")"), 1);
  }

  lemma Piece4Token4(c: ByteString)
    requires c == Piece4
    ensures Scan(c, 5) == (Token(LBRACE, "{"), 7)
  {
    ScanOperatorAt(c, 5, 6, Token(LBRACE, "{"), 1);
  }

  lemma Piece4Chain(c: ByteString)
    requires |c| == 7
    requires Scan(c, 0) == (Tokens4[0], 1)
    requires Scan(c, 1) == (Tokens4[1], 2)
    requires Scan(c, 2) == (Tokens4[2], 4)
    requires Scan(c, 4) == (Tokens4[3], 5)
    requires Scan(c, 5) == (Tokens4[4], 7)
    ensures Stream(c, 0) == Tokens4
    ensures EndsCleanly(c, 0)
  {
    CleanLast(c, 5, Tokens4[4]);
    StreamStep(c, 5, Tokens4[4], 7);
    CleanStep(c, 4, Tokens4[3], 5);
    StreamStep(c, 4, Tokens4[3], 5);
    CleanStep(c, 2, Tokens4[2], 4);
    StreamStep(c, 2, Tokens4[2], 4);
    CleanStep(c, 1, Tokens4[1], 2);
    StreamStep(c, 1, Tokens4[1], 2);
    CleanStep(c, 0, Tokens4[0], 1);
    StreamStep(c, 0, Tokens4[0], 1);
  }

  lemma Piece4Lex(c: ByteString)
    requires c == Piece4
    ensures Stream(c, 0) == Tokens4
    ensures EndsCleanly(c, 0)
  {
    Piece4Token0(c);
    Piece4Token1(c);
    Piece4Token2(c);
    Piece4Token3(c);
    Piece4Token4(c);
    Piece4Chain(c);
  }

  // Piece 5, "\n\treturn x+y;": each token read by its own `NextToken` call, then the
  // calls chained into the stream of the piece.

  lemma Piece5Token0(c: ByteString)
    requires c == Piece5
    ensures Scan(c, 0) == (Token(RETURN, "return"), 8)
  {
    ScanWord(c, 0, 2, "return");
    LookupIdentifierKeywords("return");
  }

  lemma Piece5Token1(c: ByteString)
    requires c == Piece5
    ensures Scan(c, 8) == (Token(IDENTIFIER, "x"), 10)
  {
    ScanWord(c, 8, 9, "x");
    LookupIdentifierKeywords("x");
  }

  lemma Piece5Token2(c: ByteString)
    requires c == Piece5
    ensures Scan(c, 10) == (Token(PLUS, "+"), 11)
  {
    ScanOperatorAt(c, 10, 10, Token(PLUS, "+"), 1);
  }

  lemma Piece5Token3(c: ByteString)
    requires c == Piece5
    ensures Scan(c, 11) == (Token(IDENTIFIER, "y"), 12)
  {
    ScanWord(c, 11, 11, "y");
    LookupIdentifierKeywords("y");
  }

  lemma Piece5Token4(c: ByteString)
    requires c == Piece5
    ensures Scan(c, 12) == (Token(SEMICOLON, ";"), 13)
  {
    ScanOperatorAt(c, 12, 12, Token(SEMICOLON, ";"), 1);
  }

  lemma Piece5Chain(c: ByteString)
    requires |c| == 13
    requires Scan(c, 0) == (Tokens5[0], 8)
    requires Scan(c, 8) == (Tokens5[1], 10)
    requires Scan(c, 10) == (Tokens5[2], 11)
    requires Scan(c, 11) == (Tokens5[3], 12)
    requires Scan(c, 12) == (Tokens5[4], 13)
    ensures Stream(c, 0) == Tokens5
    ensures EndsCleanly(c, 0)
  {
    CleanLast(c, 12, Tokens5[4]);
    StreamStep(c, 12, Tokens5[4], 13);
    CleanStep(c, 11, Tokens5[3], 12);
    StreamStep(c, 11, Tokens5[3], 12);
    CleanStep(c, 10, Tokens5[2], 11);
    StreamStep(c, 10, Tokens5[2], 11);
    CleanStep(c, 8, Tokens5[1], 10);
    StreamStep(c, 8, Tokens5[1], 10);
    CleanStep(c, 0, Tokens5[0], 8);
    StreamStep(c, 0, Tokens5[0], 8);
  }

  lemma Piece5Lex(c: ByteString)
    requires c == Piece5
    ensures Stream(c, 0) == Tokens5
    ensures EndsCleanly(c, 0)
  {
    Piece5Token0(c);
    Piece5Token1(c);
    Piece5Token2(c);
    Piece5Token3(c);
    Piece5Token4(c);
    Piece5Chain(c);
  }

  // Piece 6, "\n};": each token read by its own `NextToken` call, then the
  // calls chained into the stream of the piece.

  lemma Piece6Token0(c: ByteString)
    requires c == Piece6
    ensures Scan(c, 0) == (Token(RBRACE, "}"), 2)
  {
    ScanOperatorAt(c, 0, 1, Token(RBRACE, "}"), 1);
  }

  lemma Piece6Token1(c: ByteString)
    requires c == Piece6
    ensures Scan(c, 2) == (Token(SEMICOLON, ";"), 3)
  {
    ScanOperatorAt(c, 2, 2, Token(SEMICOLON, ";"), 1);
  }

  lemma Piece6Chain(c: ByteString)
    requires |c| == 3
    requires Scan(c, 0) == (Tokens6[0], 2)
    requires Scan(c, 2) == (Tokens6[1], 3)
    ensures Stream(c, 0) == Tokens6
    ensures EndsCleanly(c, 0)
  {
    CleanLast(c, 2, Tokens6[1]);
    StreamStep(c, 2, Tokens6[1], 3);
    CleanStep(c, 0, Tokens6[0], 2);
    StreamStep(c, 0, Tokens6[0], 2);
  }

  lemma Piece6Lex(c: ByteString)
    requires c == Piece6
    ensures Stream(c, 0) == Tokens6
    ensures EndsCleanly(c, 0)
  {
    Piece6Token0(c);
    Piece6Token1(c);
    Piece6Chain(c);
  }

  // Piece 7, "\n\nlet result = add(": each token read by its own `NextToken` call, then the
  // calls chained into the stream of the piece.

  lemma Piece7Token0(c: ByteString)
    requires c == Piece7
    ensures Scan(c, 0) == (Token(LET, "let"), 5)
  {
    ScanWord(c, 0, 2, "let");
    LookupIdentifierKeywords("let");
  }

  lemma Piece7Token1(c: ByteString)
    requires c == Piece7
    ensures Scan(c, 5) == (Token(IDENTIFIER, "result"), 12)
  {
    ScanWord(c, 5, 6, "result");
    LookupIdentifierKeywords("result");
  }

  lemma Piece7Token2(c: ByteString)
    requires c == Piece7
    ensures Scan(c, 12) == (Token(ASSIGN, "="), 14)
  {
    ScanOperatorAt(c, 12, 13, Token(ASSIGN, "="), 1);
  }

  lemma Piece7Token3(c: ByteString)
    requires c == Piece7
    ensures Scan(c, 14) == (Token(IDENTIFIER, "add"), 18)
  {
    ScanWord(c, 14, 15, "add");
    LookupIdentifierKeywords("add");
  }

  lemma Piece7Token4(c: ByteString)
    requires c == Piece7
    ensures Scan(c, 18) == (Token(LPAREN, "("), 19)
  {
    ScanOperatorAt(c, 18, 18, Token(LPAREN, "("), 1);
  }

  lemma Piece7Chain(c: ByteString)
    requires |c| == 19
    requires Scan(c, 0) == (Tokens7[0], 5)
    requires Scan(c, 5) == (Tokens7[1], 12)
    requires Scan(c, 12) == (Tokens7[2], 14)
    requires Scan(c, 14) == (Tokens7[3], 18)
    requires Scan(c, 18) == (Tokens7[4], 19)
    ensures Stream(c, 0) == Tokens7
    ensures EndsCleanly(c, 0)
  {
    CleanLast(c, 18, Tokens7[4]);
    StreamStep(c, 18, Tokens7[4], 19);
    CleanStep(c, 14, Tokens7[3], 18);
    StreamStep(c, 14, Tokens7[3], 18);
    CleanStep(c, 12, Tokens7[2], 14);
    StreamStep(c, 12, Tokens7[2], 14);
    CleanStep(c, 5, Tokens7[1], 12);
    StreamStep(c, 5, Tokens7[1], 12);
    CleanStep(c, 0, Tokens7[0], 5);
    StreamStep(c, 0, Tokens7[0], 5);
  }

  lemma Piece7Lex(c: ByteString)
    requires c == Piece7
    ensures Stream(c, 0) == Tokens7
    ensures EndsCleanly(c, 0)
  {
    Piece7Token0(c);
    Piece7Token1(c);
    Piece7Token2(c);
    Piece7Token3(c);
    Piece7Token4(c);
    Piece7Chain(c);
  }

  // Piece 8, "five, ten);": each token read by its own `NextToken` call, then the
  // calls chained into the stream of the piece.

  lemma Piece8Token0(c: ByteString)
    requires c == Piece8
    ensures Scan(c, 0) == (Token(IDENTIFIER, "five"), 4)
  {
    ScanWord(c, 0, 0, "five");
    LookupIdentifierKeywords("five");
  }

  lemma Piece8Token1(c: ByteString)
    requires c == Piece8
    ensures Scan(c, 4) == (Token(COMMA, ","), 5)
  {
    ScanOperatorAt(c, 4, 4, Token(COMMA, ","), 1);
  }

  lemma Piece8Token2(c: ByteString)
    requires c == Piece8
    ensures Scan(c, 5) == (Token(IDENTIFIER, "ten"), 9)
  {
    ScanWord(c, 5, 6, "ten");
    LookupIdentifierKeywords("ten");
  }

  lemma Piece8Token3(c: ByteString)
    requires c == Piece8
    ensures Scan(c, 9) == (Token(RPAREN, ")"), 10)
  {
    ScanOperatorAt(c, 9, 9, Token(RPAREN, ")"), 1);
  }

  lemma Piece8Token4(c: ByteString)
    requires c == Piece8
    ensures Scan(c, 10) == (Token(SEMICOLON, ";"), 11)
  {
    ScanOperatorAt(c, 10, 10, Token(SEMICOLON, ";"), 1);
  }

  lemma Piece8Chain(c: ByteString)
    requires |c| == 11
    requires Scan(c, 0) == (Tokens8[0], 4)
    requires Scan(c, 4) == (Tokens8[1], 5)
    requires Scan(c, 5) == (Tokens8[2], 9)
    requires Scan(c, 9) == (Tokens8[3], 10)
    requires Scan(c, 10) == (Tokens8[4], 11)
    ensures Stream(c, 0) == Tokens8
    ensures EndsCleanly(c, 0)
  {
    CleanLast(c, 10, Tokens8[4]);
    StreamStep(c, 10, Tokens8[4], 11);
    CleanStep(c, 9, Tokens8[3], 10);
    StreamStep(c, 9, Tokens8[3], 10);
    CleanStep(c, 5, Tokens8[2], 9);
    StreamStep(c, 5, Tokens8[2], 9);
    CleanStep(c, 4, Tokens8[1], 5);
    StreamStep(c, 4, Tokens8[1], 5);
    CleanStep(c, 0, Tokens8[0], 4);
    StreamStep(c, 0, Tokens8[0], 4);
  }

  lemma Piece8Lex(c: ByteString)
    requires c == Piece8
    ensures Stream(c, 0) == Tokens8
    ensures EndsCleanly(c, 0)
  {
    Piece8Token0(c);
    Piece8Token1(c);
    Piece8Token2(c);
    Piece8Token3(c);
    Piece8Token4(c);
    Piece8Chain(c);
  }

  // Piece 9, "\n\n!-/*5;": each token read by its own `NextToken` call, then the
  // calls chained into the stream of the piece.

  lemma Piece9Token0(c: ByteString)
    requires c == Piece9
    ensures Scan(c, 0) == (Token(BANG, "!"), 3)
  {
    ScanOperatorAt(c, 0, 2, Token(BANG, "!"), 1);
  }

  lemma Piece9Token1(c: ByteString)
    requires c == Piece9
    ensures Scan(c, 3) == (Token(MINUS, "-"), 4)
  {
    ScanOperatorAt(c, 3, 3, Token(MINUS, "-"), 1);
  }

  lemma Piece9Token2(c: ByteString)
    requires c == Piece9
    ensures Scan(c, 4) == (Token(SLASH, "/"), 5)
  {
    ScanOperatorAt(c, 4, 4, Token(SLASH, "/"), 1);
  }

  lemma Piece9Token3(c: ByteString)
    requires c == Piece9
    ensures Scan(c, 5) == (Token(ASTERISK, "*"), 6)
  {
    ScanOperatorAt(c, 5, 5, Token(ASTERISK, "*"), 1);
  }

  lemma Piece9Token4(c: ByteString)
    requires c == Piece9
    ensures Scan(c, 6) == (Token(INTEGER, "5"), 7)
  {
    ScanDigits(c, 6, 6, "5");
  }

  lemma Piece9Token5(c: ByteString)
    requires c == Piece9
    ensures Scan(c, 7) == (Token(SEMICOLON, ";"), 8)
  {
    ScanOperatorAt(c, 7, 7, Token(SEMICOLON, ";"), 1);
  }

  lemma Piece9Chain(c: ByteString)
    requires |c| == 8
    requires Scan(c, 0) == (Tokens9[0], 3)
    requires Scan(c, 3) == (Tokens9[1], 4)
    requires Scan(c, 4) == (Tokens9[2], 5)
    requires Scan(c, 5) == (Tokens9[3], 6)
    requires Scan(c, 6) == (Tokens9[4], 7)
    requires Scan(c, 7) == (Tokens9[5], 8)
    ensures Stream(c, 0) == Tokens9
    ensures EndsCleanly(c, 0)
  {
    CleanLast(c, 7, Tokens9[5]);
    StreamStep(c, 7, Tokens9[5], 8);
    CleanStep(c, 6, Tokens9[4], 7);
    StreamStep(c, 6, Tokens9[4], 7);
    CleanStep(c, 5, Tokens9[3], 6);
    StreamStep(c, 5, Tokens9[3], 6);
    CleanStep(c, 4, Tokens9[2], 5);
    StreamStep(c, 4, Tokens9[2], 5);
    CleanStep(c, 3, Tokens9[1], 4);
    StreamStep(c, 3, Tokens9[1], 4);
    CleanStep(c, 0, Tokens9[0], 3);
    StreamStep(c, 0, Tokens9[0], 3);
  }

  lemma Piece9Lex(c: ByteString)
    requires c == Piece9
    ensures Stream(c, 0) == Tokens9
    ensures EndsCleanly(c, 0)
  {
    Piece9Token0(c);
    Piece9Token1(c);
    Piece9Token2(c);
    Piece9Token3(c);
    Piece9Token4(c);
    Piece9Token5(c);
    Piece9Chain(c);
  }

  // Piece 10, "\n5 < 10 > 5;": each token read by its own `NextToken` call, then the
  // calls chained into the stream of the piece.

  lemma Piece10Token0(c: ByteString)
    requires c == Piece10
    ensures Scan(c, 0) == (Token(INTEGER, "5"), 2)
  {
    ScanDigits(c, 0, 1, "5");
  }

  lemma Piece10Token1(c: ByteString)
    requires c == Piece10
    ensures Scan(c, 2) == (Token(LESS_THAN, "<"), 4)
  {
    ScanOperatorAt(c, 2, 3, Token(LESS_THAN, "<"), 1);
  }

  lemma Piece10Token2(c: ByteString)
    requires c == Piece10
    ensures Scan(c, 4) == (Token(INTEGER, "10"), 7)
  {
    ScanDigits(c, 4, 5, "10");
  }

  lemma Piece10Token3(c: ByteString)
    requires c == Piece10
    ensures Scan(c, 7) == (Token(GREATER_THAN, ">"), 9)
  {
    ScanOperatorAt(c, 7, 8, Token(GREATER_THAN, ">"), 1);
  }

  lemma Piece10Token4(c: ByteString)
    requires c == Piece10
    ensures Scan(c, 9) == (Token(INTEGER, "5"), 11)
  {
    ScanDigits(c, 9, 10, "5");
  }

  lemma Piece10Token5(c: ByteString)
    requires c == Piece10
    ensures Scan(c, 11) == (Token(SEMICOLON, ";"), 12)
  {
    ScanOperatorAt(c, 11, 11, Token(SEMICOLON, ";"), 1);
  }

  lemma Piece10Chain(c: ByteString)
    requires |c| == 12
    requires Scan(c, 0) == (Tokens10[0], 2)
    requires Scan(c, 2) == (Tokens10[1], 4)
    requires Scan(c, 4) == (Tokens10[2], 7)
    requires Scan(c, 7) == (Tokens10[3], 9)
    requires Scan(c, 9) == (Tokens10[4], 11)
    requires Scan(c, 11) == (Tokens10[5], 12)
    ensures Stream(c, 0) == Tokens10
    ensures EndsCleanly(c, 0)
  {
    CleanLast(c, 11, Tokens10[5]);
    StreamStep(c, 11, Tokens10[5], 12);
    CleanStep(c, 9, Tokens10[4], 11);
    StreamStep(c, 9, Tokens10[4], 11);
    CleanStep(c, 7, Tokens10[3], 9);
    StreamStep(c, 7, Tokens10[3], 9);
    CleanStep(c, 4, Tokens10[2], 7);
    StreamStep(c, 4, Tokens10[2], 7);
    CleanStep(c, 2, Tokens10[1], 4);
    StreamStep(c, 2, Tokens10[1], 4);
    CleanStep(c, 0, Tokens10[0], 2);
    StreamStep(c, 0, Tokens10[0], 2);
  }

  lemma Piece10Lex(c: ByteString)
    requires c == Piece10
    ensures Stream(c, 0) == Tokens10
    ensures EndsCleanly(c, 0)
  {
    Piece10Token0(c);
    Piece10Token1(c);
    Piece10Token2(c);
    Piece10Token3(c);
    Piece10Token4(c);
    Piece10Token5(c);
    Piece10Chain(c);
  }

  // Piece 11, "\n\nif (5 < 10) {": each token read by its own `NextToken` call, then the
  // calls chained into the stream of the piece.

  lemma Piece11Token0(c: ByteString)
    requires c == Piece11
    ensures Scan(c, 0) == (Token(IF, "if"), 4)
  {
    ScanWord(c, 0, 2, "if");
    LookupIdentifierKeywords("if");
  }

  lemma Piece11Token1(c: ByteString)
    requires c == Piece11
    ensures Scan(c, 4) == (Token(LPAREN, "("), 6)
  {
    ScanOperatorAt(c, 4, 5, Token(LPAREN, "("), 1);
  }

  lemma Piece11Token2(c: ByteString)
    requires c == Piece11
    ensures Scan(c, 6) == (Token(INTEGER, "5"), 7)
  {
    ScanDigits(c, 6, 6, "5");
  }

  lemma Piece11Token3(c: ByteString)
    requires c == Piece11
    ensures Scan(c, 7) == (Token(LESS_THAN, "<"), 9)
  {
    ScanOperatorAt(c, 7, 8, Token(LESS_THAN, "<"), 1);
  }

  lemma Piece11Token4(c: ByteString)
    requires c == Piece11
    ensures Scan(c, 9) == (Token(INTEGER, "10"), 12)
  {
    ScanDigits(c, 9, 10, "10");
  }

  lemma Piece11Token5(c: ByteString)
    requires c == Piece11
    ensures Scan(c, 12) == (Token(RPAREN, ")"), 13)
  {
    ScanOperatorAt(c, 12, 12, Token(RPAREN, ")"), 1);
  }

  lemma Piece11Token6(c: ByteString)
    requires c == Piece11
    ensures Scan(c, 13) == (Token(LBRACE, "{"), 15)
  {
    ScanOperatorAt(c, 13, 14, Token(LBRACE, "{"), 1);
  }

  lemma Piece11Chain(c: ByteString)
    requires |c| == 15
    requires Scan(c, 0) == (Tokens11[0], 4)
    requires Scan(c, 4) == (Tokens11[1], 6)
    requires Scan(c, 6) == (Tokens11[2], 7)
    requires Scan(c, 7) == (Tokens11[3], 9)
    requires Scan(c, 9) == (Tokens11[4], 12)
    requires Scan(c, 12) == (Tokens11[5], 13)
    requires Scan(c, 13) == (Tokens11[6], 15)
    ensures Stream(c, 0) == Tokens11
    ensures EndsCleanly(c, 0)
  {
    CleanLast(c, 13, Tokens11[6]);
    StreamStep(c, 13, Tokens11[6], 15);
    CleanStep(c, 12, Tokens11[5], 13);
    StreamStep(c, 12, Tokens11[5], 13);
    CleanStep(c, 9, Tokens11[4], 12);
    StreamStep(c, 9, Tokens11[4], 12);
    CleanStep(c, 7, Tokens11[3], 9);
    StreamStep(c, 7, Tokens11[3], 9);
    CleanStep(c, 6, Tokens11[2], 7);
    StreamStep(c, 6, Tokens11[2], 7);
    CleanStep(c, 4, Tokens11[1], 6);
    StreamStep(c, 4, Tokens11[1], 6);
    CleanStep(c, 0, Tokens11[0], 4);
    StreamStep(c, 0, Tokens11[0], 4);
  }

  lemma Piece11Lex(c: ByteString)
    requires c == Piece11
    ensures Stream(c, 0) == Tokens11
    ensures EndsCleanly(c, 0)
  {
    Piece11Token0(c);
    Piece11Token1(c);
    Piece11Token2(c);
    Piece11Token3(c);
    Piece11Token4(c);
    Piece11Token5(c);
    Piece11Token6(c);
    Piece11Chain(c);
  }

  // Piece 12, "\n\treturn true;": each token read by its own `NextToken` call, then the
  // calls chained into the stream of the piece.

  lemma Piece12Token0(c: ByteString)
    requires c == Piece12
    ensures Scan(c, 0) == (Token(RETURN, "return"), 8)
  {
    ScanWord(c, 0, 2, "return");
    LookupIdentifierKeywords("return");
  }

  lemma Piece12Token1(c: ByteString)
    requires c == Piece12
    ensures Scan(c, 8) == (Token(TRUE, "true"), 13)
  {
    ScanWord(c, 8, 9, "true");
    LookupIdentifierKeywords("true");
  }

  lemma Piece12Token2(c: ByteString)
    requires c == Piece12
    ensures Scan(c, 13) == (Token(SEMICOLON, ";"), 14)
  {
    ScanOperatorAt(c, 13, 13, Token(SEMICOLON, ";"), 1);
  }

  lemma Piece12Chain(c: ByteString)
    requires |c| == 14
    requires Scan(c, 0) == (Tokens12[0], 8)
    requires Scan(c, 8) == (Tokens12[1], 13)
    requires Scan(c, 13) == (Tokens12[2], 14)
    ensures Stream(c, 0) == Tokens12
    ensures EndsCleanly(c, 0)
  {
    CleanLast(c, 13, Tokens12[2]);
    StreamStep(c, 13, Tokens12[2], 14);
    CleanStep(c, 8, Tokens12[1], 13);
    StreamStep(c, 8, Tokens12[1], 13);
    CleanStep(c, 0, Tokens12[0], 8);
    StreamStep(c, 0, Tokens12[0], 8);
  }

  lemma Piece12Lex(c: ByteString)
    requires c == Piece12
    ensures Stream(c, 0) == Tokens12
    ensures EndsCleanly(c, 0)
  {
    Piece12Token0(c);
    Piece12Token1(c);
    Piece12Token2(c);
    Piece12Chain(c);
  }

  // Piece 13, "\n} else {": each token read by its own `NextToken` call, then the
  // calls chained into the stream of the piece.

  lemma Piece13Token0(c: ByteString)
    requires c == Piece13
    ensures Scan(c, 0) == (Token(RBRACE, "}"), 2)
  {
    ScanOperatorAt(c, 0, 1, Token(RBRACE, "}"), 1);
  }

  lemma Piece13Token1(c: ByteString)
    requires c == Piece13
    ensures Scan(c, 2) == (Token(ELSE, "else"), 7)
  {
    ScanWord(c, 2, 3, "else");
    LookupIdentifierKeywords("else");
  }

  lemma Piece13Token2(c: ByteString)
    requires c == Piece13
    ensures Scan(c, 7) == (Token(LBRACE, "{"), 9)
  {
    ScanOperatorAt(c, 7, 8, Token(LBRACE, "{"), 1);
  }

  lemma Piece13Chain(c: ByteString)
    requires |c| == 9
    requires Scan(c, 0) == (Tokens13[0], 2)
    requires Scan(c, 2) == (Tokens13[1], 7)
    requires Scan(c, 7) == (Tokens13[2], 9)
    ensures Stream(c, 0) == Tokens13
    ensures EndsCleanly(c, 0)
  {
    CleanLast(c, 7, Tokens13[2]);
    StreamStep(c, 7, Tokens13[2], 9);
    CleanStep(c, 2, Tokens13[1], 7);
    StreamStep(c, 2, Tokens13[1], 7);
    CleanStep(c, 0, Tokens13[0], 2);
    StreamStep(c, 0, Tokens13[0], 2);
  }

  lemma Piece13Lex(c: ByteString)
    requires c == Piece13
    ensures Stream(c, 0) == Tokens13
    ensures EndsCleanly(c, 0)
  {
    Piece13Token0(c);
    Piece13Token1(c);
    Piece13Token2(c);
    Piece13Chain(c);
  }

  // Piece 14, "\n\treturn false;": each token read by its own `NextToken` call, then the
  // calls chained into the stream of the piece.

  lemma Piece14Token0(c: ByteString)
    requires c == Piece14
    ensures Scan(c, 0) == (Token(RETURN, "return"), 8)
  {
    ScanWord(c, 0, 2, "return");
    LookupIdentifierKeywords("return");
  }

  lemma Piece14Token1(c: ByteString)
    requires c == Piece14
    ensures Scan(c, 8) == (Token(FALSE, "false"), 14)
  {
    ScanWord(c, 8, 9, "false");
    LookupIdentifierKeywords("false");
  }

  lemma Piece14Token2(c: ByteString)
    requires c == Piece14
    ensures Scan(c, 14) == (Token(SEMICOLON, ";"), 15)
  {
    ScanOperatorAt(c, 14, 14, Token(SEMICOLON, ";"), 1);
  }

  lemma Piece14Chain(c: ByteString)
    requires |c| == 15
    requires Scan(c, 0) == (Tokens14[0], 8)
    requires Scan(c, 8) == (Tokens14[1], 14)
    requires Scan(c, 14) == (Tokens14[2], 15)
    ensures Stream(c, 0) == Tokens14
    ensures EndsCleanly(c, 0)
  {
    CleanLast(c, 14, Tokens14[2]);
    StreamStep(c, 14, Tokens14[2], 15);
    CleanStep(c, 8, Tokens14[1], 14);
    StreamStep(c, 8, Tokens14[1], 14);
    CleanStep(c, 0, Tokens14[0], 8);
    StreamStep(c, 0, Tokens14[0], 8);
  }

  lemma Piece14Lex(c: ByteString)
    requires c == Piece14
    ensures Stream(c, 0) == Tokens14
    ensures EndsCleanly(c, 0)
  {
    Piece14Token0(c);
    Piece14Token1(c);
    Piece14Token2(c);
    Piece14Chain(c);
  }

  // Piece 15, "\n}": each token read by its own `NextToken` call, then the
  // calls chained into the stream of the piece.

  lemma Piece15Token0(c: ByteString)
    requires c == Piece15
    ensures Scan(c, 0) == (Token(RBRACE, "}"), 2)
  {
    ScanOperatorAt(c, 0, 1, Token(RBRACE, "}"), 1);
  }

  lemma Piece15Chain(c: ByteString)
    requires |c| == 2
    requires Scan(c, 0) == (Tokens15[0], 2)
    ensures Stream(c, 0) == Tokens15
    ensures EndsCleanly(c, 0)
  {
    CleanLast(c, 0, Tokens15[0]);
    StreamStep(c, 0, Tokens15[0], 2);
  }

  lemma Piece15Lex(c: ByteString)
    requires c == Piece15
    ensures Stream(c, 0) == Tokens15
    ensures EndsCleanly(c, 0)
  {
    Piece15Token0(c);
    Piece15Chain(c);
  }

  // Piece 16, "\n10 == 10;": each token read by its own `NextToken` call, then the
  // calls chained into the stream of the piece.

  lemma Piece16Token0(c: ByteString)
    requires c == Piece16
    ensures Scan(c, 0) == (Token(INTEGER, "10"), 3)
  {
    ScanDigits(c, 0, 1, "10");
  }

  lemma Piece16Token1(c: ByteString)
    requires c == Piece16
    ensures Scan(c, 3) == (Token(EQUAL, "=="), 6)
  {
    ScanOperatorAt(c, 3, 4, Token(EQUAL, "=="), 2);
  }

  lemma Piece16Token2(c: ByteString)
    requires c == Piece16
    ensures Scan(c, 6) == (Token(INTEGER, "10"), 9)
  {
    ScanDigits(c, 6, 7, "10");
  }

  lemma Piece16Token3(c: ByteString)
    requires c == Piece16
    ensures Scan(c, 9) == (Token(SEMICOLON, ";"), 10)
  {
    ScanOperatorAt(c, 9, 9, Token(SEMICOLON, ";"), 1);
  }

  lemma Piece16Chain(c: ByteString)
    requires |c| == 10
    requires Scan(c, 0) == (Tokens16[0], 3)
    requires Scan(c, 3) == (Tokens16[1], 6)
    requires Scan(c, 6) == (Tokens16[2], 9)
    requires Scan(c, 9) == (Tokens16[3], 10)
    ensures Stream(c, 0) == Tokens16
    ensures EndsCleanly(c, 0)
  {
    CleanLast(c, 9, Tokens16[3]);
    StreamStep(c, 9, Tokens16[3], 10);
    CleanStep(c, 6, Tokens16[2], 9);
    StreamStep(c, 6, Tokens16[2], 9);
    CleanStep(c, 3, Tokens16[1], 6);
    StreamStep(c, 3, Tokens16[1], 6);
    CleanStep(c, 0, Tokens16[0], 3);
    StreamStep(c, 0, Tokens16[0], 3);
  }

  lemma Piece16Lex(c: ByteString)
    requires c == Piece16
    ensures Stream(c, 0) == Tokens16
    ensures EndsCleanly(c, 0)
  {
    Piece16Token0(c);
    Piece16Token1(c);
    Piece16Token2(c);
    Piece16Token3(c);
    Piece16Chain(c);
  }

  // Piece 17, "\n10 != 5;": each token read by its own `NextToken` call, then the
  // calls chained into the stream of the piece.

  lemma Piece17Token0(c: ByteString)
    requires c == Piece17
    ensures Scan(c, 0) == (Token(INTEGER, "10"), 3)
  {
    ScanDigits(c, 0, 1, "10");
  }

  lemma Piece17Token1(c: ByteString)
    requires c == Piece17
    ensures Scan(c, 3) == (Token(NOT_EQUAL, "!="), 6)
  {
    ScanOperatorAt(c, 3, 4, Token(NOT_EQUAL, "!="), 2);
  }

  lemma Piece17Token2(c: ByteString)
    requires c == Piece17
    ensures Scan(c, 6) == (Token(INTEGER, "5"), 8)
  {
    ScanDigits(c, 6, 7, "5");
  }

  lemma Piece17Token3(c: ByteString)
    requires c == Piece17
    ensures Scan(c, 8) == (Token(SEMICOLON, ";"), 9)
  {
    ScanOperatorAt(c, 8, 8, Token(SEMICOLON, ";"), 1);
  }

  lemma Piece17Chain(c: ByteString)
    requires |c| == 9
    requires Scan(c, 0) == (Tokens17[0], 3)
    requires Scan(c, 3) == (Tokens17[1], 6)
    requires Scan(c, 6) == (Tokens17[2], 8)
    requires Scan(c, 8) == (Tokens17[3], 9)
    ensures Stream(c, 0) == Tokens17
    ensures EndsCleanly(c, 0)
  {
    CleanLast(c, 8, Tokens17[3]);
    StreamStep(c, 8, Tokens17[3], 9);
    CleanStep(c, 6, Tokens17[2], 8);
    StreamStep(c, 6, Tokens17[2], 8);
    CleanStep(c, 3, Tokens17[1], 6);
    StreamStep(c, 3, Tokens17[1], 6);
    CleanStep(c, 0, Tokens17[0], 3);
    StreamStep(c, 0, Tokens17[0], 3);
  }

  lemma Piece17Lex(c: ByteString)
    requires c == Piece17
    ensures Stream(c, 0) == Tokens17
    ensures EndsCleanly(c, 0)
  {
    Piece17Token0(c);
    Piece17Token1(c);
    Piece17Token2(c);
    Piece17Token3(c);
    Piece17Chain(c);
  }

  // Piece 18, "\n": each token read by its own `NextToken` call, then the
  // calls chained into the stream of the piece.

  lemma Piece18Token0(c: ByteString)
    requires c == Piece18
    ensures Scan(c, 0) == (Token(EOF, ""), 2)
  {
    ScanOperatorAt(c, 0, 1, Token(EOF, ""), 1);
  }

  lemma Piece18Chain(c: ByteString)
    requires |c| == 1
    requires Scan(c, 0) == (Tokens18[0], 2)
    ensures Stream(c, 0) == Tokens18
  {
    StreamStep(c, 0, Tokens18[0], 2);
  }

  lemma Piece18Lex(c: ByteString)
    requires c == Piece18
    ensures Stream(c, 0) == Tokens18
  {
    Piece18Token0(c);
    Piece18Chain(c);
  }

  lemma Rest18Lex()
    ensures Stream(Rest18, 0) == Tail18
  {
    Piece18Lex(Piece18);
  }

  lemma Rest17Lex()
    ensures Stream(Rest17, 0) == Tail17
  {
    Piece17Lex(Piece17);
    Rest18Lex();
    StreamConcat(Piece17, Rest18);
  }

  lemma Rest16Lex()
    ensures Stream(Rest16, 0) == Tail16
  {
    Piece16Lex(Piece16);
    Rest17Lex();
    StreamConcat(Piece16, Rest17);
  }

  lemma Rest15Lex()
    ensures Stream(Rest15, 0) == Tail15
  {
    Piece15Lex(Piece15);
    Rest16Lex();
    StreamConcat(Piece15, Rest16);
  }

  lemma Rest14Lex()
    ensures Stream(Rest14, 0) == Tail14
  {
    Piece14Lex(Piece14);
    Rest15Lex();
    StreamConcat(Piece14, Rest15);
  }

  lemma Rest13Lex()
    ensures Stream(Rest13, 0) == Tail13
  {
    Piece13Lex(Piece13);
    Rest14Lex();
    StreamConcat(Piece13, Rest14);
  }

  lemma Rest12Lex()
    ensures Stream(Rest12, 0) == Tail12
  {
    Piece12Lex(Piece12);
    Rest13Lex();
    StreamConcat(Piece12, Rest13);
  }

  lemma Rest11Lex()
    ensures Stream(Rest11, 0) == Tail11
  {
    Piece11Lex(Piece11);
    Rest12Lex();
    StreamConcat(Piece11, Rest12);
  }

  lemma Rest10Lex()
    ensures Stream(Rest10, 0) == Tail10
  {
    Piece10Lex(Piece10);
    Rest11Lex();
    StreamConcat(Piece10, Rest11);
  }

  lemma Rest9Lex()
    ensures Stream(Rest9, 0) == Tail9
  {
    Piece9Lex(Piece9);
    Rest10Lex();
    StreamConcat(Piece9, Rest10);
  }

  lemma Rest8Lex()
    ensures Stream(Rest8, 0) == Tail8
  {
    Piece8Lex(Piece8);
    Rest9Lex();
    StreamConcat(Piece8, Rest9);
  }

  lemma Rest7Lex()
    ensures Stream(Rest7, 0) == Tail7
  {
    Piece7Lex(Piece7);
    Rest8Lex();
    StreamConcat(Piece7, Rest8);
  }

  lemma Rest6Lex()
    ensures Stream(Rest6, 0) == Tail6
  {
    Piece6Lex(Piece6);
    Rest7Lex();
    StreamConcat(Piece6, Rest7);
  }

  lemma Rest5Lex()
    ensures Stream(Rest5, 0) == Tail5
  {
    Piece5Lex(Piece5);
    Rest6Lex();
    StreamConcat(Piece5, Rest6);
  }

  lemma Rest4Lex()
    ensures Stream(Rest4, 0) == Tail4
  {
    Piece4Lex(Piece4);
    Rest5Lex();
    StreamConcat(Piece4, Rest5);
  }

  lemma Rest3Lex()
    ensures Stream(Rest3, 0) == Tail3
  {
    Piece3Lex(Piece3);
    Rest4Lex();
    StreamConcat(Piece3, Rest4);
  }

  lemma Rest2Lex()
    ensures Stream(Rest2, 0) == Tail2
  {
    Piece2Lex(Piece2);
    Rest3Lex();
    StreamConcat(Piece2, Rest3);
  }

  lemma Rest1Lex()
    ensures Stream(Rest1, 0) == Tail1
  {
    Piece1Lex(Piece1);
    Rest2Lex();
    StreamConcat(Piece1, Rest2);
  }

  /** The lexer test's expectation: lexing the sample yields exactly its
      75 tokens, the last one EOF, and EOF on every later call. */
  lemma SampleLex()
    ensures Stream(SampleInput, 0) == SampleTokens
    ensures |SampleTokens| == 75 && SampleTokens[74] == Token(EOF, "")
    ensures forall k :: k >= 75 ==> TokenAt(Stream(SampleInput, 0), k) == Token(EOF, "")
  {
    Rest1Lex();
  }
}
