/** What the lexer promises, stated over its specification `Scan` and the
    token stream `Stream`. */
module LexerProperties {
  import opened Token
  import opened Lexer

  /** The cursor position after k `NextToken` calls started at p. */
  function PositionAfter(input: ByteString, p: nat, k: nat): (q: nat)
    ensures q >= p + k
    decreases k
  {
    if k == 0 then p else PositionAfter(input, Scan(input, p).1, k - 1)
  }

  /** The token returned by the (k+1)-th `NextToken` call started at p. */
  function NthToken(input: ByteString, p: nat, k: nat): Token
  {
    Scan(input, PositionAfter(input, p, k)).0
  }

  /** Whitespace is skipped: the token is read from the first byte that is not
      a space, newline, tab or carriage return. */
  lemma ScanSkipsWhitespace(input: ByteString, p: nat)
    ensures var q := RunEnd(input, p, Whitespace);
      !InClass(CharAt(input, q), Whitespace) && Scan(input, p) == Scan(input, q)
  {
  }

  /** A run is determined by where it stops: the first index at or after p
      whose byte is outside the class is the run's end. */
  lemma {:induction false} RunEndAt(input: ByteString, p: nat, q: nat, cls: ByteClass)
    requires p <= q <= |input|
    requires forall i :: p <= i < q ==> InClass(CharAt(input, i), cls)
    requires !InClass(CharAt(input, q), cls)
    ensures RunEnd(input, p, cls) == q
    decreases q - p
  {
    if p < q {
      RunEndAt(input, p + 1, q, cls);
    }
  }

  /** `=` followed by `=` is one EQUAL token `==`; otherwise `=` is ASSIGN.
      The same holds for `!=` and `!`. */
  lemma ScanTwoCharacterOperators(input: ByteString, p: nat)
    ensures var q := RunEnd(input, p, Whitespace);
      && (CharAt(input, q) == '=' && CharAt(input, q + 1) == '=' ==> Scan(input, p) == (Token(EQUAL, "=="), q + 2))
      && (CharAt(input, q) == '=' && CharAt(input, q + 1) != '=' ==> Scan(input, p) == (Token(ASSIGN, "="), q + 1))
      && (CharAt(input, q) == '!' && CharAt(input, q + 1) == '=' ==> Scan(input, p) == (Token(NOT_EQUAL, "!="), q + 2))
      && (CharAt(input, q) == '!' && CharAt(input, q + 1) != '=' ==> Scan(input, p) == (Token(BANG, "!"), q + 1))
  {
  }

  /** Every byte of a run belongs to its class. */
  lemma {:induction false} RunEndInClass(input: ByteString, p: nat, cls: ByteClass)
    ensures forall i :: p <= i < RunEnd(input, p, cls) ==> i < |input| && InClass(input[i], cls)
    decreases |input| - p
  {
    if InClass(CharAt(input, p), cls) {
      assert !InClass(NUL, cls);
      assert p < |input| && InClass(input[p], cls);
      RunEndInClass(input, p + 1, cls);
      assert RunEnd(input, p, cls) == RunEnd(input, p + 1, cls);
    }
  }

  /** An identifier token is the maximal run of letters and underscores,
      classified by `LookupIdentifier`; the byte after the run is not consumed. */
  lemma ScanIdentifier(input: ByteString, p: nat)
    requires InClass(CharAt(input, RunEnd(input, p, Whitespace)), Letters)
    ensures var q := RunEnd(input, p, Whitespace);
      var (t, next) := Scan(input, p);
      && q < next <= |input| && next == RunEnd(input, q, Letters)
      && t.literal == input[q..next]
      && (forall i :: q <= i < next ==> InClass(input[i], Letters))
      && !InClass(CharAt(input, next), Letters)
      && t.kind == LookupIdentifier(t.literal)
  {
    RunEndInClass(input, RunEnd(input, p, Whitespace), Letters);
  }

  /** A number token is the maximal run of digits, of kind INTEGER; the byte
      after the run is not consumed. */
  lemma ScanNumber(input: ByteString, p: nat)
    requires InClass(CharAt(input, RunEnd(input, p, Whitespace)), Digits)
    ensures var q := RunEnd(input, p, Whitespace);
      var (t, next) := Scan(input, p);
      && q < next <= |input| && next == RunEnd(input, q, Digits)
      && t == Token(INTEGER, input[q..next])
      && (forall i :: q <= i < next ==> InClass(input[i], Digits))
      && !InClass(CharAt(input, next), Digits)
  {
    RunEndInClass(input, RunEnd(input, p, Whitespace), Digits);
  }

  /** The bytes the lexer has a rule for. */
  predicate HasRule(c: Byte)
  {
    c in "=!+-*/<>(){},;\0" || InClass(c, Letters) || InClass(c, Digits) || InClass(c, Whitespace)
  }

  /** A byte that matches no rule is one ILLEGAL token whose literal is Go's
      `string` of that byte, and the cursor moves past exactly that byte. */
  lemma ScanIllegal(input: ByteString, p: nat)
    requires !HasRule(CharAt(input, RunEnd(input, p, Whitespace)))
    ensures var q := RunEnd(input, p, Whitespace);
      Scan(input, p) == (Token(ILLEGAL, GoByteString(input[q])), q + 1)
  {
  }

  /** As written the lexer has no rule for STRING, COLON, LBRACKET or
      RBRACKET: it never produces them, and the bytes `"`, `:`, `[` and `]`
      are ILLEGAL. */
  lemma ScanNeverProducesStringColonBrackets(input: ByteString, p: nat)
    ensures Scan(input, p).0.kind !in {STRING, COLON, LBRACKET, RBRACKET}
    ensures CharAt(input, RunEnd(input, p, Whitespace)) in "\":[]" ==>
      Scan(input, p).0.kind == ILLEGAL
  {
  }

  /** An operator or punctuation token's literal is its kind's constant. */
  lemma ScanOperatorLiteral(input: ByteString, p: nat)
    ensures IsOperatorOrPunctuation(Scan(input, p).0.kind) ==>
      Scan(input, p).0.literal == Value(Scan(input, p).0.kind)
  {
  }

  /** At or past the end of the input, a call returns EOF with an empty
      literal; so does a NUL byte inside the input, after which the cursor
      has moved past that byte. */
  lemma ScanEof(input: ByteString, p: nat)
    ensures var q := RunEnd(input, p, Whitespace);
      CharAt(input, q) == NUL ==> Scan(input, p) == (Token(EOF, ""), q + 1)
    ensures p >= |input| ==> Scan(input, p) == (Token(EOF, ""), p + 1)
  {
  }

  /** Once the input is used up, every further `NextToken` call returns
      EOF with an empty literal, and each call still moves the cursor one
      byte further past the end. */
  lemma {:induction false} EofForever(input: ByteString, p: nat, k: nat)
    requires p >= |input|
    ensures NthToken(input, p, k) == Token(EOF, "")
    ensures PositionAfter(input, p, k) == p + k
    decreases k
  {
    if k > 0 {
      EofForever(input, p + 1, k - 1);
    }
  }

  /** The (k+1)-th call on a fresh lexer returns the token of `Stream` at
      index k, and EOF once the stream is exhausted. */
  lemma {:induction false} NthTokenIsStreamToken(input: ByteString, p: nat, k: nat)
    ensures NthToken(input, p, k) == TokenAt(Stream(input, p), k)
    decreases k
  {
    if p >= |input| {
      EofForever(input, p, k);
    } else if k > 0 {
      var next := Scan(input, p).1;
      NthTokenIsStreamToken(input, next, k - 1);
      StreamStep(input, p, Scan(input, p).0, next);
    }
  }

  /** The shape the parser relies on: every INTEGER token the lexer hands
      out is a non-empty run of decimal digits. */
  predicate IntegerTokensAreDigits(ts: seq<Token>)
  {
    forall i :: 0 <= i < |ts| && ts[i].kind == INTEGER ==>
      |ts[i].literal| > 0 && forall j :: 0 <= j < |ts[i].literal| ==> InClass(ts[i].literal[j], Digits)
  }

  lemma {:induction false} StreamIntegerTokensAreDigits(input: ByteString, p: nat)
    ensures IntegerTokensAreDigits(Stream(input, p))
    decreases |input| - p
  {
    if p < |input| {
      var (t, next) := Scan(input, p);
      StreamIntegerTokensAreDigits(input, next);
      if t.kind == INTEGER {
        ScanNumber(input, p);
      }
      StreamStep(input, p, t, next);
    }
  }

  /** Without a NUL byte in the input, the stream holds at most one EOF
      token, as its last element; with the EOF tokens past the stream's end
      the lexer's output is a run of real tokens followed by EOF forever. */
  lemma {:induction false} StreamEofOnlyLast(input: ByteString, p: nat)
    requires NUL !in input
    ensures forall i :: 0 <= i < |Stream(input, p)| - 1 ==> Stream(input, p)[i].kind != EOF
    decreases |input| - p
  {
    if p < |input| {
      var (t, next) := Scan(input, p);
      StreamEofOnlyLast(input, next);
      StreamStep(input, p, t, next);
      if t.kind == EOF {
        assert RunEnd(input, p, Whitespace) >= |input|;
        assert Stream(input, next) == [];
      }
    }
  }

  /** The token kinds the lexer never hands out. */
  predicate NoUnlexedKinds(ts: seq<Token>)
  {
    forall i :: 0 <= i < |ts| ==> ts[i].kind !in {STRING, COLON, LBRACKET, RBRACKET}
  }

  /** No token of a stream is STRING, COLON, LBRACKET or RBRACKET, so the
      parser, fed by the lexer, never sees them (nor past the stream's end,
      where it sees EOF). */
  lemma {:induction false} StreamHasNoUnlexedKinds(input: ByteString, p: nat)
    ensures NoUnlexedKinds(Stream(input, p))
    decreases |input| - p
  {
    if p < |input| {
      var (t, next) := Scan(input, p);
      StreamHasNoUnlexedKinds(input, next);
      ScanNeverProducesStringColonBrackets(input, p);
      StreamStep(input, p, t, next);
    }
  }

  /** A run is read from the bytes at and after its start only: behind any
      prefix the same bytes give the same run, shifted by the prefix. */
  lemma {:induction false} RunEndShift(a: ByteString, b: ByteString, p: nat, cls: ByteClass)
    ensures RunEnd(a + b, |a| + p, cls) == |a| + RunEnd(b, p, cls)
    decreases |b| - p
  {
    assert CharAt(a + b, |a| + p) == CharAt(b, p);
    if InClass(CharAt(b, p), cls) {
      RunEndShift(a, b, p + 1, cls);
    }
  }

  /** A run's bytes behind a prefix are the same bytes. */
  lemma RunShift(a: ByteString, b: ByteString, q: nat, cls: ByteClass)
    requires q <= |b|
    ensures RunEnd(a + b, |a| + q, cls) == |a| + RunEnd(b, q, cls)
    ensures (a + b)[|a| + q..|a| + RunEnd(b, q, cls)] == b[q..RunEnd(b, q, cls)]
  {
    RunEndShift(a, b, q, cls);
  }

  /** The token that starts at q is the same behind any prefix. */
  lemma ReadTokenShift(a: ByteString, b: ByteString, q: nat)
    ensures ReadToken(a + b, |a| + q) == (ReadToken(b, q).0, |a| + ReadToken(b, q).1)
  {
    var c, c1 := CharAt(b, q), CharAt(b, q + 1);
    assert CharAt(a + b, |a| + q) == c;
    assert CharAt(a + b, |a| + q + 1) == c1;
    if Operator(c, c1).None? && InClass(c, Letters) {
      RunShift(a, b, q, Letters);
    } else if Operator(c, c1).None? && InClass(c, Digits) {
      RunShift(a, b, q, Digits);
    }
  }

  /** `NextToken` depends on the bytes from the cursor on and not on what
      came before: behind any prefix the same bytes give the same token, and
      the cursor moves by the same amount. */
  lemma ScanShift(a: ByteString, b: ByteString, p: nat)
    ensures Scan(a + b, |a| + p) == (Scan(b, p).0, |a| + Scan(b, p).1)
  {
    RunEndShift(a, b, p, Whitespace);
    ReadTokenShift(a, b, RunEnd(b, p, Whitespace));
  }

  /** One `NextToken` call: the stream from p is the token read at p,
      followed by the stream from where that call leaves the cursor. */
  lemma StreamStep(input: ByteString, p: nat, t: Token, next: nat)
    requires p < |input| && Scan(input, p) == (t, next)
    ensures Stream(input, p) == [t] + Stream(input, next)
  {
  }

  /** The token stream from a cursor is the same behind any prefix. */
  lemma {:induction false} StreamShift(a: ByteString, b: ByteString, p: nat)
    ensures Stream(a + b, |a| + p) == Stream(b, p)
    decreases |b| - p
  {
    if p < |b| {
      var (t, q) := Scan(b, p);
      ScanShift(a, b, p);
      StreamStep(a + b, |a| + p, t, |a| + q);
      StreamStep(b, p, t, q);
      StreamShift(a, b, q);
    }
  }

  /** The tokens after a prefix are the tokens of what follows it. */
  lemma StreamSuffix(a: ByteString, b: ByteString)
    ensures Stream(a + b, |a|) == Stream(b, 0)
  {
    var p: nat := 0;
    StreamShift(a, b, p);
    assert |a| + p == |a|;
  }

  /** A run that stops inside c stops at the same place whatever follows c. */
  lemma {:induction false} RunEndPrefix(c: ByteString, y: ByteString, p: nat, cls: ByteClass)
    requires RunEnd(c, p, cls) < |c|
    ensures RunEnd(c + y, p, cls) == RunEnd(c, p, cls)
    decreases |c| - p
  {
    assert CharAt(c + y, p) == CharAt(c, p);
    if InClass(CharAt(c, p), cls) {
      RunEndPrefix(c, y, p + 1, cls);
    }
  }

  /** The token kinds `NextToken` decides without looking at the byte after
      the token. */
  predicate NoLookahead(k: Kind)
  {
    k in {PLUS, MINUS, ASTERISK, SLASH, GREATER_THAN, LESS_THAN, LPAREN, RPAREN,
          LBRACE, RBRACE, COMMA, SEMICOLON, EQUAL, NOT_EQUAL}
  }

  /** A run that stops inside c holds the same bytes whatever follows c. */
  lemma RunPrefix(c: ByteString, y: ByteString, q: nat, cls: ByteClass)
    requires RunEnd(c, q, cls) < |c|
    ensures RunEnd(c + y, q, cls) == RunEnd(c, q, cls)
    ensures (c + y)[q..RunEnd(c, q, cls)] == c[q..RunEnd(c, q, cls)]
  {
    RunEndPrefix(c, y, q, cls);
  }

  /** A token that starts at q and that the lexer finishes reading inside c
      is the same token whatever follows c. */
  lemma ReadTokenPrefix(c: ByteString, y: ByteString, q: nat)
    requires q < |c|
    requires ReadToken(c, q).1 < |c| || (ReadToken(c, q).1 == |c| && NoLookahead(ReadToken(c, q).0.kind))
    ensures ReadToken(c + y, q) == ReadToken(c, q)
  {
    var ch, c1 := CharAt(c, q), CharAt(c, q + 1);
    assert CharAt(c + y, q) == ch;
    if q + 1 < |c| {
      assert CharAt(c + y, q + 1) == c1;
    } else {
      assert Operator(ch, CharAt(c + y, q + 1)) == Operator(ch, c1);
    }
    if Operator(ch, c1).None? && InClass(ch, Letters) {
      RunPrefix(c, y, q, Letters);
    } else if Operator(ch, c1).None? && InClass(ch, Digits) {
      RunPrefix(c, y, q, Digits);
    }
  }

  /** A token read entirely inside c, whose end the lexer saw inside c or
      that needs no look past its last byte, is the same token whatever
      follows c. */
  lemma ScanPrefix(c: ByteString, y: ByteString, p: nat)
    requires Scan(c, p).1 < |c| || (Scan(c, p).1 == |c| && NoLookahead(Scan(c, p).0.kind))
    ensures Scan(c + y, p) == Scan(c, p)
  {
    var q := RunEnd(c, p, Whitespace);
    assert q < |c|;
    RunEndPrefix(c, y, p, Whitespace);
    ReadTokenPrefix(c, y, q);
  }

  /** The tokens of c read from p end exactly at the end of c, on a token
      that needs no look past c. */
  predicate EndsCleanly(c: ByteString, p: nat)
    decreases |c| - p
  {
    p < |c| &&
    var (t, q) := Scan(c, p);
    if q < |c| then EndsCleanly(c, q) else q == |c| && NoLookahead(t.kind)
  }

  /** A text that ends cleanly is lexed on its own: the tokens of c followed
      by y are those of c, then those of y. */
  lemma {:induction false} StreamPrefix(c: ByteString, y: ByteString, p: nat)
    requires EndsCleanly(c, p)
    ensures Stream(c + y, p) == Stream(c, p) + Stream(c + y, |c|)
    decreases |c| - p
  {
    var (t, q) := Scan(c, p);
    ScanPrefix(c, y, p);
    if q < |c| {
      StreamPrefix(c, y, q);
    }
  }

  lemma StreamConcat(c: ByteString, y: ByteString)
    requires EndsCleanly(c, 0)
    ensures Stream(c + y, 0) == Stream(c, 0) + Stream(y, 0)
  {
    StreamPrefix(c, y, 0);
    StreamSuffix(c, y);
  }
}
