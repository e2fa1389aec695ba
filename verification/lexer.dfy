/** The Arbok lexer: a cursor over a byte string that hands out one token per
    `NextToken` call. `Scan` is the pure specification of one call; the class
    `Lexer` is the cursor itself, and each of its methods is proved against
    the specification functions. */
module Lexer {
  import opened Token
  import opened Wrappers

  /** The byte the cursor sees at index i: the input byte while in range and
      NUL past the end, exactly what `readChar` loads into `ch`. */
  function CharAt(input: ByteString, i: nat): Byte
  {
    if i < |input| then input[i] else NUL
  }

  /** The three byte classes the lexer scans runs of. */
  datatype ByteClass = Letters | Digits | Whitespace

  predicate InClass(ch: Byte, cls: ByteClass)
  {
    match cls
    case Letters => 'a' <= ch <= 'z' || 'A' <= ch <= 'Z' || ch == '_'
    case Digits => '0' <= ch <= '9'
    case Whitespace => ch == ' ' || ch == '\n' || ch == '\t' || ch == '\r'
  }

  /** The index where the maximal run of class `cls` starting at p ends: the
      first index at or after p whose byte is not in the class. */
  function RunEnd(input: ByteString, p: nat, cls: ByteClass): (q: nat)
    ensures p <= q
    ensures p <= |input| ==> q <= |input|
    ensures p > |input| ==> q == p
    ensures !InClass(CharAt(input, q), cls)
    decreases |input| - p
  {
    if InClass(CharAt(input, p), cls) then RunEnd(input, p + 1, cls) else p
  }

  /** Go's `string(b)` for a byte b: the UTF-8 encoding of the code point b,
      one byte below 0x80 and two bytes from 0x80 on. */
  function GoByteString(b: Byte): (s: ByteString)
    ensures b < 128 as char ==> s == [b]
    ensures b >= 128 as char ==> |s| == 2 && s[0] as int / 32 == 6 && s[1] as int / 64 == 2
    ensures b >= 128 as char ==> (s[0] as int % 32) * 64 + s[1] as int % 64 == b as int
  {
    if b < 128 as char then [b]
    else [(0xC0 + b as int / 64) as char, (0x80 + b as int % 64) as char]
  }

  /** The tokens `NextToken` reads from the byte c alone, or from c and the
      byte c1 after it: the token and how many bytes it takes. None for a
      byte that starts an identifier, a number or an illegal token. */
  function Operator(c: Byte, c1: Byte): Option<(Token, nat)>
  {
    match c
    case '=' =>
      if c1 == '=' then Some((Token(EQUAL, "=="), 2)) else Some((Token(ASSIGN, "="), 1))
    case '!' =>
      if c1 == '=' then Some((Token(NOT_EQUAL, "!="), 2)) else Some((Token(BANG, "!"), 1))
    case '+' => Some((Token(PLUS, "+"), 1))
    case '-' => Some((Token(MINUS, "-"), 1))
    case '*' => Some((Token(ASTERISK, "*"), 1))
    case '/' => Some((Token(SLASH, "/"), 1))
    case '>' => Some((Token(GREATER_THAN, ">"), 1))
    case '<' => Some((Token(LESS_THAN, "<"), 1))
    case '(' => Some((Token(LPAREN, "("), 1))
    case ')' => Some((Token(RPAREN, ")"), 1))
    case '{' => Some((Token(LBRACE, "{"), 1))
    case '}' => Some((Token(RBRACE, "}"), 1))
    case ',' => Some((Token(COMMA, ","), 1))
    case ';' => Some((Token(SEMICOLON, ";"), 1))
    case '\0' => Some((Token(EOF, ""), 1))
    case _ => None
  }

  /** The token that starts at byte q, a byte that is not whitespace, and
      the index just after it. */
  function ReadToken(input: ByteString, q: nat): (r: (Token, nat))
    ensures r.1 > q
    ensures r.0.kind != EOF ==> q < |input| && r.1 <= |input|
  {
    var c := CharAt(input, q);
    match Operator(c, CharAt(input, q + 1))
    case Some((t, n)) => (t, q + n)
    case None =>
      if InClass(c, Letters) then
        var e := RunEnd(input, q, Letters);
        (Token(LookupIdentifier(input[q..e]), input[q..e]), e)
      else if InClass(c, Digits) then
        var e := RunEnd(input, q, Digits);
        (Token(INTEGER, input[q..e]), e)
      else
        (Token(ILLEGAL, GoByteString(c)), q + 1)
  }

  /** The token `NextToken` returns when called with the cursor at p, and the
      cursor position it leaves behind: whitespace is skipped first. */
  function Scan(input: ByteString, p: nat): (r: (Token, nat))
    ensures r.1 > p
    ensures r.0.kind != EOF ==> RunEnd(input, p, Whitespace) < |input| && r.1 <= |input|
  {
    ReadToken(input, RunEnd(input, p, Whitespace))
  }

  /** Every token the lexer hands out for `input`, one per call, up to the
      call that leaves the cursor at or past the end of the input; from then
      on every call returns EOF (see `TokenAt`). A NUL byte inside the input
      yields an EOF token in the middle of the stream, after which scanning
      resumes. */
  function Stream(input: ByteString, p: nat): (ts: seq<Token>)
    ensures p >= |input| ==> ts == []
    decreases |input| - p
  {
    if p >= |input| then []
    else
      var (t, next) := Scan(input, p);
      [t] + Stream(input, next)
  }

  /** The token of a stream at index i, with EOF for every index past its end:
      the lexer repeats EOF once the input is used up. */
  function TokenAt(ts: seq<Token>, i: nat): Token
  {
    if i < |ts| then ts[i] else Token(EOF, "")
  }

  class Lexer {
    const input: ByteString
    var position: nat
    var readPosition: nat
    var ch: Byte

    /** The cursor is consistent: `readPosition` is one past `position` and
        `ch` is the byte at `position`. */
    ghost predicate Valid()
      reads this
    {
      readPosition == position + 1 && ch == CharAt(input, position)
    }

    /** `New`: the cursor starts on the first byte. */
    constructor (input: ByteString)
      ensures this.input == input
      ensures Valid() && position == 0
    {
      this.input := input;
      position := 0;
      readPosition := 0;
      ch := NUL;
      new;
      ReadChar();
    }

    /** Moves `position` to the old `readPosition` and loads the byte there
        into `ch` (NUL once past the end). */
    method ReadChar()
      modifies this
      ensures position == old(readPosition) && readPosition == old(readPosition) + 1
      ensures ch == CharAt(input, old(readPosition))
    {
      if readPosition >= |input| {
        ch := NUL;
      } else {
        ch := input[readPosition];
      }
      position := readPosition;
      readPosition := readPosition + 1;
    }

    /** The byte after the current one, without moving the cursor. */
    method PeekChar() returns (b: Byte)
      requires Valid()
      ensures b == CharAt(input, position + 1)
    {
      if readPosition >= |input| {
        b := NUL;
      } else {
        b := input[readPosition];
      }
    }

    /** Consumes the maximal letter run that starts at the current byte and
        returns it; the first byte after the run stays current. */
    method ReadIdentifier() returns (lit: ByteString)
      requires Valid() && InClass(ch, Letters)
      modifies this
      ensures Valid()
      ensures position == RunEnd(input, old(position), Letters)
      ensures old(position) < position <= |input| && lit == input[old(position)..position]
    {
      var start := position;
      while InClass(ch, Letters)
        invariant Valid() && start <= position <= |input|
        invariant RunEnd(input, position, Letters) == RunEnd(input, start, Letters)
        decreases |input| - position
      {
        ReadChar();
      }
      lit := input[start..position];
    }

    /** Consumes the maximal digit run that starts at the current byte and
        returns it; the first byte after the run stays current. */
    method ReadNumber() returns (lit: ByteString)
      requires Valid() && InClass(ch, Digits)
      modifies this
      ensures Valid()
      ensures position == RunEnd(input, old(position), Digits)
      ensures old(position) < position <= |input| && lit == input[old(position)..position]
    {
      var start := position;
      while InClass(ch, Digits)
        invariant Valid() && start <= position <= |input|
        invariant RunEnd(input, position, Digits) == RunEnd(input, start, Digits)
        decreases |input| - position
      {
        ReadChar();
      }
      lit := input[start..position];
    }

    /** Advances past spaces, tabs, newlines and carriage returns. */
    method SkipWhiteSpace()
      requires Valid()
      modifies this
      ensures Valid()
      ensures position == RunEnd(input, old(position), Whitespace)
      ensures !InClass(ch, Whitespace)
    {
      while InClass(ch, Whitespace)
        invariant Valid()
        invariant RunEnd(input, position, Whitespace) == RunEnd(input, old(position), Whitespace)
        decreases |input| - position
      {
        ReadChar();
      }
    }

    /** Returns the next token and leaves the cursor just after it. */
    method NextToken() returns (tok: Token)
      requires Valid()
      modifies this
      ensures Valid()
      ensures (tok, position) == Scan(input, old(position))
    {
      SkipWhiteSpace();
      match ch {
      case '=' =>
        var next := PeekChar();
        if next == '=' {
          var first := ch;
          ReadChar();
          tok := Token(EQUAL, [first, ch]);
        } else {
          tok := Token(ASSIGN, [ch]);
        }
      case '!' =>
        var next := PeekChar();
        if next == '=' {
          var first := ch;
          ReadChar();
          tok := Token(NOT_EQUAL, [first, ch]);
        } else {
          tok := Token(BANG, [ch]);
        }
      case '+' => tok := Token(PLUS, [ch]);
      case '-' => tok := Token(MINUS, [ch]);
      case '*' => tok := Token(ASTERISK, [ch]);
      case '/' => tok := Token(SLASH, [ch]);
      case '>' => tok := Token(GREATER_THAN, [ch]);
      case '<' => tok := Token(LESS_THAN, [ch]);
      case '(' => tok := Token(LPAREN, [ch]);
      case ')' => tok := Token(RPAREN, [ch]);
      case '{' => tok := Token(LBRACE, [ch]);
      case '}' => tok := Token(RBRACE, [ch]);
      case ',' => tok := Token(COMMA, [ch]);
      case ';' => tok := Token(SEMICOLON, [ch]);
      case '\0' => tok := Token(EOF, "");
      case _ =>
        if InClass(ch, Letters) {
          var lit := ReadIdentifier();
          tok := Token(LookupIdentifier(lit), lit);
          return;
        } else if InClass(ch, Digits) {
          var lit := ReadNumber();
          tok := Token(INTEGER, lit);
          return;
        } else {
          tok := Token(ILLEGAL, GoByteString(ch));
        }
      }
      ReadChar();
    }
  }
}
