/** Tokens of the Arbok language: the closed set of token kinds, the value each
    kind's Go constant holds, and the keyword classifier `LookupIdentifier`. */
module Token {

  /** A Go `byte`. Go strings are byte strings; a byte is modelled as a
      character whose code is below 256, so that a byte string is a
      `seq<Byte>` and ASCII text can be written as a string literal. */
  type Byte = c: char | c < 256 as char witness '\0'

  /** The NUL byte, which the lexer uses as its end-of-input sentinel. */
  const NUL: Byte := '\0'

  type ByteString = seq<Byte>

  /** `TokenType`: one constructor per constant of the source's const block. */
  datatype Kind =
    | ASSIGN | BANG | PLUS | MINUS | ASTERISK | SLASH | GREATER_THAN | LESS_THAN
    | COMMA | SEMICOLON | COLON | LPAREN | RPAREN | LBRACE | RBRACE | LBRACKET | RBRACKET
    | EQUAL | NOT_EQUAL
    | LET | FUNCTION | IF | ELSE | RETURN | TRUE | FALSE
    | INTEGER | IDENTIFIER | STRING
    | ILLEGAL | EOF

  /** The string each kind's Go constant holds (`TokenType` is a string type). */
  function Value(k: Kind): ByteString
  {
    match k
    case ASSIGN => "="
    case BANG => "!"
    case PLUS => "+"
    case MINUS => "-"
    case ASTERISK => "*"
    case SLASH => "/"
    case GREATER_THAN => ">"
    case LESS_THAN => "<"
    case COMMA => ","
    case SEMICOLON => ";"
    case COLON => ":"
    case LPAREN => "("
    case RPAREN => ")"
    case LBRACE => "{"
    case RBRACE => "}"
    case LBRACKET => "["
    case RBRACKET => "]"
    case EQUAL => "=="
    case NOT_EQUAL => "!="
    case LET => "LET"
    case FUNCTION => "FUNCTION"
    case IF => "IF"
    case ELSE => "ELSE"
    case RETURN => "RETURN"
    case TRUE => "TRUE"
    case FALSE => "FALSE"
    case INTEGER => "INTEGER"
    case IDENTIFIER => "IDENTIFIER"
    case STRING => "STRING"
    case ILLEGAL => "ILLEGAL"
    case EOF => "EOF"
  }

  /** The operator and punctuation kinds, whose constant is their own spelling. */
  predicate IsOperatorOrPunctuation(k: Kind)
  {
    k in {ASSIGN, BANG, PLUS, MINUS, ASTERISK, SLASH, GREATER_THAN, LESS_THAN,
          COMMA, SEMICOLON, COLON, LPAREN, RPAREN, LBRACE, RBRACE, LBRACKET, RBRACKET,
          EQUAL, NOT_EQUAL}
  }

  predicate IsKeyword(k: Kind)
  {
    k in {LET, FUNCTION, IF, ELSE, RETURN, TRUE, FALSE}
  }

  datatype Token = Token(kind: Kind, literal: ByteString)

  /** The `keywords` table. */
  const Keywords: map<ByteString, Kind> :=
    map["let" := LET, "func" := FUNCTION, "if" := IF, "else" := ELSE,
        "return" := RETURN, "true" := TRUE, "false" := FALSE]

  /** The keyword kind of a spelling in the table, and IDENTIFIER otherwise. */
  function LookupIdentifier(identifier: ByteString): (k: Kind)
    ensures k == IDENTIFIER || IsKeyword(k)
    ensures k == IDENTIFIER <==> identifier !in Keywords
  {
    if identifier in Keywords then Keywords[identifier] else IDENTIFIER
  }

  /** Exactly seven spellings are keywords, each classified as its own kind;
      every other spelling, a case variant such as "Let" included, is an
      identifier. */
  lemma LookupIdentifierKeywords(s: ByteString)
    ensures s == "let" <==> LookupIdentifier(s) == LET
    ensures s == "func" <==> LookupIdentifier(s) == FUNCTION
    ensures s == "if" <==> LookupIdentifier(s) == IF
    ensures s == "else" <==> LookupIdentifier(s) == ELSE
    ensures s == "return" <==> LookupIdentifier(s) == RETURN
    ensures s == "true" <==> LookupIdentifier(s) == TRUE
    ensures s == "false" <==> LookupIdentifier(s) == FALSE
    ensures LookupIdentifier(s) == IDENTIFIER <==>
      s !in ["let", "func", "if", "else", "return", "true", "false"]
  {
    assert Keywords.Keys == {"let", "func", "if", "else", "return", "true", "false"};
  }

  lemma CaseVariantsAreIdentifiers()
    ensures LookupIdentifier("Let") == IDENTIFIER
    ensures LookupIdentifier("FUNC") == IDENTIFIER
    ensures LookupIdentifier("True") == IDENTIFIER
    ensures LookupIdentifier("fn") == IDENTIFIER
  {
    LookupIdentifierKeywords("Let");
    LookupIdentifierKeywords("FUNC");
    LookupIdentifierKeywords("True");
    LookupIdentifierKeywords("fn");
  }

  /** The kinds' constants are pairwise distinct strings, so a `TokenType`
      value names exactly one kind; in particular no keyword kind collides
      with IDENTIFIER. */
  lemma ValueInjective(a: Kind, b: Kind)
    ensures Value(a) == Value(b) ==> a == b
  {
    if Value(a) == Value(b) {
      var v := Value(a);
      assert |v| > 0 && v[0] == Value(b)[0];
    }
  }
}
