# Arbok front end in Dafny

This project models the front end of the Arbok interpreter, written in Go.
The lexer turns a byte string into tokens, and the Pratt parser turns tokens
into a syntax tree. The tree renders as a fully parenthesised string.

| file | module | models |
|---|---|---|
| `wrappers.dfy` | `Wrappers` | `Option` |
| `token.dfy` | `Token` | token kinds and their spellings, the keyword table, `LookupIdentifier` |
| `lexer.dfy` | `Lexer` | the `Lexer` class (`position`, `readPosition`, `ch`) and the pure specification it is proved against |
| `lexer_properties.dfy` | `LexerProperties` | what one token and the whole token stream look like; how lexing behaves when the input is cut in two |
| `lexer_examples.dfy` | `LexerExamples` | the sample program of the lexer test, lexed to its 75 expected tokens |
| `ast.dfy` | `Ast` | the node types, `Complete` (no nil hole), `Renderable` and `String` |
| `strconv.dfy` | `Strconv` | base-0 `strconv.ParseInt` restricted to digit-only literals |
| `parser_spec.dfy` | `ParserSpec` | the parser as pure functions on a parser state |
| `parser.dfy` | `Parser` | the `Parser` class, with every method proved equal to its specification function |
| `parser_properties.dfy` | `ParserProperties` | precedence, associativity, grouping, lists, statements and programs |
| `parser_examples.dfy` | `ParserExamples` | concrete inputs from the parser tests, including lexing followed by parsing |

## How the model is built

**Bytes.** A Go string is a `ByteString`, which is a sequence of `Byte`
(a `char` below 256). Go's `string(byte)` turns a byte of 0x80 or more
into two UTF-8 bytes, and `GoByteString` models this for `ILLEGAL`
literals.

**Lexer.**
- `Scan(input, p)` is the token that starts at position `p` and the
  position after it. `Stream(input, p)` lists the tokens until the
  position reaches the end of the input.
- The class `Lexer.Lexer` keeps Go's three fields.
  `NextToken` is proved to return `Scan(input, old(position))` and to move
  `position` to the position `Scan` gives.
- A NUL byte in the middle of the input gives an `EOF` token, and lexing
  then resumes after it, because `readChar` runs after the `switch`.
  Past the end, `EOF` repeats forever.

**Parser.**
- The parser reads a finite `seq<Token>` and sees `EOF` at every index past
  its end. This matches the lexer, so `Stream(input, 0)` is exactly what the
  Go parser pulls from `lexer.New(input)`.
- The state is `PState(pos, errors, hung)`:
  - `pos` is the index of the current token;
  - `errors` is the error list, which is only ever appended to (`Extends`);
  - `hung` records that a `let` or `return` skip loop reached the endless
    `EOF` tail. Go loops forever there, so a state with `hung` set stands
    for "no result".
- Every parse function is specified by its result and the final state.
  Each one also proves "no new error if and only if the tree is `Complete`".
- The class `Parser.Parser` mirrors Go's methods. Its field `next` counts
  the tokens pulled so far, and its state is `PState(next - 2, errors, hung)`.
  `hung` is a ghost field. Each method is proved to produce the same node and
  the same state as the specification function of the same name.
- The handler maps become a `match` on the token kind (`PrefixParseFn`,
  `InfixParseFn`). The precedence map becomes the function `Precedence`.

**Nil values.**
- `Expression.Nil` is the nil interface that a failed parse function returns.
- `Statement.FailedLet` is the typed nil `*LetStatement`. Inside the
  `Statement` interface it is not nil, so the guards in `ParseProgram` and
  `parseBlockStatement` keep it, and the model appends it too.
- Nil slices are `NilList` for expressions and `None` for parameters.
- A nil callee is rendered as `fmt` renders a nil operand (`NilOperand`), so
  a call on a failed literal such as `08(1)` still has a rendering.

## Model

| member | source | states |
|---|---|---|
| Token.LookupIdentifier | token/token.go:57-62 | the result is `IDENTIFIER` or a keyword kind, and it is `IDENTIFIER` exactly when the spelling is not in the keyword table |
| Token.LookupIdentifierKeywords | token/token.go:47-62 | for each of `let`, `func`, `if`, `else`, `return`, `true` and `false`: a spelling maps to that keyword's kind if and only if it is that spelling |
| Token.CaseVariantsAreIdentifiers | token/token.go:57-62 | case variants such as `Let`, `FUNC` and `True`, and near misses such as `fn`, map to `IDENTIFIER` |
| Token.ValueInjective | token/token.go:10-45 | distinct kinds have distinct values, so keyword kinds differ from each other and from `IDENTIFIER` |
| Lexer.RunEnd | lexer/lexer.go:46-60 | the end of a maximal run of bytes in a class: never before the start, within the input, and followed by a byte outside the class |
| Lexer.GoByteString | lexer/lexer.go:119 | `string(byte)`: an ASCII byte is itself; a higher byte is its two-byte UTF-8 encoding, which decodes back to the byte |
| Lexer.ReadToken | lexer/lexer.go:65-123 | reading a token at a non-blank byte always moves past it, and any token but `EOF` lies within the input |
| Lexer.Scan | lexer/lexer.go:62-124 | one call of `NextToken` as a function of the position: the cursor strictly advances, and any token but `EOF` starts on a non-blank byte inside the input |
| Lexer.Stream | lexer/lexer.go:62-124 | the tokens produced until the position reaches the end of the input; none from a position past the end |
| Lexer.Lexer.constructor | lexer/lexer.go:14-18 | `New` reads the first byte: position 0 and `ch` is the first byte, or 0 for an empty input |
| Lexer.Lexer.ReadChar | lexer/lexer.go:20-28 | `position` takes the old `readPosition`, `readPosition` grows by one, and `ch` is the byte there, or 0 past the end |
| Lexer.Lexer.PeekChar | lexer/lexer.go:30-36 | returns the byte after the current one, or 0 past the end, and changes nothing |
| Lexer.Lexer.ReadIdentifier | lexer/lexer.go:46-52 | moves to the end of the maximal letter run and returns exactly the bytes of that run |
| Lexer.Lexer.ReadNumber | lexer/lexer.go:54-60 | moves to the end of the maximal digit run and returns exactly the bytes of that run |
| Lexer.Lexer.SkipWhiteSpace | lexer/lexer.go:126-130 | moves to the end of the blank run, after which `ch` is none of space, `\t`, `\n` or `\r` |
| Lexer.Lexer.NextToken | lexer/lexer.go:62-124 | returns the token `Scan` gives for the old position and moves the cursor to the position `Scan` gives |
| LexerProperties.PositionAfter | lexer/lexer.go:62-124 | after k calls the position has advanced by at least k |
| LexerProperties.ScanSkipsWhitespace | lexer/lexer.go:126-130 | a token never starts on a blank byte; scanning from before the blanks is scanning from after them |
| LexerProperties.RunEndAt | lexer/lexer.go:46-60 | a run whose bytes are all in the class, followed by a byte outside it, ends exactly there |
| LexerProperties.RunEndInClass | lexer/lexer.go:46-60 | every byte of a run is inside the input and in the class |
| LexerProperties.ScanTwoCharacterOperators | lexer/lexer.go:66-81 | `==` gives one `EQUAL` token and `!=` one `NOT_EQUAL` token, two bytes long; otherwise `=` gives `ASSIGN` and `!` gives `BANG`, one byte long |
| LexerProperties.ScanIdentifier | lexer/lexer.go:110-113 | an identifier token is the maximal letter run, with kind `LookupIdentifier` of the run; the byte after it is not consumed |
| LexerProperties.ScanNumber | lexer/lexer.go:114-117 | a number token is the maximal digit run with kind `INTEGER`; the byte after it is not consumed |
| LexerProperties.ScanIllegal | lexer/lexer.go:118-122 | a byte that no rule matches gives `ILLEGAL` with that byte as its literal, and the cursor advances by exactly one |
| LexerProperties.ScanNeverProducesStringColonBrackets | lexer/lexer.go:65-121 | no token is ever `STRING`, `COLON`, `LBRACKET` or `RBRACKET`; the bytes `"`, `:`, `[` and `]` give `ILLEGAL` |
| LexerProperties.ScanOperatorLiteral | lexer/lexer.go:66-105 | an operator or punctuation token's literal is its kind's own spelling |
| LexerProperties.ScanEof | lexer/lexer.go:106-108 | a NUL byte, and any position past the end, give `EOF` with literal `""`, advancing by one |
| LexerProperties.EofForever | lexer/lexer.go:20-28 | once the input is used up, every later call returns `EOF` with literal `""` |
| LexerProperties.NthTokenIsStreamToken | lexer/lexer.go:62-124 | the token of the k-th call equals the k-th entry of `Stream`, with `EOF` past its end |
| LexerProperties.StreamIntegerTokensAreDigits | lexer/lexer.go:114-117 | every `INTEGER` token in a stream has a non-empty, digit-only literal |
| LexerProperties.StreamEofOnlyLast | lexer/lexer.go:106-108 | in input without NUL bytes, only the last token of the stream can be `EOF` |
| LexerProperties.RunEndShift | lexer/lexer.go:46-60 | a run behind any prefix ends at the same place, shifted by the prefix length |
| LexerProperties.RunShift | lexer/lexer.go:46-60 | a run behind any prefix has the same end and the same bytes |
| LexerProperties.ReadTokenShift | lexer/lexer.go:65-123 | the token read behind any prefix is the same token, at a shifted position |
| LexerProperties.ScanShift | lexer/lexer.go:62-124 | `NextToken` depends only on the bytes from the cursor on: behind any prefix it gives the same token |
| LexerProperties.StreamHasNoUnlexedKinds | lexer/lexer.go:65-121 | no token of any stream is `STRING`, `COLON`, `LBRACKET` or `RBRACKET` |
| LexerProperties.StreamStep | lexer/lexer.go:62-124 | before the end of the input, a stream is the scanned token followed by the stream after it |
| LexerProperties.StreamShift | lexer/lexer.go:62-124 | the tokens of a text behind any prefix are the tokens of that text alone |
| LexerProperties.StreamSuffix | lexer/lexer.go:62-124 | lexing `a + b` from the end of `a` gives the tokens of `b` |
| LexerProperties.RunEndPrefix | lexer/lexer.go:46-60 | a run that ends inside a text ends at the same place whatever follows the text |
| LexerProperties.RunPrefix | lexer/lexer.go:46-60 | such a run also has the same bytes whatever follows |
| LexerProperties.ReadTokenPrefix | lexer/lexer.go:65-123 | a token that ends inside a text, or that ends exactly at its end without needing lookahead, is the same whatever follows |
| LexerProperties.ScanPrefix | lexer/lexer.go:62-124 | the same for one `NextToken` call, blank skipping included |
| LexerProperties.StreamPrefix | lexer/lexer.go:62-124 | when a text ends cleanly (its last token is an operator or punctuation ending at its end), its tokens are a prefix of the tokens of any extension |
| LexerProperties.StreamConcat | lexer/lexer.go:62-124 | when a text ends cleanly, lexing it followed by another text is lexing each and concatenating the results |
| LexerExamples.SampleLex | lexer/lexer_test.go:9-116 | the sample program lexes to exactly the 75 expected tokens, ending in `EOF`, and every later call returns `EOF` |
| Ast.JoinStringsAppend | ast/ast.go:168-190 | joining with a separator: one part is itself, and one more part adds the separator and the part |
| Ast.ExpressionStrings | ast/ast.go:184-190 | the rendering of each argument, in order |
| Ast.IdentifierStrings | ast/ast.go:168-174 | the rendering of each parameter, in order |
| Ast.StatementsStringAppend | ast/ast.go:152-158 | rendering statements concatenates their renderings with no separator |
| Ast.ProgramStringAppend | ast/ast.go:37-43 | one more statement appends its rendering to the program's rendering |
| Ast.LiteralsRenderAsToken | ast/ast.go:52-102 | identifiers and integer and boolean literals render as their token literal, not their value (`010` stays `010`, not `8`) |
| Strconv.ParseInt | parser/parser.go:333 | `strconv.ParseInt(lit, 0, 64)` on digit strings: a result is only for a non-empty digit string and lies in `0..2^63-1` |
| Strconv.InRange | parser/parser.go:333-338 | a value is accepted if and only if it fits in 64 bits, and it is kept unchanged |
| Strconv.DigitChar | parser/parser.go:333 | the digit byte of a digit value |
| Strconv.DigitsString | parser/parser.go:333 | the spelling of a number in a base is a non-empty digit string using only that base's digits |
| Strconv.DigitsStringValue | parser/parser.go:333 | reading the spelling of n back in the same base gives n |
| Strconv.DigitsStringLeadingDigit | parser/parser.go:333 | a spelling starts with `0` exactly when the number is 0 |
| Strconv.ParseIntDecimal | parser/parser.go:333-338 | the decimal spelling of any 64-bit value parses back to that value |
| Strconv.ParseIntOctal | parser/parser.go:333-338 | `0` followed by the octal spelling of a 64-bit value parses back to that value |
| Strconv.ParseIntOverflow | parser/parser.go:333-338 | the decimal spelling of a value above `2^63-1` is rejected |
| Strconv.ParseIntLeadingZeroExamples | parser/parser.go:333-338 | `010` is 8, `08` and `09` are errors, `0` and `00` are 0, and the empty string is an error |
| Strconv.ParseIntBounds | parser/parser.go:333-338 | `9223372036854775807` is accepted and `9223372036854775808` is rejected |
| ParserSpec.ExpectPeek | parser/parser.go:386-393 | advances if and only if the peek token has the wanted kind; otherwise appends exactly one error and keeps the position |
| ParserSpec.ParseProgram | parser/parser.go:107-119 | stops at `EOF`; the error list is empty if and only if the program has no failed node |
| ParserSpec.ProgramLoop | parser/parser.go:111-117 | only appends statements and errors, ends on `EOF`, and adds no error exactly when every new statement is complete |
| ParserSpec.ParseStatement | parser/parser.go:121-130 | dispatches on the current token; the statement starts on it unless it is a failed `let`; no new error exactly when the statement is complete |
| ParserSpec.ParseLetStatement | parser/parser.go:132-147 | gives a `let` on the current token or a failed `let`, and adds no error exactly when the `let` is complete |
| ParserSpec.ParseReturnStatement | parser/parser.go:149-157 | gives a `return` on the current token, and adds no error exactly when it is complete |
| ParserSpec.SkipToSemicolon | parser/parser.go:143-155 | skips only non-`;` tokens, adds no error, and is hung exactly when no `;` follows before the `EOF` tail |
| ParserSpec.ParseExpressionStatement | parser/parser.go:159-166 | gives an expression statement on the current token, and adds no error exactly when it is complete |
| ParserSpec.ParseExpression | parser/parser.go:168-185 | only appends errors, and adds none exactly when the expression is complete |
| ParserSpec.InfixLoop | parser/parser.go:176-184 | the infix loop adds no error exactly when the whole expression is complete |
| ParserSpec.PrefixParseFn | parser/parser.go:57-70 | for a kind with a prefix handler, no new error exactly when the node is complete |
| ParserSpec.InfixParseFn | parser/parser.go:72-81 | for a kind with an infix handler, no new error exactly when the combined node is complete |
| ParserSpec.ParseIntegerLiteral | parser/parser.go:332-340 | never moves the position, and gives an integer node exactly when `ParseInt` accepts the literal, else one error |
| ParserSpec.ParsePrefixExpression | parser/parser.go:342-347 | adds no error exactly when the prefix node is complete |
| ParserSpec.ParseGroupedExpression | parser/parser.go:195-202 | adds no error exactly when the grouped node is complete |
| ParserSpec.ParseIfExpression | parser/parser.go:204-228 | adds no error exactly when the `if` node is complete |
| ParserSpec.IfBranches | parser/parser.go:215-226 | adds no error exactly when both branches parse and the condition is complete |
| ParserSpec.ParseFunctionLiteral | parser/parser.go:230-241 | adds no error exactly when the function node is complete |
| ParserSpec.ParseArrayLiteral | parser/parser.go:247-251 | adds no error exactly when the array node is complete |
| ParserSpec.ParseHashLiteral | parser/parser.go:253-274 | adds no error exactly when every key and value is complete |
| ParserSpec.HashLoop | parser/parser.go:256-273 | the pair loop adds no error exactly when every pair so far and every new pair is complete |
| ParserSpec.HashPair | parser/parser.go:257-271 | one pair always moves the position, and adds no error exactly when it gives a complete pair |
| ParserSpec.ParseExpressionList | parser/parser.go:276-294 | adds no error exactly when it gives a non-nil list of complete elements |
| ParserSpec.ListLoop | parser/parser.go:285-293 | keeps the elements read so far, and adds no error exactly when the list is non-nil and complete |
| ParserSpec.ParseFunctionParameter | parser/parser.go:295-316 | adds no error exactly when it gives a non-nil parameter list |
| ParserSpec.ParameterLoop | parser/parser.go:305-315 | keeps the parameters read so far, and adds no error exactly when the list is non-nil |
| ParserSpec.ParseBlockStatement | parser/parser.go:318-330 | always moves the position, stops on `}` or `EOF`, keeps the `{` token, and adds no error exactly when the block is complete |
| ParserSpec.BlockLoop | parser/parser.go:322-328 | keeps the statements read so far, stops on `}` or `EOF`, and adds no error exactly when every statement is complete |
| ParserSpec.ParseInfixExpression | parser/parser.go:349-355 | adds no error exactly when both operands are complete |
| ParserSpec.ParseCallExpression | parser/parser.go:357-361 | adds no error exactly when the callee and every argument are complete |
| ParserSpec.ParseIndexExpression | parser/parser.go:363-371 | adds no error exactly when the index node is complete |
| Parser.Parser.constructor | parser/parser.go:52-84 | `New` pulls two tokens: the state is position 0, no errors, not hung |
| Parser.Parser.NextToken | parser/parser.go:102-105 | peek shifts into current and exactly one new token is pulled; errors are unchanged |
| Parser.Parser.PeekError | parser/parser.go:97-100 | appends exactly one error and changes nothing else |
| Parser.Parser.NoPrefixParseFnError | parser/parser.go:373-376 | appends exactly one error and changes nothing else |
| Parser.Parser.ExpectPeek | parser/parser.go:386-393 | same result and state as `ParserSpec.ExpectPeek`; on success the current token is the old peek token |
| Parser.Parser.ParseProgram | parser/parser.go:107-119 | same program and state as `ParserSpec.ProgramLoop` from the start |
| Parser.Parser.ProgramStep | parser/parser.go:111-117 | one statement and the `nextToken` after it are one round of the program loop |
| Parser.Parser.ParseStatement | parser/parser.go:121-130 | same statement and state as `ParserSpec.ParseStatement` |
| Parser.Parser.ParseLetStatement | parser/parser.go:132-147 | same statement and state as `ParserSpec.ParseLetStatement` |
| Parser.Parser.ParseReturnStatement | parser/parser.go:149-157 | same statement and state as `ParserSpec.ParseReturnStatement` |
| Parser.Parser.SkipToSemicolon | parser/parser.go:143-155 | same state as `ParserSpec.SkipToSemicolon` |
| Parser.Parser.ParseExpressionStatement | parser/parser.go:159-166 | same statement and state as `ParserSpec.ParseExpressionStatement` |
| Parser.Parser.ParseExpression | parser/parser.go:168-185 | same node and state as `ParserSpec.ParseExpression` |
| Parser.Parser.InfixLoop | parser/parser.go:176-184 | same node and state as `ParserSpec.InfixLoop` |
| Parser.Parser.InfixStop | parser/parser.go:176-180 | the infix loop stops at `;`, at a peek kind of no higher precedence, or without an infix handler |
| Parser.Parser.InfixStep | parser/parser.go:176-184 | one round of the infix loop strictly advances the position |
| Parser.Parser.PrefixParseFn | parser/parser.go:57-70 | same node and state as `ParserSpec.PrefixParseFn` |
| Parser.Parser.InfixParseFn | parser/parser.go:72-81 | same node and state as `ParserSpec.InfixParseFn` |
| Parser.Parser.ParseIdentifier | parser/parser.go:187-189 | same node as `ParserSpec.ParseIdentifier`, with no state change |
| Parser.Parser.ParseBoolean | parser/parser.go:191-193 | same node as `ParserSpec.ParseBoolean`, with no state change |
| Parser.Parser.ParseStringLiteral | parser/parser.go:243-245 | same node as `ParserSpec.ParseStringLiteral`, with no state change |
| Parser.Parser.ParseIntegerLiteral | parser/parser.go:332-340 | same node and state as `ParserSpec.ParseIntegerLiteral` |
| Parser.Parser.ParsePrefixExpression | parser/parser.go:342-347 | same node and state as `ParserSpec.ParsePrefixExpression` |
| Parser.Parser.ParseGroupedExpression | parser/parser.go:195-202 | same node and state as `ParserSpec.ParseGroupedExpression` |
| Parser.Parser.ParseIfExpression | parser/parser.go:204-228 | same node and state as `ParserSpec.ParseIfExpression` |
| Parser.Parser.IfBranches | parser/parser.go:215-226 | same node and state as `ParserSpec.IfBranches` |
| Parser.Parser.ParseFunctionLiteral | parser/parser.go:230-241 | same node and state as `ParserSpec.ParseFunctionLiteral` |
| Parser.Parser.ParseArrayLiteral | parser/parser.go:247-251 | same node and state as `ParserSpec.ParseArrayLiteral` |
| Parser.Parser.ParseHashLiteral | parser/parser.go:253-274 | same node and state as `ParserSpec.ParseHashLiteral` |
| Parser.Parser.HashPair | parser/parser.go:257-271 | same pair and state as `ParserSpec.HashPair` |
| Parser.Parser.ParseExpressionList | parser/parser.go:276-294 | same list and state as `ParserSpec.ParseExpressionList` |
| Parser.Parser.ListLoop | parser/parser.go:285-293 | same list and state as `ParserSpec.ListLoop` |
| Parser.Parser.ListStep | parser/parser.go:285-289 | a comma and one expression are one round of the list loop |
| Parser.Parser.ParseFunctionParameter | parser/parser.go:295-316 | same parameters and state as `ParserSpec.ParseFunctionParameter` |
| Parser.Parser.ParseBlockStatement | parser/parser.go:318-330 | same block and state as `ParserSpec.ParseBlockStatement` |
| Parser.Parser.BlockStep | parser/parser.go:322-328 | one statement and the `nextToken` after it are one round of the block loop |
| Parser.Parser.ParseInfixExpression | parser/parser.go:349-355 | same node and state as `ParserSpec.ParseInfixExpression` |
| Parser.Parser.ParseCallExpression | parser/parser.go:357-361 | same node and state as `ParserSpec.ParseCallExpression` |
| Parser.Parser.ParseIndexExpression | parser/parser.go:363-371 | same node and state as `ParserSpec.ParseIndexExpression` |
| ParserProperties.PrecedenceLadder | parser/parser.go:12-35 | the ladder `LOWEST < EQUALS < ... < INDEX`; a kind is above `LOWEST` exactly when it has an infix handler; no binary operator reaches `PREFIX` |
| ParserProperties.MissingPrefixParseFn | parser/parser.go:169-173 | with no prefix handler: no node, no advance, and exactly one `NoPrefixParseFn` error |
| ParserProperties.Atom | parser/parser.go:187-193 | the node of an identifier, literal or boolean token is complete, keeps the token literal and renders as it |
| ParserProperties.AtomStart | parser/parser.go:168-185 | an expression starting on an atom is the infix loop applied to that atom |
| ParserProperties.InfixLoopStops | parser/parser.go:176-180 | the infix loop returns its left operand unchanged at `;` or at a peek kind of no higher precedence |
| ParserProperties.InfixLoopBinary | parser/parser.go:349-355 | a binary operator of higher precedence wraps the left operand with a right operand parsed at the operator's own precedence |
| ParserProperties.PrefixStart | parser/parser.go:342-347 | `!` and `-` parse their operand at `PREFIX` precedence |
| ParserProperties.GroupStart | parser/parser.go:195-202 | a group returns its inner node itself, with no wrapper node |
| ParserProperties.AtomAlone | parser/parser.go:168-185 | an atom followed by `;` or by a kind of no higher precedence is the whole expression |
| ParserProperties.AtomOperand | parser/parser.go:349-355 | an atom operand followed by a kind of no higher precedence is taken as the right operand |
| ParserProperties.LeftGroups | parser/parser.go:175-184 | `a op1 b op2 c` with `op1` at least as tight as `op2` groups to the left |
| ParserProperties.RightNests | parser/parser.go:175-184 | `a op1 b op2 c` with `op2` tighter nests `b op2 c` to the right |
| ParserProperties.OneOperator | parser/parser.go:168-185 | `a op b` followed by a `LOWEST` kind is one infix node |
| ParserProperties.TwoOperators | parser/parser.go:168-185 | `a op1 b op2 c` in full: left grouping or right nesting, decided by the two precedences |
| ParserProperties.TwoOperatorsString | parser/parser_test.go:412-421 | the rendering of `a op1 b op2 c` is `((a op1 b) op2 c)` or `(a op1 (b op2 c))`, decided by precedence |
| ParserProperties.PrefixBindsTighter | parser/parser.go:342-347 | `-a * b` parses as `((-a) * b)`, for any prefix operator and binary operator |
| ParserProperties.GroupFirst | parser/parser.go:195-202 | `(a op1 b) op2 c` groups the parenthesised part first, whatever the precedences |
| ParserProperties.CommaAtomsList | parser/parser.go:285-289 | the list of m comma-separated atoms has m elements |
| ParserProperties.ListLoopAtom | parser/parser.go:285-289 | `, a` with an atom a adds a's node and moves two tokens |
| ParserProperties.ListLoopEnd | parser/parser.go:290-293 | at the terminator the list is complete; at any other token it is nil with exactly one error |
| ParserProperties.ListLoopAtoms | parser/parser.go:284-293 | m comma-separated atoms then the terminator give exactly those atoms, in order |
| ParserProperties.ExpressionListAtoms | parser/parser.go:276-294 | an immediate terminator gives an empty list; otherwise the comma-separated atoms in order |
| ParserProperties.InfixLoopCall | parser/parser.go:357-361 | `(` after an expression makes a call with that expression as callee |
| ParserProperties.CallArgumentList | parser/parser.go:276-294 | the arguments of a call on atoms are those atoms, in order |
| ParserProperties.CallOfAtoms | parser/parser.go:357-361 | `f(a1, ..., am)` on atoms is one call node with those arguments |
| ParserProperties.CallOfAtom | parser/parser.go:357-361 | a call on an atom callee followed by a `LOWEST` kind is the whole expression |
| ParserProperties.CommaLiterals | ast/ast.go:184-190 | one literal per atom of a comma-separated list |
| ParserProperties.CommaAtomsStrings | ast/ast.go:184-190 | the atoms of a comma-separated list render as their literals |
| ParserProperties.CallOfAtomsString | ast/ast.go:184-190 | a call on atoms renders as the callee, `(`, the arguments joined by `, `, and `)` |
| ParserProperties.CommaTokensList | parser/parser.go:305-310 | one identifier per comma-separated token |
| ParserProperties.ParameterLoopTokens | parser/parser.go:305-315 | comma-separated parameters of any kind of token, then `)`, give one identifier per token, in order |
| ParserProperties.ParameterLoopMissingParen | parser/parser.go:312-314 | a missing `)` gives a nil list and exactly one error |
| ParserProperties.FunctionParameters | parser/parser.go:295-316 | `()` gives an empty list; otherwise one identifier per comma-separated token, whatever its kind |
| ParserProperties.LetFailure | parser/parser.go:132-147 | a `let` fails, giving the typed nil, if and only if no identifier or no `=` follows; the failure adds exactly one error, about the first wrong token, and leaves the cursor on the last matching token |
| ParserProperties.LetAtom | parser/parser.go:132-147 | `let x = a;` with an atom a is one `let` node |
| ParserProperties.ReturnAtom | parser/parser.go:149-157 | `return a;` with an atom a is one `return` node |
| ParserProperties.LetAtomString | ast/ast.go:62-64 | `let x = a;` renders as `let x = a;` |
| ParserProperties.ReturnAtomString | ast/ast.go:73-75 | `return a;` renders as `return a;` |
| ParserProperties.ProgramLoopProgress | parser/parser.go:111-117 | the program loop adds at most one statement per token it consumes |
| ParserProperties.ProgramStatementsBound | parser/parser.go:107-119 | a program has no more statements than the tokens before its `EOF` |
| ParserProperties.ProgramTokenLiteral | ast/ast.go:30-35 | a program is empty exactly when the first token is `EOF`; otherwise its token literal is that of the first token |
| ParserProperties.BlockOfAtom | parser/parser.go:318-330 | `{ a }` with an atom a is a block of one expression statement that stops on `}` |
| ParserProperties.IfBranchesShape | parser/parser.go:215-226 | an `if` has an `Alternative` if and only if `else {` follows the consequence block, and none if and only if no `else` follows; a missing `{` gives no node and exactly one error |
| ParserProperties.ProgramLoopStep | parser/parser.go:111-117 | one statement and the `nextToken` after it are one round of the program loop |
| ParserProperties.ExpressionStatementStep | parser/parser.go:159-166 | an expression statement consumes a `;` right after its expression, and only then |
| ParserProperties.ReturnAtomsList | parser/parser.go:111-117 | the m `return` nodes of m `return a;` statements |
| ParserProperties.ProgramReturnStep | parser/parser.go:107-119 | one `return a;` is one round of the program loop, three tokens long |
| ParserProperties.ProgramLoopEof | parser/parser.go:111 | at `EOF` the program loop stops with the statements so far |
| ParserProperties.ProgramOfReturns | parser/parser.go:107-119 | m statements `return a;` give m `return` nodes in order, three tokens each |
| ParserProperties.EmptyHashLiteral | parser/parser.go:253-274 | `{` then `}` is an empty hash literal, with no error, the cursor on the `}` |
| ParserProperties.HashFailsWithoutColon | parser/parser.go:257-263 | among tokens without `:`, a hash literal other than `{}` parses its first key, adds exactly one error for the missing `:` and gives no node |
| ParserExamples.ParseIntReturnValues | parser/parser_test.go:41-55 | `5`, `10` and `1000` parse as those values |
| ParserExamples.ReturnTokensAt | parser/parser_test.go:41-45 | the tokens of the three-`return` input, entry by entry |
| ParserExamples.ReturnTokensShape | parser/parser_test.go:41-55 | those tokens are three `return a;` statements with the expected nodes |
| ParserExamples.ThreeReturns | parser/parser_test.go:41-55 | `return 5; return 10; return 1000;` gives three `return` nodes and no error |
| ParserExamples.SumStatementParse | parser/parser_test.go:418 | `3 + 4;` is one statement `(3 + 4)` and consumes its `;` |
| ParserExamples.ProductStatementParse | parser/parser_test.go:418 | `-5 * 5` is one statement `((-5) * 5)` |
| ParserExamples.SumThenProductParse | parser/parser_test.go:418 | `3 + 4;-5 * 5` is those two statements and stops at `EOF` |
| ParserExamples.SumThenProductString | parser/parser_test.go:418 | that program renders as `(3 + 4)((-5) * 5)` |
| ParserExamples.ScanOneDigit | lexer/lexer.go:114-117 | a single digit followed by a non-digit is one `INTEGER` token |
| ParserExamples.SumThenProductScanNumbers | lexer/lexer.go:114-117 | the number tokens of `3 + 4;-5 * 5` |
| ParserExamples.SumThenProductScanOperators | lexer/lexer.go:82-105 | the operator tokens of `3 + 4;-5 * 5` |
| ParserExamples.SumThenProductLex | lexer/lexer.go:62-124 | `3 + 4;-5 * 5` lexes to its eight tokens |
| ParserExamples.SumThenProductPipeline | parser/parser_test.go:418 | lexing then parsing `3 + 4;-5 * 5` gives no error and renders `(3 + 4)((-5) * 5)` |
| ParserExamples.SumThenProductTokensParse | parser/parser_test.go:418 | the same from the token list |
| ParserExamples.NilCalleeTokensAt | parser/parser.go:332-340 | the tokens of `08(1)`, entry by entry |
| ParserExamples.NilCalleePrefix | parser/parser.go:332-340 | `08` is no decimal literal: nil, with the integer error, and the infix loop goes on |
| ParserExamples.NilCalleeExpression | parser/parser.go:168-185 | `08(1)` is a call on the nil callee with argument `1`, and the literal's error is the only one |
| ParserExamples.NilCalleeParse | parser/parser.go:357-361 | the program `08(1)` is that one call statement, ending at `EOF` with one error |
| ParserExamples.NilCalleeString | ast/ast.go:184-190 | that program renders as `%!s(<nil>)(1)` |
| ParserExamples.NilCalleeScanNumbers | lexer/lexer.go:114-117 | `08` is one `INTEGER` token, and so is `1` |
| ParserExamples.NilCalleeScanParentheses | lexer/lexer.go:82-105 | the parenthesis tokens of `08(1)` |
| ParserExamples.NilCalleeLex | lexer/lexer.go:62-124 | `08(1)` lexes to its four tokens |
| ParserExamples.NilCalleePipeline | ast/ast.go:184-190 | lexing then parsing `08(1)` leaves the one integer error and renders `%!s(<nil>)(1)` |
| ParserExamples.NilCalleeTokensParse | ast/ast.go:184-190 | the same from the token list |
| ParserExamples.EmptyHashExpression | parser/parser.go:253-274 | `{}` is an empty hash literal, with no error |
| ParserExamples.EmptyHashParse | parser/parser.go:253-274 | the program `{}` is one statement holding that literal, with no error |
| ParserExamples.EmptyHashLex | lexer/lexer.go:62-124 | `{}` lexes to `{` and `}` |
| ParserExamples.EmptyHashPipeline | parser/parser.go:69 | lexing then parsing `{}` reaches the hash literal parser and gives one empty hash literal with no error, which has no rendering |
| ParserExamples.EmptyHashTokensParse | parser/parser.go:253-274 | the same from the token list |
| ParserExamples.LexedHashFailsAtFirstKey | parser/parser.go:257-263 | on the lexer's tokens for any input, a hash literal other than `{}` fails at the `:` after its first key |

## Left out

- repl/repl.go and object/object.go are not part of this model. The first is
  an interactive I/O loop, and the second holds the evaluator's runtime values.
- Error messages are structured records (`PeekError(got, wanted)`,
  `NoPrefixParseFn(kind)`, `IntegerParseError(literal)`), not formatted text.
  `peekError` in the source passes its arguments the other way round, so the
  actual peek token fills the slot the message calls "expected". The record
  keeps both values, so the swap only affects the text.
- The prefix and infix handler maps and their registration are replaced by
  a `match` on the token kind. The dispatch covers the same kinds.
- The `Pairs` map of a hash literal is an ordered sequence of pairs. Go keys
  the map by node pointer, so the map's identity and order carry no meaning.
  Go's map also merges entries whose keys are equal as interface values,
  which happens for two nil keys (`{ ) : 1 , ) : 2 }`): Go keeps one entry and
  the model keeps both pairs. Such keys come with errors, and no key is ever
  parsed from lexer output (see below).
- Strconv.ParseInt: only digit-only literals are accepted, with base 0
  (a leading `0` means octal). Signs, `0x`/`0b`/`0o` prefixes and
  underscores give `None`. The lexer never puts these inside an `INTEGER`
  token (`StreamIntegerTokensAreDigits`). Go's `strconv` is not part of this
  model.
- Parser.Parser.SkipToSemicolon: where Go loops forever (no `;` before the
  endless `EOF` tail), the model stops, sets the ghost flag `hung` and goes
  on at `EOF`. A state with `hung` set stands for "the Go program does not
  return".
- The parser reads a token sequence rather than calling the lexer.
  `SumThenProductPipeline` shows the two composed.
- As written, the lexer never produces `STRING`, `COLON`, `LBRACKET` or
  `RBRACKET` (`StreamHasNoUnlexedKinds`). String, array and index parsing
  therefore cannot be reached from lexer output. Hash parsing can: `{}` gives
  an empty hash literal with no error (`EmptyHashPipeline`), and any other
  `{` fails at the `:` after its first key (`LexedHashFailsAtFirstKey`). Hash
  pairs, and string, array and index nodes, are modelled and proved on token
  sequences only.
- `String` is defined only on `Renderable` trees. A `String` method that
  calls `String` on a nil operand panics in Go, and the model gives such a
  tree no rendering. A call's callee is the exception: it is formatted by
  `fmt`'s `%s` verb, which prints `%!s(<nil>)` for a nil callee and
  `%!s(PANIC=String method: ...)` for a callee whose own rendering panics
  (`NilCalleePipeline`). The model writes the panic text with the Go
  runtime's nil-dereference message. ast/ast.go defines no `String` for
  string, array and hash literals or index expressions, so the model gives
  them no rendering, and no rendering for a tree that holds one.
- ParserProperties.CallOfAtomsString: stated for calls whose callee and
  arguments are atoms. Nested call arguments are not covered by a lemma.
- ParserProperties.ParameterLoopTokens: stated for parameter lists without a
  missing `)` in the middle. Such a list gives a nil list and one error
  (`ParameterLoopMissingParen`).
- `If`, `Block` and `FunctionLiteral` rendering are stated by the definition
  of `String` itself. They have no lemma beyond the statement and program
  concatenation lemmas.
- `TokenLiteral` on statements and expressions is the token's literal by
  definition. Only the program-level property has a lemma
  (`ProgramTokenLiteral`).

