/** The Arbok syntax tree and its renderer.

    Go's `Node`, `Statement` and `Expression` interfaces become three
    datatypes. Two kinds of Go nil are part of the model, because the parser
    produces both:
    - `Expression.Nil` is the nil `Expression` interface value that a failed
      parse function returns;
    - `Statement.FailedLet` is a nil `*LetStatement` wrapped in the
      `Statement` interface, which is not itself nil.
    A nil slice is `NilList` (expressions) or `None` (parameters).

    `String` is the fully parenthesised rendering. Go panics when a
    `String` method calls `String` on a nil node, so rendering is only
    defined on `Renderable` trees. A call is the exception: its renderer
    hands the callee to `fmt`'s `%s` verb instead of calling `String`, and
    `fmt` prints a placeholder for a nil callee or for a callee whose own
    rendering panics. The node kinds the parser builds but the AST package
    does not define (string, array and hash literals, index expressions)
    have no rendering at all. */
module Ast {
  import opened Token
  import opened Wrappers
  import opened Strconv

  datatype Identifier = Identifier(token: Token, value: ByteString)
  {
    function String(): ByteString
    {
      token.literal
    }
  }

  /** An `[]Expression` that may be nil. */
  datatype ExpressionList = NilList | List(items: seq<Expression>)

  /** One key/value entry of a hash literal, in source order. */
  datatype Pair = Pair(key: Expression, value: Expression)

  /** Go's `callee` field of a call is `Function`; the literal values of
      integer, boolean and string literals are all `Value` in Go. */
  datatype Expression =
    | Nil
    | Ident(id: Identifier)
    | IntegerLiteral(token: Token, intValue: Int64)
    | Boolean(token: Token, boolValue: bool)
    | Prefix(token: Token, operator: ByteString, right: Expression)
    | Infix(token: Token, left: Expression, operator: ByteString, right: Expression)
    | If(token: Token, condition: Expression, consequence: BlockStatement, alternative: Option<BlockStatement>)
    | FunctionLiteral(token: Token, parameters: Option<seq<Identifier>>, body: BlockStatement)
    | Call(token: Token, callee: Expression, arguments: ExpressionList)
    | StringLiteral(token: Token, stringValue: ByteString)
    | ArrayLiteral(token: Token, elements: ExpressionList)
    | HashLiteral(token: Token, pairs: seq<Pair>)
    | Index(token: Token, left: Expression, index: Expression)
  {
    /** The tree has no hole: no nil expression, no failed `let` and no nil
        list anywhere in it. */
    predicate Complete()
    {
      match this
      case Nil => false
      case Ident(_) => true
      case IntegerLiteral(_, _) => true
      case Boolean(_, _) => true
      case Prefix(_, _, right) => right.Complete()
      case Infix(_, left, _, right) => left.Complete() && right.Complete()
      case If(_, condition, consequence, alternative) =>
        condition.Complete() && consequence.Complete() &&
        (alternative.Some? ==> alternative.value.Complete())
      case FunctionLiteral(_, parameters, body) => parameters.Some? && body.Complete()
      case Call(_, callee, arguments) =>
        callee.Complete() && arguments.List? && AllComplete(arguments.items)
      case StringLiteral(_, _) => true
      case ArrayLiteral(_, elements) => elements.List? && AllComplete(elements.items)
      case HashLiteral(_, pairs) =>
        forall i :: 0 <= i < |pairs| ==> pairs[i].key.Complete() && pairs[i].value.Complete()
      case Index(_, left, index) => left.Complete() && index.Complete()
    }

    /** `String` can be called without a nil dereference, on node kinds the
        AST package defines. */
    predicate Renderable()
    {
      match this
      case Nil => false
      case Ident(_) => true
      case IntegerLiteral(_, _) => true
      case Boolean(_, _) => true
      case Prefix(_, _, right) => right.Renderable()
      case Infix(_, left, _, right) => left.Renderable() && right.Renderable()
      case If(_, condition, consequence, alternative) =>
        condition.Renderable() && consequence.Renderable() &&
        (alternative.Some? ==> alternative.value.Renderable())
      case FunctionLiteral(_, _, body) => body.Renderable()
      case Call(_, callee, arguments) =>
        callee.Defined() && (arguments.List? ==> AllRenderable(arguments.items))
      case StringLiteral(_, _) => false
      case ArrayLiteral(_, _) => false
      case HashLiteral(_, _) => false
      case Index(_, _, _) => false
    }

    /** The tree uses only node kinds the AST package defines; it may have
        nil holes. */
    predicate Defined()
    {
      match this
      case Nil => true
      case Ident(_) => true
      case IntegerLiteral(_, _) => true
      case Boolean(_, _) => true
      case Prefix(_, _, right) => right.Defined()
      case Infix(_, left, _, right) => left.Defined() && right.Defined()
      case If(_, condition, consequence, alternative) =>
        condition.Defined() && consequence.Defined() &&
        (alternative.Some? ==> alternative.value.Defined())
      case FunctionLiteral(_, _, body) => body.Defined()
      case Call(_, callee, arguments) =>
        callee.Defined() && (arguments.List? ==> AllDefined(arguments.items))
      case StringLiteral(_, _) => false
      case ArrayLiteral(_, _) => false
      case HashLiteral(_, _) => false
      case Index(_, _, _) => false
    }

    function TokenLiteral(): ByteString
      requires !Nil?
    {
      if Ident? then id.token.literal else token.literal
    }

    /** The fully parenthesised rendering. */
    function String(): ByteString
      requires Renderable()
    {
      match this
      case Ident(id) => id.String()
      case IntegerLiteral(token, _) => token.literal
      case Boolean(token, _) => token.literal
      case Prefix(_, operator, right) => "(" + operator + right.String() + ")"
      case Infix(_, left, operator, right) =>
        "(" + left.String() + " " + operator + " " + right.String() + ")"
      case If(_, condition, consequence, alternative) =>
        if alternative.Some? then
          "if " + condition.String() + " " + consequence.String() + " else " + alternative.value.String()
        else
          "if " + condition.String() + " " + consequence.String()
      case FunctionLiteral(token, parameters, body) =>
        token.literal + "(" + JoinStrings(IdentifierStrings(ParameterSlice(parameters)), ", ") + ") " + body.String()
      case Call(_, callee, arguments) =>
        var calleeText :=
          if callee.Nil? then NilOperand
          else if callee.Renderable() then callee.String()
          else PanicOperand;
        calleeText + "(" + JoinStrings(if arguments.List? then ExpressionStrings(arguments.items) else [], ", ") + ")"
      case _ => []
    }
  }

  /** What `fmt`'s `%s` verb prints for a nil interface value. */
  const NilOperand: ByteString := "%!s(<nil>)"

  /** What `fmt`'s `%s` verb prints when the operand's `String` method
      panics on a nil dereference. */
  const PanicOperand: ByteString :=
    "%!s(PANIC=String method: " + "runtime error: " + "invalid memory address " + "or nil pointer dereference)"

  /** Ranging over a nil slice visits nothing. */
  function ParameterSlice(ps: Option<seq<Identifier>>): seq<Identifier>
  {
    if ps.Some? then ps.value else []
  }

  predicate AllComplete(xs: seq<Expression>)
  {
    forall i :: 0 <= i < |xs| ==> xs[i].Complete()
  }

  predicate AllRenderable(xs: seq<Expression>)
  {
    forall i :: 0 <= i < |xs| ==> xs[i].Renderable()
  }

  predicate AllDefined(xs: seq<Expression>)
  {
    forall i :: 0 <= i < |xs| ==> xs[i].Defined()
  }

  /** Proof helper: completeness of a list grown by one element, for the
      parser's loops. */
  lemma AllCompleteAppend(xs: seq<Expression>, x: Expression)
    ensures AllComplete(xs + [x]) == (AllComplete(xs) && x.Complete())
  {
    assert forall i :: 0 <= i < |xs| ==> (xs + [x])[i] == xs[i];
    assert (xs + [x])[|xs|] == x;
  }

  /** Go's `strings.Join`. */
  function JoinStrings(parts: seq<ByteString>, sep: ByteString): ByteString
  {
    if |parts| == 0 then []
    else if |parts| == 1 then parts[0]
    else parts[0] + sep + JoinStrings(parts[1..], sep)
  }

  /** `strings.Join` puts the separator between neighbours only: one part
      is itself, and appending a part to a non-empty list appends the
      separator and that part. */
  lemma {:induction false} JoinStringsAppend(parts: seq<ByteString>, x: ByteString, sep: ByteString)
    ensures JoinStrings([x], sep) == x
    ensures |parts| > 0 ==> JoinStrings(parts + [x], sep) == JoinStrings(parts, sep) + sep + x
    decreases |parts|
  {
    if |parts| > 1 {
      assert (parts + [x])[1..] == parts[1..] + [x];
      JoinStringsAppend(parts[1..], x, sep);
    } else if |parts| == 1 {
      assert parts + [x] == [parts[0], x];
      assert [parts[0], x][1..] == [x];
    }
  }

  /** The slice of renderings the call renderer appends to, one per
      argument, in order. */
  function ExpressionStrings(xs: seq<Expression>): (r: seq<ByteString>)
    requires AllRenderable(xs)
    ensures |r| == |xs|
    ensures forall i :: 0 <= i < |xs| ==> r[i] == xs[i].String()
  {
    if |xs| == 0 then [] else [xs[0].String()] + ExpressionStrings(xs[1..])
  }

  /** The slice of renderings the function-literal renderer appends to. */
  function IdentifierStrings(ids: seq<Identifier>): (r: seq<ByteString>)
    ensures |r| == |ids|
    ensures forall i :: 0 <= i < |ids| ==> r[i] == ids[i].token.literal
  {
    if |ids| == 0 then [] else [ids[0].String()] + IdentifierStrings(ids[1..])
  }

  datatype Statement =
    | Let(token: Token, name: Identifier, value: Expression)
    | FailedLet
    | Return(token: Token, returnValue: Expression)
    | ExpressionStatement(token: Token, expression: Expression)
  {
    predicate Complete()
    {
      match this
      case Let(_, _, value) => value.Complete()
      case FailedLet => false
      case Return(_, returnValue) => returnValue.Complete()
      case ExpressionStatement(_, expression) => expression.Complete()
    }

    predicate Defined()
    {
      match this
      case Let(_, _, value) => value.Defined()
      case FailedLet => true
      case Return(_, returnValue) => returnValue.Defined()
      case ExpressionStatement(_, expression) => expression.Defined()
    }

    predicate Renderable()
    {
      match this
      case Let(_, _, value) => value.Renderable()
      case FailedLet => false
      case Return(_, returnValue) => returnValue.Renderable()
      case ExpressionStatement(_, expression) => expression.Renderable()
    }

    function TokenLiteral(): ByteString
      requires !FailedLet?
    {
      token.literal
    }

    function String(): ByteString
      requires Renderable()
    {
      match this
      case Let(token, name, value) => token.literal + " " + name.String() + " = " + value.String() + ";"
      case Return(token, returnValue) => token.literal + " " + returnValue.String() + ";"
      case ExpressionStatement(_, expression) => expression.String()
      case FailedLet => []
    }
  }

  predicate AllStatementsComplete(ss: seq<Statement>)
  {
    forall i :: 0 <= i < |ss| ==> ss[i].Complete()
  }

  predicate AllStatementsRenderable(ss: seq<Statement>)
  {
    forall i :: 0 <= i < |ss| ==> ss[i].Renderable()
  }

  /** Proof helper: completeness of a statement list grown by one
      statement, for the parser's block and program loops. */
  lemma AllStatementsCompleteAppend(ss: seq<Statement>, s: Statement)
    ensures AllStatementsComplete(ss + [s]) == (AllStatementsComplete(ss) && s.Complete())
  {
    assert forall i :: 0 <= i < |ss| ==> (ss + [s])[i] == ss[i];
    assert (ss + [s])[|ss|] == s;
  }

  /** The buffer the program and block renderers fill: each statement's
      rendering, in order, with no separator. */
  function StatementsString(ss: seq<Statement>): ByteString
    requires AllStatementsRenderable(ss)
  {
    if |ss| == 0 then [] else ss[0].String() + StatementsString(ss[1..])
  }

  /** The buffer loop of the program and block renderers: rendering a
      concatenation of statements is concatenating their renderings. */
  lemma {:induction false} StatementsStringAppend(a: seq<Statement>, b: seq<Statement>)
    requires AllStatementsRenderable(a) && AllStatementsRenderable(b)
    ensures AllStatementsRenderable(a + b)
    ensures StatementsString(a + b) == StatementsString(a) + StatementsString(b)
    decreases |a|
  {
    assert forall i :: 0 <= i < |a| ==> (a + b)[i] == a[i];
    assert forall i :: 0 <= i < |b| ==> (a + b)[|a| + i] == b[i];
    if |a| == 0 {
      assert a + b == b;
    } else {
      assert (a + b)[1..] == a[1..] + b;
      StatementsStringAppend(a[1..], b);
    }
  }

  datatype BlockStatement = BlockStatement(token: Token, statements: seq<Statement>)
  {
    predicate Complete()
    {
      AllStatementsComplete(statements)
    }

    predicate Defined()
    {
      forall i :: 0 <= i < |statements| ==> statements[i].Defined()
    }

    predicate Renderable()
    {
      AllStatementsRenderable(statements)
    }

    function TokenLiteral(): ByteString
    {
      token.literal
    }

    function String(): ByteString
      requires Renderable()
    {
      StatementsString(statements)
    }
  }

  datatype Program = Program(statements: seq<Statement>)
  {
    predicate Complete()
    {
      AllStatementsComplete(statements)
    }

    predicate Renderable()
    {
      AllStatementsRenderable(statements)
    }

    function TokenLiteral(): ByteString
      requires |statements| > 0 ==> !statements[0].FailedLet?
    {
      if |statements| > 0 then statements[0].TokenLiteral() else []
    }

    function String(): ByteString
      requires Renderable()
    {
      StatementsString(statements)
    }
  }

  /** A program renders as its statements' renderings one after the other,
      with nothing between them: one statement more appends its rendering. */
  lemma ProgramStringAppend(p: Program, s: Statement)
    requires p.Renderable() && s.Renderable()
    ensures Program(p.statements + [s]).Renderable()
    ensures Program(p.statements + [s]).String() == p.String() + s.String()
  {
    assert StatementsString([s]) == s.String() + StatementsString([]);
    StatementsStringAppend(p.statements, [s]);
  }

  /** Identifiers, integer literals and booleans render as the literal of
      their token, not as their value: the integer literal `010` renders as
      `010` although its value is 8. */
  lemma LiteralsRenderAsToken(e: Expression)
    requires e.Ident? || e.IntegerLiteral? || e.Boolean?
    ensures e.Renderable() && e.String() == e.TokenLiteral()
    ensures IntegerLiteral(Token(INTEGER, "010"), 8).String() == "010"
  {
  }
}
