/** What the parser promises, proved about the functions of `ParserSpec`
    (and so, through their contracts, about the methods of `Parser.Parser`).

    The lemmas about concrete inputs are stated over token sequences, the
    lexer's output being the subject of `LexerProperties`. */
module ParserProperties {
  import opened Token
  import opened Wrappers
  import opened Strconv
  import opened Ast
  import opened ParserSpec
  import Lexer

  /** The precedence ladder is strictly increasing; exactly the kinds with
      an infix parse function bind tighter than LOWEST; no kind has PREFIX,
      which lies above every binary operator. */
  lemma PrecedenceLadder(k: Kind)
    ensures LOWEST < EQUALS < LESSGREATER < SUM < PRODUCT < PREFIX < CALL < INDEX
    ensures (Precedence(k) > LOWEST) <==> HasInfix(k)
    ensures LOWEST <= Precedence(k) <= INDEX && Precedence(k) != PREFIX
    ensures IsBinaryOperator(k) ==> Precedence(k) < PREFIX
  {
  }

  /** With no prefix parse function for the current token, `parseExpression`
      records exactly one error, returns no node and does not advance. */
  lemma MissingPrefixParseFn(ts: seq<Token>, st: PState, precedence: int)
    requires !HasPrefix(Curr(ts, st).kind)
    ensures var (e, st') := ParseExpression(ts, st, precedence);
      && e == Nil
      && st'.pos == st.pos && st'.hung == st.hung
      && st'.errors == st.errors + [NoPrefixParseFn(Curr(ts, st).kind)]
  {
  }

  /** The tokens that parse to a node on their own, without moving the
      cursor: identifiers, booleans, strings and integers that fit. */
  predicate IsAtom(t: Token)
  {
    t.kind == IDENTIFIER || t.kind == TRUE || t.kind == FALSE || t.kind == STRING ||
    (t.kind == INTEGER && ParseInt(t.literal).Some?)
  }

  /** The node an atom parses to. */
  function Atom(t: Token): (e: Expression)
    requires IsAtom(t)
    ensures e.Complete() && e.TokenLiteral() == t.literal
    ensures t.kind != STRING ==> e.Renderable() && e.String() == t.literal
  {
    if t.kind == IDENTIFIER then Ident(Identifier(t, t.literal))
    else if t.kind == INTEGER then IntegerLiteral(t, ParseInt(t.literal).value)
    else if t.kind == STRING then StringLiteral(t, t.literal)
    else Boolean(t, t.kind == TRUE)
  }

  /** An atom is the left operand the infix loop starts from. */
  lemma AtomStart(ts: seq<Token>, st: PState, precedence: int)
    requires IsAtom(Curr(ts, st))
    ensures ParseExpression(ts, st, precedence) == InfixLoop(ts, st, precedence, Atom(Curr(ts, st)))
  {
  }

  /** The loop ends, handing back its operand and state untouched, at a `;`
      and at a peek token that does not bind tighter than `precedence`. */
  lemma InfixLoopStops(ts: seq<Token>, st: PState, precedence: int, left: Expression)
    requires Peek(ts, st).kind == SEMICOLON || precedence >= Precedence(Peek(ts, st).kind)
    ensures InfixLoop(ts, st, precedence, left) == (left, st)
  {
  }

  /** A binary operator that binds tighter takes the expression so far as
      its left operand, and its right operand is parsed at its own
      precedence. */
  lemma InfixLoopBinary(ts: seq<Token>, st: PState, precedence: int, left: Expression, right: Expression, st': PState)
    requires IsBinaryOperator(Peek(ts, st).kind) && precedence < Precedence(Peek(ts, st).kind)
    requires (right, st') == ParseExpression(ts, st.(pos := st.pos + 2), Precedence(Peek(ts, st).kind))
    ensures InfixLoop(ts, st, precedence, left) == InfixLoop(ts, st', precedence, Infix(Peek(ts, st), left, Peek(ts, st).literal, right))
  {
    var op := Peek(ts, st);
    assert NextToken(NextToken(st)) == st.(pos := st.pos + 2);
    assert ParseInfixExpression(ts, NextToken(st), left) == (Infix(op, left, op.literal, right), st');
    assert InfixParseFn(ts, NextToken(st), left) == (Infix(op, left, op.literal, right), st');
  }

  /** A prefix operator's operand is parsed at PREFIX precedence, and the
      prefix node is the left operand of the infix loop. */
  lemma PrefixStart(ts: seq<Token>, st: PState, precedence: int)
    requires Curr(ts, st).kind == BANG || Curr(ts, st).kind == MINUS
    ensures var op := Curr(ts, st);
      var (right, st') := ParseExpression(ts, NextToken(st), PREFIX);
      ParseExpression(ts, st, precedence) == InfixLoop(ts, st', precedence, Prefix(op, op.literal, right))
  {
    assert PrefixParseFn(ts, st) == ParsePrefixExpression(ts, st);
  }

  /** A parenthesised expression is the inner node itself, and it is the
      left operand of the infix loop. */
  lemma GroupStart(ts: seq<Token>, st: PState, precedence: int)
    requires Curr(ts, st).kind == LPAREN
    ensures var (inner, st') := ParseExpression(ts, NextToken(st), LOWEST);
      Peek(ts, st').kind == RPAREN ==>
        ParseExpression(ts, st, precedence) == InfixLoop(ts, NextToken(st'), precedence, inner)
  {
    assert PrefixParseFn(ts, st) == ParseGroupedExpression(ts, st);
  }

  /** The operands and operators of `a op1 b op2 c`, starting at `st`'s
      current token; the token after `c` binds at LOWEST (`;`, `)`, EOF, …). */
  predicate TwoOperatorTokens(ts: seq<Token>, st: PState)
  {
    && IsAtom(Lexer.TokenAt(ts, st.pos))
    && IsBinaryOperator(Lexer.TokenAt(ts, st.pos + 1).kind)
    && IsAtom(Lexer.TokenAt(ts, st.pos + 2))
    && IsBinaryOperator(Lexer.TokenAt(ts, st.pos + 3).kind)
    && IsAtom(Lexer.TokenAt(ts, st.pos + 4))
    && Precedence(Lexer.TokenAt(ts, st.pos + 5).kind) == LOWEST
  }

  /** An atom whose peek token does not bind tighter than `precedence` is
      the whole expression. */
  lemma AtomAlone(ts: seq<Token>, st: PState, precedence: int)
    requires IsAtom(Curr(ts, st))
    requires Peek(ts, st).kind == SEMICOLON || precedence >= Precedence(Peek(ts, st).kind)
    ensures ParseExpression(ts, st, precedence) == (Atom(Curr(ts, st)), st)
  {
    AtomStart(ts, st, precedence);
    InfixLoopStops(ts, st, precedence, Atom(Curr(ts, st)));
  }

  /** `left op b`, where the atom b does not give way to the operator
      after it: the loop goes on from b with `left op b` as its operand. */
  lemma AtomOperand(ts: seq<Token>, st: PState, precedence: int, left: Expression)
    requires IsBinaryOperator(Peek(ts, st).kind) && precedence < Precedence(Peek(ts, st).kind)
    requires IsAtom(Lexer.TokenAt(ts, st.pos + 2))
    requires Precedence(Peek(ts, st).kind) >= Precedence(Lexer.TokenAt(ts, st.pos + 3).kind)
    ensures var op := Peek(ts, st);
      InfixLoop(ts, st, precedence, left) ==
        InfixLoop(ts, st.(pos := st.pos + 2), precedence, Infix(op, left, op.literal, Atom(Lexer.TokenAt(ts, st.pos + 2))))
  {
    var s2 := st.(pos := st.pos + 2);
    AtomAlone(ts, s2, Precedence(Peek(ts, st).kind));
    InfixLoopBinary(ts, st, precedence, left, Atom(Lexer.TokenAt(ts, st.pos + 2)), s2);
  }

  /** `a op1 b op2 c` with op1 binding at least as tightly as op2. */
  lemma LeftGroups(ts: seq<Token>, st: PState)
    requires TwoOperatorTokens(ts, st)
    requires Precedence(Lexer.TokenAt(ts, st.pos + 1).kind) >= Precedence(Lexer.TokenAt(ts, st.pos + 3).kind)
    ensures var a, op1, b, op2, c :=
        Atom(Lexer.TokenAt(ts, st.pos)), Lexer.TokenAt(ts, st.pos + 1), Atom(Lexer.TokenAt(ts, st.pos + 2)),
        Lexer.TokenAt(ts, st.pos + 3), Atom(Lexer.TokenAt(ts, st.pos + 4));
      ParseExpression(ts, st, LOWEST) ==
        (Infix(op2, Infix(op1, a, op1.literal, b), op2.literal, c), st.(pos := st.pos + 4))
  {
    var a, op1, b, op2, c :=
      Atom(Lexer.TokenAt(ts, st.pos)), Lexer.TokenAt(ts, st.pos + 1), Atom(Lexer.TokenAt(ts, st.pos + 2)),
      Lexer.TokenAt(ts, st.pos + 3), Atom(Lexer.TokenAt(ts, st.pos + 4));
    var s2, s4 := st.(pos := st.pos + 2), st.(pos := st.pos + 4);
    var ab := Infix(op1, a, op1.literal, b);
    PrecedenceLadder(op1.kind);
    PrecedenceLadder(op2.kind);
    assert Peek(ts, st) == op1 && Peek(ts, s2) == op2 && Lexer.TokenAt(ts, s2.pos + 2) == Lexer.TokenAt(ts, st.pos + 4);
    assert s2.(pos := s2.pos + 2) == s4;
    calc {
      ParseExpression(ts, st, LOWEST);
      == { AtomStart(ts, st, LOWEST); }
      InfixLoop(ts, st, LOWEST, a);
      == { AtomOperand(ts, st, LOWEST, a); }
      InfixLoop(ts, s2, LOWEST, ab);
      == { AtomOperand(ts, s2, LOWEST, ab); }
      InfixLoop(ts, s4, LOWEST, Infix(op2, ab, op2.literal, c));
      == { InfixLoopStops(ts, s4, LOWEST, Infix(op2, ab, op2.literal, c)); }
      (Infix(op2, ab, op2.literal, c), s4);
    }
  }

  /** `a op1 b op2 c` with op2 binding tighter than op1. */
  lemma RightNests(ts: seq<Token>, st: PState)
    requires TwoOperatorTokens(ts, st)
    requires Precedence(Lexer.TokenAt(ts, st.pos + 1).kind) < Precedence(Lexer.TokenAt(ts, st.pos + 3).kind)
    ensures var a, op1, b, op2, c :=
        Atom(Lexer.TokenAt(ts, st.pos)), Lexer.TokenAt(ts, st.pos + 1), Atom(Lexer.TokenAt(ts, st.pos + 2)),
        Lexer.TokenAt(ts, st.pos + 3), Atom(Lexer.TokenAt(ts, st.pos + 4));
      ParseExpression(ts, st, LOWEST) ==
        (Infix(op1, a, op1.literal, Infix(op2, b, op2.literal, c)), st.(pos := st.pos + 4))
  {
    var a, op1, b, op2, c :=
      Atom(Lexer.TokenAt(ts, st.pos)), Lexer.TokenAt(ts, st.pos + 1), Atom(Lexer.TokenAt(ts, st.pos + 2)),
      Lexer.TokenAt(ts, st.pos + 3), Atom(Lexer.TokenAt(ts, st.pos + 4));
    var s2, s4 := st.(pos := st.pos + 2), st.(pos := st.pos + 4);
    var bc := Infix(op2, b, op2.literal, c);
    PrecedenceLadder(op1.kind);
    PrecedenceLadder(op2.kind);
    assert Peek(ts, st) == op1 && Curr(ts, s2) == Lexer.TokenAt(ts, st.pos + 2);
    assert Peek(ts, s2) == op2 && Lexer.TokenAt(ts, s2.pos + 2) == Lexer.TokenAt(ts, st.pos + 4);
    assert Lexer.TokenAt(ts, s2.pos + 3) == Lexer.TokenAt(ts, st.pos + 5) && s2.(pos := s2.pos + 2) == s4;
    calc {
      ParseExpression(ts, st, LOWEST);
      == { AtomStart(ts, st, LOWEST); }
      InfixLoop(ts, st, LOWEST, a);
      == { OneOperator(ts, s2, Precedence(op1.kind));
           InfixLoopBinary(ts, st, LOWEST, a, bc, s4); }
      InfixLoop(ts, s4, LOWEST, Infix(op1, a, op1.literal, bc));
      == { InfixLoopStops(ts, s4, LOWEST, Infix(op1, a, op1.literal, bc)); }
      (Infix(op1, a, op1.literal, bc), s4);
    }
  }

  /** `a op b` followed by a token that binds at LOWEST, parsed at a
      precedence below op's: one infix node. */
  lemma OneOperator(ts: seq<Token>, st: PState, precedence: int)
    requires IsAtom(Curr(ts, st)) && IsAtom(Lexer.TokenAt(ts, st.pos + 2)) && LOWEST <= precedence
    requires IsBinaryOperator(Peek(ts, st).kind) && precedence < Precedence(Peek(ts, st).kind)
    requires Precedence(Lexer.TokenAt(ts, st.pos + 3).kind) == LOWEST
    ensures ParseExpression(ts, st, precedence) ==
      (Infix(Peek(ts, st), Atom(Curr(ts, st)), Peek(ts, st).literal, Atom(Lexer.TokenAt(ts, st.pos + 2))),
       st.(pos := st.pos + 2))
  {
    var s2 := st.(pos := st.pos + 2);
    AtomStart(ts, st, precedence);
    AtomOperand(ts, st, precedence, Atom(Curr(ts, st)));
    InfixLoopStops(ts, s2, precedence,
      Infix(Peek(ts, st), Atom(Curr(ts, st)), Peek(ts, st).literal, Atom(Lexer.TokenAt(ts, st.pos + 2))));
  }

  /** `a op1 b op2 c`: when op1 binds at least as tightly as op2 it groups
      first, so chains of one precedence are left-associative; when op2
      binds tighter it nests to the right. */
  lemma TwoOperators(ts: seq<Token>, st: PState)
    requires TwoOperatorTokens(ts, st)
    ensures var a, op1, b, op2, c :=
        Atom(Lexer.TokenAt(ts, st.pos)), Lexer.TokenAt(ts, st.pos + 1), Atom(Lexer.TokenAt(ts, st.pos + 2)),
        Lexer.TokenAt(ts, st.pos + 3), Atom(Lexer.TokenAt(ts, st.pos + 4));
      ParseExpression(ts, st, LOWEST) ==
        (if Precedence(op1.kind) >= Precedence(op2.kind)
         then Infix(op2, Infix(op1, a, op1.literal, b), op2.literal, c)
         else Infix(op1, a, op1.literal, Infix(op2, b, op2.literal, c)),
         st.(pos := st.pos + 4))
  {
    if Precedence(Lexer.TokenAt(ts, st.pos + 1).kind) >= Precedence(Lexer.TokenAt(ts, st.pos + 3).kind) {
      LeftGroups(ts, st);
    } else {
      RightNests(ts, st);
    }
  }

  /** Rendered, the tree of `a op1 b op2 c` shows the grouping the
      precedence table chose, fully parenthesised: `((a op1 b) op2 c)` when
      `op1` binds at least as tightly as `op2`, `(a op1 (b op2 c))` when it
      binds less tightly. */
  lemma TwoOperatorsString(ts: seq<Token>, st: PState)
    requires TwoOperatorTokens(ts, st)
    requires Lexer.TokenAt(ts, st.pos).kind != STRING
    requires Lexer.TokenAt(ts, st.pos + 2).kind != STRING
    requires Lexer.TokenAt(ts, st.pos + 4).kind != STRING
    ensures ParseExpression(ts, st, LOWEST).0.Renderable()
    ensures var a, o1, b, o2, c :=
        Lexer.TokenAt(ts, st.pos).literal, Lexer.TokenAt(ts, st.pos + 1).literal, Lexer.TokenAt(ts, st.pos + 2).literal,
        Lexer.TokenAt(ts, st.pos + 3).literal, Lexer.TokenAt(ts, st.pos + 4).literal;
      ParseExpression(ts, st, LOWEST).0.String() ==
        if Precedence(Lexer.TokenAt(ts, st.pos + 1).kind) >= Precedence(Lexer.TokenAt(ts, st.pos + 3).kind)
        then "(" + ("(" + a + " " + o1 + " " + b + ")") + " " + o2 + " " + c + ")"
        else "(" + a + " " + o1 + " " + ("(" + b + " " + o2 + " " + c + ")") + ")"
  {
    TwoOperators(ts, st);
  }

  /** `op a op2 b` with op a prefix operator: the prefix binds tighter
      than every binary operator, giving `((op a) op2 b)`. */
  lemma PrefixBindsTighter(ts: seq<Token>, st: PState)
    requires Curr(ts, st).kind == BANG || Curr(ts, st).kind == MINUS
    requires IsAtom(Lexer.TokenAt(ts, st.pos + 1))
    requires IsBinaryOperator(Lexer.TokenAt(ts, st.pos + 2).kind)
    requires IsAtom(Lexer.TokenAt(ts, st.pos + 3))
    requires Precedence(Lexer.TokenAt(ts, st.pos + 4).kind) == LOWEST
    ensures var op, a, op2, b :=
        Curr(ts, st), Atom(Lexer.TokenAt(ts, st.pos + 1)), Lexer.TokenAt(ts, st.pos + 2), Atom(Lexer.TokenAt(ts, st.pos + 3));
      ParseExpression(ts, st, LOWEST) ==
        (Infix(op2, Prefix(op, op.literal, a), op2.literal, b), st.(pos := st.pos + 3))
  {
    var op, a, op2, b :=
      Curr(ts, st), Atom(Lexer.TokenAt(ts, st.pos + 1)), Lexer.TokenAt(ts, st.pos + 2), Atom(Lexer.TokenAt(ts, st.pos + 3));
    var s1, s3 := st.(pos := st.pos + 1), st.(pos := st.pos + 3);
    var negated := Prefix(op, op.literal, a);
    PrecedenceLadder(op2.kind);
    assert NextToken(st) == s1 && Curr(ts, s1) == Lexer.TokenAt(ts, st.pos + 1) && Peek(ts, s1) == op2;
    assert Lexer.TokenAt(ts, s1.pos + 2) == Lexer.TokenAt(ts, st.pos + 3) && s1.(pos := s1.pos + 2) == s3;
    assert Peek(ts, s3) == Lexer.TokenAt(ts, st.pos + 4);
    AtomAlone(ts, s1, PREFIX);
    calc {
      ParseExpression(ts, st, LOWEST);
      == { PrefixStart(ts, st, LOWEST); }
      InfixLoop(ts, s1, LOWEST, negated);
      == { AtomOperand(ts, s1, LOWEST, negated); }
      InfixLoop(ts, s3, LOWEST, Infix(op2, negated, op2.literal, b));
      == { InfixLoopStops(ts, s3, LOWEST, Infix(op2, negated, op2.literal, b)); }
      (Infix(op2, negated, op2.literal, b), s3);
    }
  }

  /** `( a op1 b ) op2 c`: the parenthesised expression is the left operand
      of op2 whatever the two precedences, and leaves no node of its own. */
  lemma GroupFirst(ts: seq<Token>, st: PState)
    requires Curr(ts, st).kind == LPAREN
    requires IsAtom(Lexer.TokenAt(ts, st.pos + 1))
    requires IsBinaryOperator(Lexer.TokenAt(ts, st.pos + 2).kind)
    requires IsAtom(Lexer.TokenAt(ts, st.pos + 3))
    requires Lexer.TokenAt(ts, st.pos + 4).kind == RPAREN
    requires IsBinaryOperator(Lexer.TokenAt(ts, st.pos + 5).kind)
    requires IsAtom(Lexer.TokenAt(ts, st.pos + 6))
    requires Precedence(Lexer.TokenAt(ts, st.pos + 7).kind) == LOWEST
    ensures var a, op1, b, op2, c :=
        Atom(Lexer.TokenAt(ts, st.pos + 1)), Lexer.TokenAt(ts, st.pos + 2), Atom(Lexer.TokenAt(ts, st.pos + 3)),
        Lexer.TokenAt(ts, st.pos + 5), Atom(Lexer.TokenAt(ts, st.pos + 6));
      ParseExpression(ts, st, LOWEST) ==
        (Infix(op2, Infix(op1, a, op1.literal, b), op2.literal, c), st.(pos := st.pos + 6))
  {
    var a, op1, b, op2, c :=
      Atom(Lexer.TokenAt(ts, st.pos + 1)), Lexer.TokenAt(ts, st.pos + 2), Atom(Lexer.TokenAt(ts, st.pos + 3)),
      Lexer.TokenAt(ts, st.pos + 5), Atom(Lexer.TokenAt(ts, st.pos + 6));
    var s1, s3, s4, s6 := st.(pos := st.pos + 1), st.(pos := st.pos + 3), st.(pos := st.pos + 4), st.(pos := st.pos + 6);
    var inner := Infix(op1, a, op1.literal, b);
    PrecedenceLadder(op1.kind);
    PrecedenceLadder(op2.kind);
    assert NextToken(st) == s1 && Curr(ts, s1) == Lexer.TokenAt(ts, st.pos + 1) && Peek(ts, s1) == op1;
    assert Lexer.TokenAt(ts, s1.pos + 2) == Lexer.TokenAt(ts, st.pos + 3) && Lexer.TokenAt(ts, s1.pos + 3) == Lexer.TokenAt(ts, st.pos + 4);
    assert s1.(pos := s1.pos + 2) == s3 && Peek(ts, s3).kind == RPAREN && NextToken(s3) == s4;
    assert Peek(ts, s4) == op2 && Lexer.TokenAt(ts, s4.pos + 2) == Lexer.TokenAt(ts, st.pos + 6);
    assert Lexer.TokenAt(ts, s4.pos + 3) == Lexer.TokenAt(ts, st.pos + 7) && s4.(pos := s4.pos + 2) == s6;
    assert Peek(ts, s6) == Lexer.TokenAt(ts, st.pos + 7);
    OneOperator(ts, s1, LOWEST);
    calc {
      ParseExpression(ts, st, LOWEST);
      == { GroupStart(ts, st, LOWEST); }
      InfixLoop(ts, s4, LOWEST, inner);
      == { AtomOperand(ts, s4, LOWEST, inner); }
      InfixLoop(ts, s6, LOWEST, Infix(op2, inner, op2.literal, c));
      == { InfixLoopStops(ts, s6, LOWEST, Infix(op2, inner, op2.literal, c)); }
      (Infix(op2, inner, op2.literal, c), s6);
    }
  }

  /** After position i: m times a comma and an atom, then `end`. */
  predicate CommaAtoms(ts: seq<Token>, i: nat, m: nat, end: Kind)
    decreases m
  {
    if m == 0 then Lexer.TokenAt(ts, i + 1).kind == end
    else
      Lexer.TokenAt(ts, i + 1).kind == COMMA && IsAtom(Lexer.TokenAt(ts, i + 2)) &&
      CommaAtoms(ts, i + 2, m - 1, end)
  }

  /** The atoms of `CommaAtoms(ts, i, m, end)`, in order. */
  function CommaAtomsList(ts: seq<Token>, i: nat, m: nat, end: Kind): (es: seq<Expression>)
    requires CommaAtoms(ts, i, m, end)
    ensures |es| == m
    decreases m
  {
    if m == 0 then [] else [Atom(Lexer.TokenAt(ts, i + 2))] + CommaAtomsList(ts, i + 2, m - 1, end)
  }

  /** Proof helper: regroups a three-part concatenation for the list loop
      proofs below. */
  lemma ConcatAssociative<T>(a: seq<T>, b: seq<T>, c: seq<T>)
    ensures a + b + c == a + (b + c)
  {
  }

  /** One round of the comma loop over an atom followed by a comma or a
      token that binds at LOWEST. */
  lemma ListLoopAtom(ts: seq<Token>, st: PState, end: Kind, elements: seq<Expression>)
    requires Peek(ts, st).kind == COMMA && IsAtom(Lexer.TokenAt(ts, st.pos + 2))
    requires Precedence(Lexer.TokenAt(ts, st.pos + 3).kind) == LOWEST
    ensures ListLoop(ts, st, end, elements) ==
      ListLoop(ts, st.(pos := st.pos + 2), end, elements + [Atom(Lexer.TokenAt(ts, st.pos + 2))])
  {
    var s2 := st.(pos := st.pos + 2);
    assert NextToken(NextToken(st)) == s2;
    assert Curr(ts, s2) == Lexer.TokenAt(ts, st.pos + 2);
    assert Peek(ts, s2) == Lexer.TokenAt(ts, st.pos + 3);
    AtomAlone(ts, s2, LOWEST);
  }

  /** Without a comma the loop stops: on `end`, which it consumes, with
      the list so far; on any other token with one error, the cursor left
      where it is, and a nil list. */
  lemma ListLoopEnd(ts: seq<Token>, st: PState, end: Kind, elements: seq<Expression>)
    requires end != COMMA && Peek(ts, st).kind != COMMA
    ensures Peek(ts, st).kind == end ==>
      ListLoop(ts, st, end, elements) == (List(elements), st.(pos := st.pos + 1))
    ensures Peek(ts, st).kind != end ==>
      ListLoop(ts, st, end, elements) == (NilList, st.(errors := st.errors + [PeekError(Peek(ts, st), end)]))
  {
  }

  /** The comma loop of an expression list over atoms collects every atom,
      in order, and stops on `end`, which it consumes. */
  lemma {:induction false} ListLoopAtoms(ts: seq<Token>, st: PState, end: Kind, elements: seq<Expression>, m: nat)
    requires end != COMMA && Precedence(end) == LOWEST
    requires CommaAtoms(ts, st.pos, m, end)
    ensures ListLoop(ts, st, end, elements) ==
      (List(elements + CommaAtomsList(ts, st.pos, m, end)), st.(pos := st.pos + 1 + 2 * m))
    decreases m
  {
    if m == 0 {
      ListLoopEnd(ts, st, end, elements);
      assert elements + CommaAtomsList(ts, st.pos, m, end) == elements;
    } else {
      var s2 := st.(pos := st.pos + 2);
      var atom := Atom(Lexer.TokenAt(ts, st.pos + 2));
      var rest := CommaAtomsList(ts, s2.pos, m - 1, end);
      assert Precedence(Lexer.TokenAt(ts, st.pos + 3).kind) == LOWEST by {
        assert Lexer.TokenAt(ts, s2.pos + 1).kind in {COMMA, end};
      }
      assert CommaAtomsList(ts, st.pos, m, end) == [atom] + rest;
      calc {
        ListLoop(ts, st, end, elements);
        { ListLoopAtom(ts, st, end, elements); }
        ListLoop(ts, s2, end, elements + [atom]);
        { ListLoopAtoms(ts, s2, end, elements + [atom], m - 1); }
        (List(elements + [atom] + rest), s2.(pos := s2.pos + 1 + 2 * (m - 1)));
        { ConcatAssociative(elements, [atom], rest);
          assert s2.(pos := s2.pos + 1 + 2 * (m - 1)) == st.(pos := st.pos + 1 + 2 * m); }
        (List(elements + CommaAtomsList(ts, st.pos, m, end)), st.(pos := st.pos + 1 + 2 * m));
      }
    }
  }

  /** `parseExpressionList` over atoms: an immediate `end` gives the empty
      list; otherwise the first atom and the m comma-separated atoms after
      it, in order, with the cursor on `end`. */
  lemma ExpressionListAtoms(ts: seq<Token>, st: PState, end: Kind, m: nat)
    requires st.pos < |ts| && (end == RPAREN || end == RBRACKET)
    requires Peek(ts, st).kind == end || (IsAtom(Peek(ts, st)) && CommaAtoms(ts, st.pos + 1, m, end))
    ensures Peek(ts, st).kind == end ==>
      ParseExpressionList(ts, st, end) == (List([]), st.(pos := st.pos + 1))
    ensures Peek(ts, st).kind != end ==>
      ParseExpressionList(ts, st, end) ==
        (List([Atom(Peek(ts, st))] + CommaAtomsList(ts, st.pos + 1, m, end)), st.(pos := st.pos + 2 + 2 * m))
  {
    if Peek(ts, st).kind != end {
      var s1 := NextToken(st);
      assert Curr(ts, s1) == Peek(ts, st);
      assert Peek(ts, s1).kind in {COMMA, end} by {
        assert Lexer.TokenAt(ts, s1.pos + 1).kind in {COMMA, end};
      }
      AtomAlone(ts, s1, LOWEST);
      ListLoopAtoms(ts, s1, end, [Atom(Peek(ts, st))], m);
    }
  }

  /** A `(` after the expression so far is a call, which binds at CALL:
      the expression so far becomes the callee, and the loop goes on after
      the argument list. */
  lemma InfixLoopCall(ts: seq<Token>, st: PState, precedence: int, left: Expression, arguments: ExpressionList, st': PState)
    requires Peek(ts, st).kind == LPAREN && precedence < CALL
    requires (arguments, st') == ParseExpressionList(ts, NextToken(st), RPAREN)
    ensures InfixLoop(ts, st, precedence, left) == InfixLoop(ts, st', precedence, Call(Peek(ts, st), left, arguments))
  {
    var s1, call := NextToken(st), Call(Peek(ts, st), left, arguments);
    assert Curr(ts, s1) == Peek(ts, st);
    assert ParseCallExpression(ts, s1, left) == (call, st');
    assert InfixParseFn(ts, s1, left) == (call, st');
  }

  /** `f(a0, a1, …, am)` where f and every ai are atoms, f at `st.pos`. */
  predicate CallOfAtomsTokens(ts: seq<Token>, st: PState, m: nat)
  {
    && IsAtom(Curr(ts, st)) && Peek(ts, st).kind == LPAREN
    && IsAtom(Lexer.TokenAt(ts, st.pos + 2)) && CommaAtoms(ts, st.pos + 2, m, RPAREN)
  }

  /** The argument list of `f(a0, a1, …, am)` with atoms: the atoms, in
      order, the cursor on the `)`. */
  lemma CallArgumentList(ts: seq<Token>, st: PState, m: nat)
    requires CallOfAtomsTokens(ts, st, m)
    ensures NextToken(st).pos < |ts|
    ensures ParseExpressionList(ts, NextToken(st), RPAREN) ==
      (List([Atom(Lexer.TokenAt(ts, st.pos + 2))] + CommaAtomsList(ts, st.pos + 2, m, RPAREN)), st.(pos := st.pos + 3 + 2 * m))
  {
    var s1 := NextToken(st);
    assert s1.pos + 1 == st.pos + 2 && Peek(ts, s1) == Lexer.TokenAt(ts, st.pos + 2);
    ExpressionListAtoms(ts, s1, RPAREN, m);
  }

  /** `f(a0, a1, …, am)` with atoms, followed by a token that binds at
      LOWEST: one call node with callee f and the atoms as its arguments,
      in order, the cursor on the `)`. */
  lemma CallOfAtoms(ts: seq<Token>, st: PState, m: nat)
    requires CallOfAtomsTokens(ts, st, m)
    requires Precedence(Lexer.TokenAt(ts, st.pos + 4 + 2 * m).kind) == LOWEST
    ensures ParseExpression(ts, st, LOWEST) ==
      (Call(Peek(ts, st), Atom(Curr(ts, st)), List([Atom(Lexer.TokenAt(ts, st.pos + 2))] + CommaAtomsList(ts, st.pos + 2, m, RPAREN))),
       st.(pos := st.pos + 3 + 2 * m))
  {
    CallArgumentList(ts, st, m);
    var r := ParseExpressionList(ts, NextToken(st), RPAREN);
    assert Peek(ts, r.1) == Lexer.TokenAt(ts, st.pos + 4 + 2 * m);
    CallOfAtom(ts, st, r.0, r.1);
  }

  /** An atom followed by an argument list that ends before a token
      binding at LOWEST: a call node with the atom as its callee. */
  lemma CallOfAtom(ts: seq<Token>, st: PState, arguments: ExpressionList, st': PState)
    requires IsAtom(Curr(ts, st)) && Peek(ts, st).kind == LPAREN
    requires (arguments, st') == ParseExpressionList(ts, NextToken(st), RPAREN)
    requires Precedence(Peek(ts, st').kind) == LOWEST
    ensures ParseExpression(ts, st, LOWEST) == (Call(Peek(ts, st), Atom(Curr(ts, st)), arguments), st')
  {
    AtomStart(ts, st, LOWEST);
    InfixLoopCall(ts, st, LOWEST, Atom(Curr(ts, st)), arguments, st');
    InfixLoopStops(ts, st', LOWEST, Call(Peek(ts, st), Atom(Curr(ts, st)), arguments));
  }

  /** The spellings of the atoms of `CommaAtoms(ts, i, m, end)`, in order. */
  function CommaLiterals(ts: seq<Token>, i: nat, m: nat): (ls: seq<ByteString>)
    ensures |ls| == m
    decreases m
  {
    if m == 0 then [] else [Lexer.TokenAt(ts, i + 2).literal] + CommaLiterals(ts, i + 2, m - 1)
  }

  /** None of the m atoms after commas from position i is a string. */
  predicate CommaNoStrings(ts: seq<Token>, i: nat, m: nat)
    decreases m
  {
    m == 0 || (Lexer.TokenAt(ts, i + 2).kind != STRING && CommaNoStrings(ts, i + 2, m - 1))
  }

  /** Atoms that are not strings render as their spellings. */
  lemma {:induction false} CommaAtomsStrings(ts: seq<Token>, i: nat, m: nat, end: Kind)
    requires CommaAtoms(ts, i, m, end) && CommaNoStrings(ts, i, m)
    ensures AllRenderable(CommaAtomsList(ts, i, m, end))
    ensures ExpressionStrings(CommaAtomsList(ts, i, m, end)) == CommaLiterals(ts, i, m)
    decreases m
  {
    if m > 0 {
      var t, rest := Lexer.TokenAt(ts, i + 2), CommaAtomsList(ts, i + 2, m - 1, end);
      var es := CommaAtomsList(ts, i, m, end);
      CommaAtomsStrings(ts, i + 2, m - 1, end);
      assert es == [Atom(t)] + rest;
      assert Atom(t).Renderable() && Atom(t).String() == t.literal;
      forall k | 0 <= k < |es|
        ensures es[k].Renderable()
      {
        if k > 0 { assert es[k] == rest[k - 1]; }
      }
      assert es[1..] == rest;
      assert ExpressionStrings(es) == [t.literal] + ExpressionStrings(rest);
    }
  }

  /** Rendered, `f(a0, a1, …, am)` with atoms that are not strings is f,
      `(`, the arguments' spellings joined by `, `, and `)`. */
  lemma CallOfAtomsString(ts: seq<Token>, st: PState, m: nat)
    requires CallOfAtomsTokens(ts, st, m)
    requires Precedence(Lexer.TokenAt(ts, st.pos + 4 + 2 * m).kind) == LOWEST
    requires Curr(ts, st).kind != STRING && Lexer.TokenAt(ts, st.pos + 2).kind != STRING
    requires CommaNoStrings(ts, st.pos + 2, m)
    ensures ParseExpression(ts, st, LOWEST).0.Renderable()
    ensures ParseExpression(ts, st, LOWEST).0.String() ==
      Curr(ts, st).literal + "(" +
      JoinStrings([Lexer.TokenAt(ts, st.pos + 2).literal] + CommaLiterals(ts, st.pos + 2, m), ", ") + ")"
  {
    CallOfAtoms(ts, st, m);
    var t := Lexer.TokenAt(ts, st.pos + 2);
    var rest := CommaAtomsList(ts, st.pos + 2, m, RPAREN);
    var args := [Atom(t)] + rest;
    CommaAtomsStrings(ts, st.pos + 2, m, RPAREN);
    assert args[0] == Atom(t) && args[1..] == rest;
    assert ExpressionStrings(args) == [t.literal] + CommaLiterals(ts, st.pos + 2, m);
  }

  /** After position i: m times a comma and a token of any kind, then `)`. */
  predicate CommaTokens(ts: seq<Token>, i: nat, m: nat)
    decreases m
  {
    if m == 0 then Lexer.TokenAt(ts, i + 1).kind == RPAREN
    else Lexer.TokenAt(ts, i + 1).kind == COMMA && CommaTokens(ts, i + 2, m - 1)
  }

  /** The identifiers the parameter loop builds from `CommaTokens(ts, i, m)`. */
  function CommaTokensList(ts: seq<Token>, i: nat, m: nat): (ids: seq<Identifier>)
    ensures |ids| == m
    decreases m
  {
    if m == 0 then []
    else
      var t := Lexer.TokenAt(ts, i + 2);
      [Identifier(t, t.literal)] + CommaTokensList(ts, i + 2, m - 1)
  }

  /** The parameter loop turns the token after every comma into an
      identifier, whatever its kind, and stops on `)`; any other token
      after a parameter is one error and a nil list. */
  lemma {:induction false} ParameterLoopTokens(ts: seq<Token>, st: PState, identifiers: seq<Identifier>, m: nat)
    requires CommaTokens(ts, st.pos, m)
    ensures ParameterLoop(ts, st, identifiers) ==
      (Some(identifiers + CommaTokensList(ts, st.pos, m)), st.(pos := st.pos + 1 + 2 * m))
    decreases m
  {
    if m == 0 {
      assert identifiers + CommaTokensList(ts, st.pos, m) == identifiers;
    } else {
      var s2 := st.(pos := st.pos + 2);
      var t := Lexer.TokenAt(ts, st.pos + 2);
      var rest := CommaTokensList(ts, s2.pos, m - 1);
      calc {
        ParameterLoop(ts, st, identifiers);
        { assert NextToken(NextToken(st)) == s2 && Curr(ts, s2) == t; }
        ParameterLoop(ts, s2, identifiers + [Identifier(t, t.literal)]);
        { ParameterLoopTokens(ts, s2, identifiers + [Identifier(t, t.literal)], m - 1); }
        (Some(identifiers + [Identifier(t, t.literal)] + rest), s2.(pos := s2.pos + 1 + 2 * (m - 1)));
        { assert identifiers + [Identifier(t, t.literal)] + rest == identifiers + CommaTokensList(ts, st.pos, m); }
        (Some(identifiers + CommaTokensList(ts, st.pos, m)), st.(pos := st.pos + 1 + 2 * m));
      }
    }
  }

  /** A parameter followed by neither `,` nor `)` is one error and a nil
      list, the cursor left where it is. */
  lemma ParameterLoopMissingParen(ts: seq<Token>, st: PState, identifiers: seq<Identifier>)
    requires Peek(ts, st).kind != COMMA && Peek(ts, st).kind != RPAREN
    ensures ParameterLoop(ts, st, identifiers) == (None, st.(errors := st.errors + [PeekError(Peek(ts, st), RPAREN)]))
  {
  }

  /** `parseFunctionParameter`: `()` gives the empty list; otherwise the
      token after `(` and the token after each comma become the
      parameters, in order, with the cursor on `)`. */
  lemma FunctionParameters(ts: seq<Token>, st: PState, m: nat)
    requires Peek(ts, st).kind == RPAREN || CommaTokens(ts, st.pos + 1, m)
    ensures Peek(ts, st).kind == RPAREN ==>
      ParseFunctionParameter(ts, st) == (Some([]), st.(pos := st.pos + 1))
    ensures var t := Peek(ts, st);
      t.kind != RPAREN ==>
        ParseFunctionParameter(ts, st) ==
          (Some([Identifier(t, t.literal)] + CommaTokensList(ts, st.pos + 1, m)), st.(pos := st.pos + 2 + 2 * m))
  {
    if Peek(ts, st).kind != RPAREN {
      var s1 := NextToken(st);
      assert Curr(ts, s1) == Peek(ts, st);
      ParameterLoopTokens(ts, s1, [Identifier(Peek(ts, st), Peek(ts, st).literal)], m);
    }
  }

  /** `parseLetStatement` fails, giving the typed nil, exactly when the
      `let` is not followed by an identifier and `=`; the failure records
      one error, about the first token that is wrong, and leaves the cursor
      on the last token that matched. */
  lemma LetFailure(ts: seq<Token>, st: PState)
    ensures var (s, st') := ParseLetStatement(ts, st);
      s.FailedLet? <==> (Peek(ts, st).kind != IDENTIFIER || Lexer.TokenAt(ts, st.pos + 2).kind != ASSIGN)
    ensures var (s, st') := ParseLetStatement(ts, st);
      Peek(ts, st).kind != IDENTIFIER ==>
        st' == st.(errors := st.errors + [PeekError(Peek(ts, st), IDENTIFIER)])
    ensures var (s, st') := ParseLetStatement(ts, st);
      var t := Lexer.TokenAt(ts, st.pos + 2);
      Peek(ts, st).kind == IDENTIFIER && t.kind != ASSIGN ==>
        st' == PState(st.pos + 1, st.errors + [PeekError(t, ASSIGN)], st.hung)
  {
    if Peek(ts, st).kind == IDENTIFIER {
      assert Peek(ts, NextToken(st)) == Lexer.TokenAt(ts, st.pos + 2);
    }
  }

  /** `let x = a;` with an atom a: a `Let` node named by the identifier
      token, with the atom as its value, the cursor on the `;`. */
  lemma LetAtom(ts: seq<Token>, st: PState)
    requires Curr(ts, st).kind == LET && Peek(ts, st).kind == IDENTIFIER
    requires Lexer.TokenAt(ts, st.pos + 2).kind == ASSIGN && IsAtom(Lexer.TokenAt(ts, st.pos + 3))
    requires Lexer.TokenAt(ts, st.pos + 4).kind == SEMICOLON
    ensures var name := Peek(ts, st);
      ParseStatement(ts, st) ==
        (Let(Curr(ts, st), Identifier(name, name.literal), Atom(Lexer.TokenAt(ts, st.pos + 3))), st.(pos := st.pos + 4))
  {
    var s3 := st.(pos := st.pos + 3);
    assert NextToken(NextToken(NextToken(st))) == s3;
    assert Curr(ts, s3) == Lexer.TokenAt(ts, st.pos + 3);
    assert Peek(ts, s3).kind == SEMICOLON;
    AtomAlone(ts, s3, LOWEST);
    assert SkipToSemicolon(ts, s3) == st.(pos := st.pos + 4) by {
      assert Curr(ts, NextToken(s3)).kind == SEMICOLON;
    }
  }

  /** `return a;` with an atom a: a `Return` node with the atom as its
      value, the cursor on the `;`. */
  lemma ReturnAtom(ts: seq<Token>, st: PState)
    requires Curr(ts, st).kind == RETURN && IsAtom(Peek(ts, st))
    requires Lexer.TokenAt(ts, st.pos + 2).kind == SEMICOLON
    ensures ParseStatement(ts, st) == (Return(Curr(ts, st), Atom(Peek(ts, st))), st.(pos := st.pos + 2))
  {
    var s1 := NextToken(st);
    assert Curr(ts, s1) == Peek(ts, st);
    assert Peek(ts, s1).kind == SEMICOLON;
    AtomAlone(ts, s1, LOWEST);
    assert SkipToSemicolon(ts, s1) == st.(pos := st.pos + 2) by {
      assert Curr(ts, NextToken(s1)).kind == SEMICOLON;
    }
  }

  /** Rendered, `let x = a;` with an atom a that is not a string gives back
      its tokens' spellings: the `let` token, the name, ` = `, a and `;`. */
  lemma LetAtomString(ts: seq<Token>, st: PState)
    requires Curr(ts, st).kind == LET && Peek(ts, st).kind == IDENTIFIER
    requires Lexer.TokenAt(ts, st.pos + 2).kind == ASSIGN && IsAtom(Lexer.TokenAt(ts, st.pos + 3))
    requires Lexer.TokenAt(ts, st.pos + 4).kind == SEMICOLON
    requires Lexer.TokenAt(ts, st.pos + 3).kind != STRING
    ensures ParseStatement(ts, st).0.Renderable()
    ensures ParseStatement(ts, st).0.String() ==
      Curr(ts, st).literal + " " + Peek(ts, st).literal + " = " + Lexer.TokenAt(ts, st.pos + 3).literal + ";"
  {
    LetAtom(ts, st);
  }

  /** Rendered, `return a;` with an atom a that is not a string gives back
      the `return` token, a space, a and `;`. */
  lemma ReturnAtomString(ts: seq<Token>, st: PState)
    requires Curr(ts, st).kind == RETURN && IsAtom(Peek(ts, st)) && Peek(ts, st).kind != STRING
    requires Lexer.TokenAt(ts, st.pos + 2).kind == SEMICOLON
    ensures ParseStatement(ts, st).0.Renderable()
    ensures ParseStatement(ts, st).0.String() == Curr(ts, st).literal + " " + Peek(ts, st).literal + ";"
  {
    ReturnAtom(ts, st);
  }

  /** Every round of the program loop consumes at least one token, so a
      program has no more statements than tokens were consumed. */
  lemma {:induction false} ProgramLoopProgress(ts: seq<Token>, st: PState, statements: seq<Statement>)
    ensures var (p, st') := ProgramLoop(ts, st, statements);
      |p.statements| - |statements| <= st'.pos - st.pos
    decreases Remaining(ts, st.pos)
  {
    if Curr(ts, st).kind != EOF {
      var (s, st1) := ParseStatement(ts, st);
      ProgramLoopProgress(ts, NextToken(st1), statements + [s]);
    }
  }

  lemma ProgramStatementsBound(ts: seq<Token>)
    ensures var (p, st') := ParseProgram(ts);
      |p.statements| <= st'.pos
  {
    ProgramLoopProgress(ts, PState(0, [], false), []);
  }

  /** The program's token literal: `""` for the empty program, which is
      exactly the input starting with EOF; otherwise the first token's
      literal, unless the first statement is a failed `let`. */
  lemma ProgramTokenLiteral(ts: seq<Token>)
    ensures var p := ParseProgram(ts).0;
      (|p.statements| == 0 <==> Lexer.TokenAt(ts, 0).kind == EOF)
    ensures var p := ParseProgram(ts).0;
      |p.statements| > 0 && !p.statements[0].FailedLet? ==> p.TokenLiteral() == Lexer.TokenAt(ts, 0).literal
  {
    var st := PState(0, [], false);
    if Curr(ts, st).kind != EOF {
      var (s, st1) := ParseStatement(ts, st);
      assert [] + [s] == [s];
      assert ParseProgram(ts) == ProgramLoop(ts, NextToken(st1), [s]);
      assert [s] <= ParseProgram(ts).0.statements;
    }
  }

  /** A block holding one expression statement made of an atom: `{ a }`. */
  lemma BlockOfAtom(ts: seq<Token>, st: PState)
    requires Curr(ts, st).kind == LBRACE && IsAtom(Peek(ts, st))
    requires Lexer.TokenAt(ts, st.pos + 2).kind == RBRACE
    ensures ParseBlockStatement(ts, st) ==
      (BlockStatement(Curr(ts, st), [ExpressionStatement(Peek(ts, st), Atom(Peek(ts, st)))]), st.(pos := st.pos + 2))
  {
    var s1 := NextToken(st);
    var s2 := NextToken(s1);
    var a := Peek(ts, st);
    var statement := ExpressionStatement(a, Atom(a));
    assert Curr(ts, s1) == a && Peek(ts, s1).kind == RBRACE && Curr(ts, s2).kind == RBRACE;
    AtomAlone(ts, s1, LOWEST);
    assert ParseExpressionStatement(ts, s1) == (statement, s1);
    assert ParseStatement(ts, s1) == (statement, s1);
    assert [] + [statement] == [statement];
    calc {
      ParseBlockStatement(ts, st);
      BlockLoop(ts, s1, Curr(ts, st), []);
      BlockLoop(ts, s2, Curr(ts, st), [statement]);
      (BlockStatement(Curr(ts, st), [statement]), s2);
    }
  }

  /** The branches of `parseIfExpression`: the node is an `If` with the
      given token and condition, or nil after one error; a missing `{`
      before the consequence is that error; and after the consequence the
      node has an alternative exactly when `else {` follows, and none
      exactly when no `else` follows. */
  lemma IfBranchesShape(ts: seq<Token>, st: PState, token: Token, condition: Expression)
    ensures var (e, st') := IfBranches(ts, st, token, condition);
      && (e.If? || e.Nil?)
      && (e.If? ==> e.token == token && e.condition == condition && Curr(ts, st').kind in {RBRACE, EOF})
      && (e.Nil? ==> |st'.errors| > |st.errors|)
    ensures Peek(ts, st).kind != LBRACE ==>
      IfBranches(ts, st, token, condition) == (Nil, st.(errors := st.errors + [PeekError(Peek(ts, st), LBRACE)]))
    ensures var (e, st') := IfBranches(ts, st, token, condition);
      Peek(ts, st).kind == LBRACE ==>
        var (consequence, st2) := ParseBlockStatement(ts, NextToken(st));
        && (e.If? ==> e.consequence == consequence)
        && (e.If? && e.alternative.None? <==> Peek(ts, st2).kind != ELSE)
        && (e.If? && e.alternative.Some? <==>
             Peek(ts, st2).kind == ELSE && Lexer.TokenAt(ts, st2.pos + 2).kind == LBRACE)
  {
    if Peek(ts, st).kind == LBRACE {
      var (consequence, st2) := ParseBlockStatement(ts, NextToken(st));
      if Peek(ts, st2).kind == ELSE {
        assert Peek(ts, NextToken(st2)) == Lexer.TokenAt(ts, st2.pos + 2);
      }
    }
  }

  /** One round of the program loop, for a statement already parsed. */
  lemma ProgramLoopStep(ts: seq<Token>, st: PState, statements: seq<Statement>, s: Statement, st': PState)
    requires Curr(ts, st).kind != EOF && ParseStatement(ts, st) == (s, st')
    ensures ProgramLoop(ts, st, statements) == ProgramLoop(ts, st'.(pos := st'.pos + 1), statements + [s])
  {
    assert NextToken(st') == st'.(pos := st'.pos + 1);
  }

  /** An expression statement, for an expression already parsed: a `;`
      right after it is consumed. */
  lemma ExpressionStatementStep(ts: seq<Token>, st: PState, e: Expression, st': PState)
    requires Curr(ts, st).kind != LET && Curr(ts, st).kind != RETURN
    requires ParseExpression(ts, st, LOWEST) == (e, st')
    ensures ParseStatement(ts, st) ==
      (ExpressionStatement(Curr(ts, st), e), if Peek(ts, st').kind == SEMICOLON then st'.(pos := st'.pos + 1) else st')
  {
  }

  /** From position i: m statements `return a;` with atoms a, then EOF. */
  predicate ReturnAtoms(ts: seq<Token>, i: nat, m: nat)
    decreases m
  {
    if m == 0 then Lexer.TokenAt(ts, i).kind == EOF
    else
      && Lexer.TokenAt(ts, i).kind == RETURN && IsAtom(Lexer.TokenAt(ts, i + 1))
      && Lexer.TokenAt(ts, i + 2).kind == SEMICOLON && ReturnAtoms(ts, i + 3, m - 1)
  }

  /** The `Return` nodes of `ReturnAtoms(ts, i, m)`, in order. */
  function ReturnAtomsList(ts: seq<Token>, i: nat, m: nat): (ss: seq<Statement>)
    requires ReturnAtoms(ts, i, m)
    ensures |ss| == m
    decreases m
  {
    if m == 0 then []
    else [Return(Lexer.TokenAt(ts, i), Atom(Lexer.TokenAt(ts, i + 1)))] + ReturnAtomsList(ts, i + 3, m - 1)
  }

  /** One `return a;` statement with an atom a is one round of the
      program loop, three tokens long. */
  lemma ProgramReturnStep(ts: seq<Token>, st: PState, statements: seq<Statement>)
    requires Curr(ts, st).kind == RETURN && IsAtom(Peek(ts, st))
    requires Lexer.TokenAt(ts, st.pos + 2).kind == SEMICOLON
    ensures ProgramLoop(ts, st, statements) ==
      ProgramLoop(ts, st.(pos := st.pos + 3), statements + [Return(Curr(ts, st), Atom(Peek(ts, st)))])
  {
    var s2 := st.(pos := st.pos + 2);
    ReturnAtom(ts, st);
    ProgramLoopStep(ts, st, statements, Return(Curr(ts, st), Atom(Peek(ts, st))), s2);
    assert s2.(pos := s2.pos + 1) == st.(pos := st.pos + 3);
  }

  /** At EOF the program loop stops with the statements so far. */
  lemma ProgramLoopEof(ts: seq<Token>, st: PState, statements: seq<Statement>)
    requires Lexer.TokenAt(ts, st.pos).kind == EOF
    ensures ProgramLoop(ts, st, statements) == (Program(statements), st)
  {
    assert Curr(ts, st).kind == EOF;
  }

  /** A program of m `return a;` statements is m `Return` nodes, one per
      statement in order, each statement taking three tokens. */
  lemma {:induction false} ProgramOfReturns(ts: seq<Token>, st: PState, statements: seq<Statement>, m: nat)
    requires ReturnAtoms(ts, st.pos, m)
    ensures ProgramLoop(ts, st, statements) ==
      (Program(statements + ReturnAtomsList(ts, st.pos, m)), st.(pos := st.pos + 3 * m))
    decreases m
  {
    if m == 0 {
      assert statements + ReturnAtomsList(ts, st.pos, m) == statements;
      ProgramLoopEof(ts, st, statements);
    } else {
      var s := Return(Lexer.TokenAt(ts, st.pos), Atom(Lexer.TokenAt(ts, st.pos + 1)));
      var s3 := st.(pos := st.pos + 3);
      var rest := ReturnAtomsList(ts, s3.pos, m - 1);
      assert ReturnAtomsList(ts, st.pos, m) == [s] + rest;
      ProgramReturnStep(ts, st, statements);
      ProgramOfReturns(ts, s3, statements + [s], m - 1);
      ConcatAssociative(statements, [s], rest);
      assert s3.pos + 3 * (m - 1) == st.pos + 3 * m;
    }
  }

  /** `{}` is the empty hash literal, with no error; the cursor ends on
      the `}`. */
  lemma EmptyHashLiteral(ts: seq<Token>, st: PState)
    requires Curr(ts, st).kind == LBRACE && Peek(ts, st).kind == RBRACE
    ensures ParseHashLiteral(ts, st) == (HashLiteral(Curr(ts, st), []), st.(pos := st.pos + 1))
  {
  }

  /** Among tokens with no COLON, such as the lexer's, a hash literal other
      than `{}` fails at its first key: the key is parsed, the missing `:`
      after it is the one error added, and no node is built. */
  lemma HashFailsWithoutColon(ts: seq<Token>, st: PState)
    requires Curr(ts, st).kind == LBRACE && Peek(ts, st).kind != RBRACE
    requires forall i :: 0 <= i < |ts| ==> ts[i].kind != COLON
    ensures var (key, st1) := ParseExpression(ts, NextToken(st), LOWEST);
      ParseHashLiteral(ts, st) == (Nil, st1.(errors := st1.errors + [PeekError(Peek(ts, st1), COLON)]))
  {
    var (key, st1) := ParseExpression(ts, NextToken(st), LOWEST);
    var (ok, st2) := ExpectPeek(ts, st1, COLON);
    assert !ok by {
      assert st1.pos + 1 < |ts| ==> ts[st1.pos + 1].kind != COLON;
    }
    assert HashPair(ts, st) == (None, st2);
  }
}
