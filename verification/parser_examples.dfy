/** Consequences of the parser's contracts that a reader of the grammar would check first:
    how operators group, and which malformed inputs stop the parse with which error. */
module ParserExamples {
  import opened Wrappers
  import opened Tokens
  import opened Ast
  import opened Grammar
  import opened Parser
  import opened Prefix
  import opened ParserShape
  import opened ParserRoundTrip

  /** `a op1 b op2 c` as tokens. */
  function Chain(a: Term, op1: TokenKind, b: Term, op2: TokenKind, c: Term): seq<Token> {
    TermTokens(a) + [Punct(op1)] + TermTokens(b) + [Punct(op2)] + TermTokens(c)
  }

  /** `ParseExpr` from the start of `toks` reads back a shaped `e` spelling all of `toks`. */
  lemma {:induction false} ParsesWhole(toks: seq<Token>, e: Expr)
    requires Shaped(e, 0) && ExprTokens(e) == toks
    ensures ParseExpr(toks, 0, 0) == Match(e, |toks|)
  {
    AtSelf(toks, 0);
    assert toks[0..] == toks;
    ExprRoundTrip(toks, 0, e, 0);
  }

  /** Operators of equal precedence group to the left: `a - b - c` is `(a - b) - c`. */
  lemma {:induction false} EqualPrecedenceGroupsLeft(a: Term, op1: TokenKind, b: Term, op2: TokenKind, c: Term)
    requires TermShaped(a) && TermShaped(b) && TermShaped(c)
    requires IsBinOp(op1) && IsBinOp(op2) && BinPrec(op1) == BinPrec(op2)
    ensures var toks := Chain(a, op1, b, op2, c);
            ParseExpr(toks, 0, 0) ==
              Match(BinaryExpr(MakeBin(op2, BinaryExpr(MakeBin(op1, TermExpr(a), TermExpr(b))), TermExpr(c))), |toks|)
  {
    var l := MakeBin(op1, TermExpr(a), TermExpr(b));
    var e := BinaryExpr(MakeBin(op2, BinaryExpr(l), TermExpr(c)));
    assert ExprTokens(BinaryExpr(l)) == TermTokens(a) + [Punct(op1)] + TermTokens(b);
    ParsesWhole(Chain(a, op1, b, op2, c), e);
  }

  /** A tighter operator on the right binds first: `a + b * c` is `a + (b * c)`. */
  lemma {:induction false} TighterRightBindsFirst(a: Term, op1: TokenKind, b: Term, op2: TokenKind, c: Term)
    requires TermShaped(a) && TermShaped(b) && TermShaped(c)
    requires BinPrec(op1) == Some(0) && BinPrec(op2) == Some(1)
    ensures var toks := Chain(a, op1, b, op2, c);
            ParseExpr(toks, 0, 0) ==
              Match(BinaryExpr(MakeBin(op1, TermExpr(a), BinaryExpr(MakeBin(op2, TermExpr(b), TermExpr(c))))), |toks|)
  {
    var r := MakeBin(op2, TermExpr(b), TermExpr(c));
    var e := BinaryExpr(MakeBin(op1, TermExpr(a), BinaryExpr(r)));
    assert ExprTokens(BinaryExpr(r)) == TermTokens(b) + [Punct(op2)] + TermTokens(c);
    ParsesWhole(Chain(a, op1, b, op2, c), e);
  }

  /** A tighter operator on the left also binds first: `a * b + c` is `(a * b) + c`. */
  lemma {:induction false} TighterLeftBindsFirst(a: Term, op1: TokenKind, b: Term, op2: TokenKind, c: Term)
    requires TermShaped(a) && TermShaped(b) && TermShaped(c)
    requires BinPrec(op1) == Some(1) && BinPrec(op2) == Some(0)
    ensures var toks := Chain(a, op1, b, op2, c);
            ParseExpr(toks, 0, 0) ==
              Match(BinaryExpr(MakeBin(op2, BinaryExpr(MakeBin(op1, TermExpr(a), TermExpr(b))), TermExpr(c))), |toks|)
  {
    var l := MakeBin(op1, TermExpr(a), TermExpr(b));
    var e := BinaryExpr(MakeBin(op2, BinaryExpr(l), TermExpr(c)));
    assert ExprTokens(BinaryExpr(l)) == TermTokens(a) + [Punct(op1)] + TermTokens(b);
    ParsesWhole(Chain(a, op1, b, op2, c), e);
  }

  /** In a tree `parse_expr` returns, the root's right operand holds only tighter
      operators at its top: the root is never right-nested at equal precedence. */
  lemma {:induction false} RightOperandIsTighter(toks: seq<Token>, pos: nat, minPrec: nat)
    requires pos <= |toks|
    ensures var r := ParseExpr(toks, pos, minPrec);
            r.Match? && r.value.BinaryExpr? && r.value.bin.rhs.BinaryExpr? ==>
              Prec(r.value.bin) < Prec(r.value.bin.rhs.bin)
  {
    ParseExprShape(toks, pos, minPrec);
  }

  // ---------------------------------------------------------------------------
  // Errors

  /** An opening parenthesis and an expression, followed by the end of the input or by any
      token that is neither `)` nor an operator the expression could continue with, is
      missing its `)`. */
  lemma {:induction false} UnclosedParen(e: Expr, after: seq<Token>)
    requires Shaped(e, 0)
    requires |after| == 0 || (after[0].kind != CloseParen && BinPrec(after[0].kind).None?)
    ensures ParseTerm([Punct(OpenParen)] + ExprTokens(e) + after, 0) == Fail(MissingToken(CloseParen))
  {
    var toks := [Punct(OpenParen)] + ExprTokens(e) + after;
    var n := 1 + |ExprTokens(e)|;
    assert toks[1..n] == ExprTokens(e) && toks[n..] == after;
    AtSlice(toks, 1, ExprTokens(e));
    ExprRoundTrip(toks, 1, e, 0);
  }

  /** An operator the climbing loop may consume, with no term start after it, is fatal
      whatever the left operand. */
  lemma {:induction false} OperatorWithoutOperand(toks: seq<Token>, lhs: Expr, pos: nat, minPrec: nat)
    requires pos < |toks| && BinPrec(toks[pos].kind).Some? && minPrec <= BinPrec(toks[pos].kind).value
    requires !StartsTerm(toks, pos + 1)
    ensures ExprLoop(toks, lhs, pos, minPrec) == Fail(ExpectedExpression)
  {
  }

  /** A shaped expression followed by an operator the parse at `minPrec` may consume, with
      no term start after that operator, is fatal. The operator need not end the loop that
      began at `pos`: when it binds tighter than the last operator of `e`, the nested loop
      that read the rightmost operand consumes it and fails there. */
  lemma {:induction false} DanglingAfter(toks: seq<Token>, pos: nat, e: Expr, minPrec: nat)
    requires Shaped(e, minPrec) && At(toks, pos, ExprTokens(e))
    requires pos + |ExprTokens(e)| < |toks|
    requires BinPrec(toks[pos + |ExprTokens(e)|].kind).Some?
    requires minPrec <= BinPrec(toks[pos + |ExprTokens(e)|].kind).value
    requires !StartsTerm(toks, pos + |ExprTokens(e)| + 1)
    ensures ParseExpr(toks, pos, minPrec) == Fail(ExpectedExpression)
    decreases e
  {
    var end := pos + |ExprTokens(e)|;
    if e.TermExpr? || BinPrec(toks[end].kind).value <= Prec(e.bin) {
      ClimbReaches(toks, pos, e, minPrec);
      OperatorWithoutOperand(toks, e, end, minPrec);
    } else {
      var b := e.bin;
      var endL := OperatorOf(toks, pos, b);
      ClimbReaches(toks, pos, b.lhs, minPrec);
      DanglingAfter(toks, endL + 1, b.rhs, Prec(b) + 1);
      RightOperandFails(toks, b.lhs, endL, OpKind(b), minPrec);
    }
  }

  /** The spelling of a binary node splits at its operator. */
  lemma {:induction false} OperatorOf(toks: seq<Token>, pos: nat, b: BinExpr) returns (endL: nat)
    requires At(toks, pos, ExprTokens(BinaryExpr(b)))
    ensures endL == pos + |ExprTokens(b.lhs)| && endL < |toks| && toks[endL] == Punct(OpKind(b))
    ensures At(toks, pos, ExprTokens(b.lhs)) && At(toks, endL + 1, ExprTokens(b.rhs))
    ensures endL + 1 + |ExprTokens(b.rhs)| == pos + |ExprTokens(BinaryExpr(b))|
  {
    var l, r := ExprTokens(b.lhs), ExprTokens(b.rhs);
    var op := Punct(OpKind(b));
    endL := pos + |l|;
    AtSplit(toks, pos, l + [op], r);
    AtSplit(toks, pos, l, [op]);
    AtOne(toks, endL, op);
  }

  /** A loop that consumes an operator whose right operand fails fails the same way. */
  lemma {:induction false} RightOperandFails(toks: seq<Token>, lhs: Expr, pos: nat, op: TokenKind, minPrec: nat)
    requires pos < |toks| && toks[pos] == Punct(op) && IsBinOp(op) && minPrec <= BinPrec(op).value
    requires ParseExpr(toks, pos + 1, BinPrec(op).value + 1) == Fail(ExpectedExpression)
    ensures ExprLoop(toks, lhs, pos, minPrec) == Fail(ExpectedExpression)
  {
    assert Peek(toks, pos, 0) == Some(toks[pos]);
  }

  /** A shaped expression, then an operator with nothing after it that could start a term,
      is fatal. */
  lemma {:induction false} DanglingOperator(e: Expr, op: TokenKind, rest: seq<Token>)
    requires Shaped(e, 0) && IsBinOp(op)
    requires |rest| == 0 || rest[0].kind !in {IntLit, Ident, OpenParen}
    ensures ParseExpr(ExprTokens(e) + [Punct(op)] + rest, 0, 0) == Fail(ExpectedExpression)
  {
    var toks := ExprTokens(e) + [Punct(op)] + rest;
    var n := |ExprTokens(e)|;
    assert toks[0..n] == ExprTokens(e) && toks[n] == Punct(op) && toks[n + 1..] == rest;
    AtSlice(toks, 0, ExprTokens(e));
    assert !StartsTerm(toks, n + 1);
    DanglingAfter(toks, 0, e, 0);
  }

  /** `exit ( literal` with nothing after it is missing its `)`. */
  lemma {:induction false} ExitWithoutClose(lit: Token)
    requires lit.kind == IntLit
    ensures ParseProg([Punct(Exit), Punct(OpenParen), lit]) == Failure(MissingToken(CloseParen))
  {
    var toks := [Punct(Exit), Punct(OpenParen), lit];
    assert ParseExpr(toks, 2, 0) == Match(TermExpr(TermIntLit(lit)), 3);
    assert ParseStmt(toks, 0) == Fail(MissingToken(CloseParen));
  }

  /** A program whose next token starts no statement is rejected as invalid. */
  lemma {:induction false} InvalidStatementRejected(toks: seq<Token>)
    requires |toks| > 0 && !StartsStmt(toks, 0)
    ensures ParseProg(toks) == Failure(InvalidStatement)
  {
  }

  /** An empty token sequence is the empty program. */
  lemma {:induction false} EmptyProgram()
    ensures ParseProg([]) == Success(Prog([]))
  {
  }
}
