/** Parsing inverts printing: the token spelling of every shaped tree parses back to that
    tree, consuming exactly its spelling. Together with the parse functions' own contracts
    (their result is shaped and spells exactly the tokens they consumed) this makes parsing
    a bijection between shaped trees and the token sequences the parser accepts. */
module ParserRoundTrip {
  import opened Wrappers
  import opened Tokens
  import opened Ast
  import opened Grammar
  import opened Parser
  import opened Prefix

  /** The binary node with the operator of `b` and the operands of `b` is `b`. */
  lemma {:induction false} MakeBinOf(b: BinExpr)
    ensures MakeBin(OpKind(b), b.lhs, b.rhs) == b
  {
    match b
    case BinAdd(_, _) =>
    case BinMulti(_, _) =>
    case BinSub(_, _) =>
    case BinDiv(_, _) =>
  }

  // ---------------------------------------------------------------------------
  // Expressions

  lemma {:induction false} TermRoundTrip(toks: seq<Token>, pos: nat, t: Term)
    requires TermShaped(t) && At(toks, pos, TermTokens(t))
    ensures ParseTerm(toks, pos) == Match(t, pos + |TermTokens(t)|)
    decreases t, 0
  {
    match t
    case TermIntLit(tok) =>
      AtOne(toks, pos, tok);
    case TermIdent(tok) =>
      AtOne(toks, pos, tok);
    case TermParen(e) =>
      var p := ParenSplit(toks, pos, e);
      ExprRoundTrip(toks, pos + 1, e, 0);
      ParenStep(toks, pos, e, p);
  }

  lemma {:induction false} ParenSplit(toks: seq<Token>, pos: nat, e: Expr) returns (p: nat)
    requires At(toks, pos, TermTokens(TermParen(e)))
    ensures p == pos + 1 + |ExprTokens(e)| && p + 1 == pos + |TermTokens(TermParen(e))|
    ensures p < |toks| && toks[pos].kind == OpenParen && toks[p].kind == CloseParen
    ensures At(toks, pos + 1, ExprTokens(e)) && StopsAt(toks, p, 0)
  {
    var w := ExprTokens(e);
    AtSplit(toks, pos, [Punct(OpenParen)] + w, [Punct(CloseParen)]);
    AtSplit(toks, pos, [Punct(OpenParen)], w);
    AtOne(toks, pos, Punct(OpenParen));
    AtOne(toks, pos + 1 + |w|, Punct(CloseParen));
    p := pos + 1 + |w|;
  }

  /** `( Expr )` with the inner expression parsed up to the closing parenthesis. */
  lemma {:induction false} ParenStep(toks: seq<Token>, pos: nat, e: Expr, p: nat)
    requires pos < p < |toks| && toks[pos].kind == OpenParen && toks[p].kind == CloseParen
    requires ParseExpr(toks, pos + 1, 0) == Match(e, p)
    ensures ParseTerm(toks, pos) == Match(TermParen(e), p + 1)
  {
  }

  /** Precedence climbing returns every shaped expression from its spelling, provided the
      token after it could not continue the expression at level `minPrec`. */
  lemma {:induction false} ExprRoundTrip(toks: seq<Token>, pos: nat, e: Expr, minPrec: nat)
    requires Shaped(e, minPrec) && At(toks, pos, ExprTokens(e))
    requires StopsAt(toks, pos + |ExprTokens(e)|, minPrec)
    ensures ParseExpr(toks, pos, minPrec) == Match(e, pos + |ExprTokens(e)|)
    decreases e, 3
  {
    if e.BinaryExpr? {
      assert StopsAt(toks, pos + |ExprTokens(e)|, Prec(e.bin) + 1);
    }
    AtLen(toks, pos, ExprTokens(e));
    ClimbReaches(toks, pos, e, minPrec);
  }

  /** The loop invariant of precedence climbing: parsing the spelling of a shaped `e`
      reaches the loop state whose left operand is `e` itself, with the cursor after it. */
  lemma {:induction false} ClimbReaches(toks: seq<Token>, pos: nat, e: Expr, minPrec: nat)
    requires Shaped(e, minPrec) && At(toks, pos, ExprTokens(e))
    requires pos + |ExprTokens(e)| <= |toks|
    requires e.BinaryExpr? ==> StopsAt(toks, pos + |ExprTokens(e)|, Prec(e.bin) + 1)
    ensures ParseExpr(toks, pos, minPrec) == ExprLoop(toks, e, pos + |ExprTokens(e)|, minPrec)
    decreases e, 2
  {
    match e
    case TermExpr(t) =>
      TermRoundTrip(toks, pos, t);
      ClimbStart(toks, pos, t, pos + |TermTokens(t)|, minPrec);
    case BinaryExpr(b) =>
      ClimbBinary(toks, pos, b, minPrec);
  }

  /** The loop starts with the term in hand as its left operand. */
  lemma {:induction false} ClimbStart(toks: seq<Token>, pos: nat, t: Term, p: nat, minPrec: nat)
    requires pos <= |toks| && ParseTerm(toks, pos) == Match(t, p)
    ensures ParseExpr(toks, pos, minPrec) == ExprLoop(toks, TermExpr(t), p, minPrec)
  {
  }

  lemma {:induction false} ClimbBinary(toks: seq<Token>, pos: nat, b: BinExpr, minPrec: nat)
    requires Shaped(BinaryExpr(b), minPrec) && At(toks, pos, ExprTokens(BinaryExpr(b)))
    requires pos + |ExprTokens(BinaryExpr(b))| <= |toks|
    requires StopsAt(toks, pos + |ExprTokens(BinaryExpr(b))|, Prec(b) + 1)
    ensures ParseExpr(toks, pos, minPrec) ==
            ExprLoop(toks, BinaryExpr(b), pos + |ExprTokens(BinaryExpr(b))|, minPrec)
    decreases BinaryExpr(b), 1
  {
    var endL := ClimbParts(toks, pos, b, minPrec);
    ClimbReaches(toks, pos, b.lhs, minPrec);
    ClimbFold(toks, endL, b, pos + |ExprTokens(BinaryExpr(b))|, minPrec);
  }

  /** With the operator of `b` next, the loop reads the right operand of `b` and folds it
      into the left one. */
  lemma {:induction false} ClimbFold(toks: seq<Token>, pos: nat, b: BinExpr, end: nat, minPrec: nat)
    requires pos < |toks| && toks[pos] == Punct(OpKind(b)) && minPrec <= Prec(b)
    requires Shaped(b.rhs, Prec(b) + 1) && At(toks, pos + 1, ExprTokens(b.rhs))
    requires end == pos + 1 + |ExprTokens(b.rhs)| && end <= |toks| && StopsAt(toks, end, Prec(b) + 1)
    ensures ExprLoop(toks, b.lhs, pos, minPrec) == ExprLoop(toks, BinaryExpr(b), end, minPrec)
    decreases BinaryExpr(b), 0
  {
    ExprRoundTrip(toks, pos + 1, b.rhs, Prec(b) + 1);
    ClimbStep(toks, pos, b, end, minPrec);
  }

  /** The spelling of a shaped binary node splits at its operator into two shaped operands,
      and the operator stops the loop that built the left operand. */
  lemma {:induction false} ClimbParts(toks: seq<Token>, pos: nat, b: BinExpr, minPrec: nat) returns (endL: nat)
    requires Shaped(BinaryExpr(b), minPrec) && At(toks, pos, ExprTokens(BinaryExpr(b)))
    requires pos + |ExprTokens(BinaryExpr(b))| <= |toks|
    requires StopsAt(toks, pos + |ExprTokens(BinaryExpr(b))|, Prec(b) + 1)
    ensures endL == pos + |ExprTokens(b.lhs)| && endL < |toks| && toks[endL] == Punct(OpKind(b))
    ensures endL + 1 + |ExprTokens(b.rhs)| == pos + |ExprTokens(BinaryExpr(b))|
    ensures minPrec <= Prec(b) && Shaped(b.lhs, minPrec) && At(toks, pos, ExprTokens(b.lhs))
    ensures b.lhs.BinaryExpr? ==> StopsAt(toks, endL, Prec(b.lhs.bin) + 1)
    ensures Shaped(b.rhs, Prec(b) + 1) && At(toks, endL + 1, ExprTokens(b.rhs))
    ensures StopsAt(toks, endL + 1 + |ExprTokens(b.rhs)|, Prec(b) + 1)
  {
    var l, r := ExprTokens(b.lhs), ExprTokens(b.rhs);
    var op := Punct(OpKind(b));
    endL := pos + |l|;
    AtSplit(toks, pos, l + [op], r);
    AtSplit(toks, pos, l, [op]);
    AtOne(toks, endL, op);
  }

  /** One turn of the loop: with the operator of `b` next and the right operand of `b`
      parsed after it, the loop folds them into `b`. */
  lemma {:induction false} ClimbStep(toks: seq<Token>, pos: nat, b: BinExpr, end: nat, minPrec: nat)
    requires pos < |toks| && toks[pos] == Punct(OpKind(b)) && minPrec <= Prec(b)
    requires pos < end <= |toks|
    requires ParseExpr(toks, pos + 1, Prec(b) + 1) == Match(b.rhs, end)
    ensures ExprLoop(toks, b.lhs, pos, minPrec) == ExprLoop(toks, BinaryExpr(b), end, minPrec)
  {
    MakeBinOf(b);
    assert Peek(toks, pos, 0) == Some(toks[pos]);
  }

  // ---------------------------------------------------------------------------
  // Statements

  /** Every statement spelling starts with one of the statement-start tokens. */
  lemma {:induction false} FirstToken(s: Stmt)
    requires StmtShaped(s)
    ensures |StmtTokens(s)| > 0 && StmtTokens(s)[0].kind in {Exit, Let, Ident, OpenCurly, If}
  {
  }

  lemma {:induction false} StmtRoundTrip(toks: seq<Token>, pos: nat, s: Stmt)
    requires StmtShaped(s) && At(toks, pos, StmtTokens(s))
    requires !StartsPred(toks, pos + |StmtTokens(s)|)
    ensures ParseStmt(toks, pos) == Match(s, pos + |StmtTokens(s)|)
    decreases s, 3
  {
    match s
    case StmtExit(e) =>
      ExitRoundTrip(toks, pos, e);
    case StmtLet(id, e) =>
      LetRoundTrip(toks, pos, id, e);
    case StmtAssign(id, e) =>
      AssignRoundTrip(toks, pos, id, e);
    case StmtScope(sc) =>
      StmtScopeRoundTrip(toks, pos, sc);
    case StmtIf(c, sc, p) =>
      IfRoundTrip(toks, pos, c, sc, p);
  }

  lemma {:induction false} ExitRoundTrip(toks: seq<Token>, pos: nat, e: Expr)
    requires Shaped(e, 0) && At(toks, pos, StmtTokens(StmtExit(e)))
    ensures ParseStmt(toks, pos) == Match(StmtExit(e), pos + |StmtTokens(StmtExit(e))|)
  {
    var p := ExitSplit(toks, pos, e);
    ExprRoundTrip(toks, pos + 2, e, 0);
    ExitStep(toks, pos, e, p);
  }

  lemma {:induction false} ExitSplit(toks: seq<Token>, pos: nat, e: Expr) returns (p: nat)
    requires At(toks, pos, StmtTokens(StmtExit(e)))
    ensures p == pos + 2 + |ExprTokens(e)| && p + 2 == pos + |StmtTokens(StmtExit(e))|
    ensures p + 1 < |toks| && toks[pos].kind == Exit && toks[pos + 1].kind == OpenParen
    ensures toks[p].kind == CloseParen && toks[p + 1].kind == Semi
    ensures At(toks, pos + 2, ExprTokens(e)) && StopsAt(toks, p, 0)
  {
    var w := ExprTokens(e);
    AtSplit(toks, pos, [Punct(Exit), Punct(OpenParen)] + w, [Punct(CloseParen), Punct(Semi)]);
    AtSplit(toks, pos, [Punct(Exit), Punct(OpenParen)], w);
    AtTwo(toks, pos, Punct(Exit), Punct(OpenParen));
    AtTwo(toks, pos + 2 + |w|, Punct(CloseParen), Punct(Semi));
    p := pos + 2 + |w|;
  }

  lemma {:induction false} ExitStep(toks: seq<Token>, pos: nat, e: Expr, p: nat)
    requires pos + 2 <= p && p + 1 < |toks|
    requires toks[pos].kind == Exit && toks[pos + 1].kind == OpenParen
    requires toks[p].kind == CloseParen && toks[p + 1].kind == Semi
    requires ParseExpr(toks, pos + 2, 0) == Match(e, p)
    ensures ParseStmt(toks, pos) == Match(StmtExit(e), p + 2)
  {
    assert ParseStmt(toks, pos) == ParseExit(toks, pos);
  }

  lemma {:induction false} LetRoundTrip(toks: seq<Token>, pos: nat, id: Token, e: Expr)
    requires id.kind == Ident && Shaped(e, 0) && At(toks, pos, StmtTokens(StmtLet(id, e)))
    ensures ParseStmt(toks, pos) == Match(StmtLet(id, e), pos + |StmtTokens(StmtLet(id, e))|)
  {
    var p := LetSplit(toks, pos, id, e);
    ExprRoundTrip(toks, pos + 3, e, 0);
    LetStep(toks, pos, e, p);
  }

  lemma {:induction false} LetSplit(toks: seq<Token>, pos: nat, id: Token, e: Expr) returns (p: nat)
    requires id.kind == Ident && At(toks, pos, StmtTokens(StmtLet(id, e)))
    ensures p == pos + 3 + |ExprTokens(e)| && p + 1 == pos + |StmtTokens(StmtLet(id, e))|
    ensures p < |toks| && toks[pos].kind == Let && toks[pos + 1] == id && toks[pos + 2].kind == Eq
    ensures toks[p].kind == Semi && At(toks, pos + 3, ExprTokens(e)) && StopsAt(toks, p, 0)
  {
    var w := ExprTokens(e);
    AtSplit(toks, pos, [Punct(Let), id, Punct(Eq)] + w, [Punct(Semi)]);
    AtSplit(toks, pos, [Punct(Let), id, Punct(Eq)], w);
    AtThree(toks, pos, Punct(Let), id, Punct(Eq));
    AtOne(toks, pos + 3 + |w|, Punct(Semi));
    p := pos + 3 + |w|;
  }

  lemma {:induction false} LetStep(toks: seq<Token>, pos: nat, e: Expr, p: nat)
    requires pos + 3 <= p < |toks|
    requires toks[pos].kind == Let && toks[pos + 1].kind == Ident && toks[pos + 2].kind == Eq
    requires toks[p].kind == Semi && ParseExpr(toks, pos + 3, 0) == Match(e, p)
    ensures ParseStmt(toks, pos) == Match(StmtLet(toks[pos + 1], e), p + 1)
  {
    assert ParseStmt(toks, pos) == ParseLet(toks, pos);
  }

  lemma {:induction false} AssignRoundTrip(toks: seq<Token>, pos: nat, id: Token, e: Expr)
    requires id.kind == Ident && Shaped(e, 0) && At(toks, pos, StmtTokens(StmtAssign(id, e)))
    ensures ParseStmt(toks, pos) == Match(StmtAssign(id, e), pos + |StmtTokens(StmtAssign(id, e))|)
  {
    var p := AssignSplit(toks, pos, id, e);
    ExprRoundTrip(toks, pos + 2, e, 0);
    AssignStep(toks, pos, e, p);
  }

  lemma {:induction false} AssignSplit(toks: seq<Token>, pos: nat, id: Token, e: Expr) returns (p: nat)
    requires id.kind == Ident && At(toks, pos, StmtTokens(StmtAssign(id, e)))
    ensures p == pos + 2 + |ExprTokens(e)| && p + 1 == pos + |StmtTokens(StmtAssign(id, e))|
    ensures p < |toks| && toks[pos] == id && toks[pos + 1].kind == Eq
    ensures toks[p].kind == Semi && At(toks, pos + 2, ExprTokens(e)) && StopsAt(toks, p, 0)
  {
    var w := ExprTokens(e);
    AtSplit(toks, pos, [id, Punct(Eq)] + w, [Punct(Semi)]);
    AtSplit(toks, pos, [id, Punct(Eq)], w);
    AtTwo(toks, pos, id, Punct(Eq));
    AtOne(toks, pos + 2 + |w|, Punct(Semi));
    p := pos + 2 + |w|;
  }

  lemma {:induction false} AssignStep(toks: seq<Token>, pos: nat, e: Expr, p: nat)
    requires pos + 2 <= p < |toks|
    requires toks[pos].kind == Ident && toks[pos + 1].kind == Eq
    requires toks[p].kind == Semi && ParseExpr(toks, pos + 2, 0) == Match(e, p)
    ensures ParseStmt(toks, pos) == Match(StmtAssign(toks[pos], e), p + 1)
  {
    assert ParseStmt(toks, pos) == ParseAssign(toks, pos);
  }

  lemma {:induction false} StmtScopeRoundTrip(toks: seq<Token>, pos: nat, sc: Scope)
    requires ScopeShaped(sc) && At(toks, pos, ScopeTokens(sc))
    ensures ParseStmt(toks, pos) == Match(StmtScope(sc), pos + |ScopeTokens(sc)|)
    decreases StmtScope(sc), 0
  {
    ScopeRoundTrip(toks, pos, sc);
    StmtScopeStep(toks, pos, sc, pos + |ScopeTokens(sc)|);
  }

  lemma {:induction false} StmtScopeStep(toks: seq<Token>, pos: nat, sc: Scope, q: nat)
    requires pos <= |toks| && ParseScope(toks, pos) == Match(sc, q)
    ensures ParseStmt(toks, pos) == Match(StmtScope(sc), q)
  {
    assert PeekIs(toks, pos, 0, OpenCurly);
  }

  lemma {:induction false} IfRoundTrip(toks: seq<Token>, pos: nat, c: Expr, sc: Scope, p: Option<IfPred>)
    requires StmtShaped(StmtIf(c, sc, p)) && At(toks, pos, StmtTokens(StmtIf(c, sc, p)))
    requires !StartsPred(toks, pos + |StmtTokens(StmtIf(c, sc, p))|)
    ensures ParseStmt(toks, pos) == Match(StmtIf(c, sc, p), pos + |StmtTokens(StmtIf(c, sc, p))|)
    decreases StmtIf(c, sc, p), 0
  {
    var q := IfSplit(toks, pos, c, sc, p);
    GuardedRoundTrip(toks, pos + 1, c, sc);
    OptPredRoundTrip(toks, q, p);
    IfStep(toks, pos, c, sc, p, q);
  }

  lemma {:induction false} IfSplit(toks: seq<Token>, pos: nat, c: Expr, sc: Scope, p: Option<IfPred>) returns (q: nat)
    requires StmtShaped(StmtIf(c, sc, p)) && At(toks, pos, StmtTokens(StmtIf(c, sc, p)))
    ensures pos < |toks| && toks[pos].kind == If && q == pos + 1 + |GuardedTokens(c, sc)|
    ensures q + |OptPredTokens(p)| == pos + |StmtTokens(StmtIf(c, sc, p))|
    ensures Shaped(c, 0) && ScopeShaped(sc) && At(toks, pos + 1, GuardedTokens(c, sc))
    ensures OptPredShaped(p) && At(toks, q, OptPredTokens(p))
  {
    var g := GuardedTokens(c, sc);
    AtSplit(toks, pos, [Punct(If)] + g, OptPredTokens(p));
    AtSplit(toks, pos, [Punct(If)], g);
    AtOne(toks, pos, Punct(If));
    q := pos + 1 + |g|;
  }

  lemma {:induction false} IfStep(toks: seq<Token>, pos: nat, c: Expr, sc: Scope, p: Option<IfPred>, q: nat)
    requires pos < |toks| && toks[pos].kind == If && pos < q <= |toks|
    requires ParseGuarded(toks, pos + 1) == Match(Guard(c, sc), q)
    requires p.None? ==> ParseIfPred(toks, q).NoMatch?
    requires p.Some? ==> ParseIfPred(toks, q) == Match(p.value, q + |OptPredTokens(p)|)
    ensures ParseStmt(toks, pos) == Match(StmtIf(c, sc, p), q + |OptPredTokens(p)|)
  {
    assert ParseStmt(toks, pos) == ParseIf(toks, pos);
  }

  lemma {:induction false} GuardedRoundTrip(toks: seq<Token>, pos: nat, c: Expr, sc: Scope)
    requires Shaped(c, 0) && ScopeShaped(sc) && At(toks, pos, GuardedTokens(c, sc))
    ensures ParseGuarded(toks, pos) == Match(Guard(c, sc), pos + |GuardedTokens(c, sc)|)
    decreases sc, 2
  {
    var p := GuardedSplit(toks, pos, c, sc);
    ExprRoundTrip(toks, pos + 1, c, 0);
    ScopeRoundTrip(toks, p + 1, sc);
    GuardedStep(toks, pos, c, sc, p, pos + |GuardedTokens(c, sc)|);
  }

  lemma {:induction false} GuardedSplit(toks: seq<Token>, pos: nat, c: Expr, sc: Scope) returns (p: nat)
    requires At(toks, pos, GuardedTokens(c, sc))
    ensures p == pos + 1 + |ExprTokens(c)| && p + 1 + |ScopeTokens(sc)| == pos + |GuardedTokens(c, sc)|
    ensures p < |toks| && toks[pos].kind == OpenParen && toks[p].kind == CloseParen
    ensures At(toks, pos + 1, ExprTokens(c)) && StopsAt(toks, p, 0)
    ensures At(toks, p + 1, ScopeTokens(sc))
  {
    var w := ExprTokens(c);
    AtSplit(toks, pos, [Punct(OpenParen)] + w + [Punct(CloseParen)], ScopeTokens(sc));
    AtSplit(toks, pos, [Punct(OpenParen)] + w, [Punct(CloseParen)]);
    AtSplit(toks, pos, [Punct(OpenParen)], w);
    AtOne(toks, pos, Punct(OpenParen));
    AtOne(toks, pos + 1 + |w|, Punct(CloseParen));
    p := pos + 1 + |w|;
  }

  lemma {:induction false} GuardedStep(toks: seq<Token>, pos: nat, c: Expr, sc: Scope, p: nat, q: nat)
    requires pos < p < |toks| && toks[pos].kind == OpenParen && toks[p].kind == CloseParen
    requires ParseExpr(toks, pos + 1, 0) == Match(c, p)
    requires ParseScope(toks, p + 1) == Match(sc, q)
    ensures ParseGuarded(toks, pos) == Match(Guard(c, sc), q)
  {
  }

  lemma {:induction false} ScopeRoundTrip(toks: seq<Token>, pos: nat, sc: Scope)
    requires ScopeShaped(sc) && At(toks, pos, ScopeTokens(sc))
    ensures ParseScope(toks, pos) == Match(sc, pos + |ScopeTokens(sc)|)
    decreases sc, 1
  {
    var p := ScopeSplit(toks, pos, sc);
    StmtsRoundTrip(toks, pos + 1, sc.stmts);
    ScopeStep(toks, pos, sc, p);
  }

  lemma {:induction false} ScopeSplit(toks: seq<Token>, pos: nat, sc: Scope) returns (p: nat)
    requires At(toks, pos, ScopeTokens(sc))
    ensures p == pos + 1 + |StmtsTokens(sc.stmts)| && p + 1 == pos + |ScopeTokens(sc)|
    ensures p < |toks| && toks[pos].kind == OpenCurly && toks[p].kind == CloseCurly
    ensures At(toks, pos + 1, StmtsTokens(sc.stmts))
    ensures !StartsStmt(toks, p) && !StartsPred(toks, p)
  {
    var w := StmtsTokens(sc.stmts);
    AtSplit(toks, pos, [Punct(OpenCurly)] + w, [Punct(CloseCurly)]);
    AtSplit(toks, pos, [Punct(OpenCurly)], w);
    AtOne(toks, pos, Punct(OpenCurly));
    AtOne(toks, pos + 1 + |w|, Punct(CloseCurly));
    p := pos + 1 + |w|;
  }

  lemma {:induction false} ScopeStep(toks: seq<Token>, pos: nat, sc: Scope, p: nat)
    requires pos < p < |toks| && toks[pos].kind == OpenCurly && toks[p].kind == CloseCurly
    requires StmtList(toks, pos + 1) == Match(sc.stmts, p)
    ensures ParseScope(toks, pos) == Match(sc, p + 1)
  {
  }

  /** A statement list is read back whole when the token after it starts neither a
      statement nor a predicate. */
  lemma {:induction false} StmtsRoundTrip(toks: seq<Token>, pos: nat, ss: seq<Stmt>)
    requires StmtsShaped(ss) && At(toks, pos, StmtsTokens(ss))
    requires !StartsStmt(toks, pos + |StmtsTokens(ss)|) && !StartsPred(toks, pos + |StmtsTokens(ss)|)
    ensures StmtList(toks, pos) == Match(ss, pos + |StmtsTokens(ss)|)
    decreases ss, 1
  {
    if |ss| == 0 {
      AtLen(toks, pos, StmtsTokens(ss));
    } else {
      StmtsConsRoundTrip(toks, pos, ss);
    }
  }

  lemma {:induction false} StmtsConsRoundTrip(toks: seq<Token>, pos: nat, ss: seq<Stmt>)
    requires |ss| > 0 && StmtsShaped(ss) && At(toks, pos, StmtsTokens(ss))
    requires !StartsStmt(toks, pos + |StmtsTokens(ss)|) && !StartsPred(toks, pos + |StmtsTokens(ss)|)
    ensures StmtList(toks, pos) == Match(ss, pos + |StmtsTokens(ss)|)
    decreases ss, 0
  {
    var p := StmtsSplit(toks, pos, ss);
    StmtRoundTrip(toks, pos, ss[0]);
    StmtsRoundTrip(toks, p, ss[1..]);
    StmtListStep(toks, pos, ss, p, pos + |StmtsTokens(ss)|);
  }

  lemma {:induction false} StmtListStep(toks: seq<Token>, pos: nat, ss: seq<Stmt>, p: nat, q: nat)
    requires |ss| > 0 && pos < p <= |toks| && ParseStmt(toks, pos) == Match(ss[0], p)
    requires StmtList(toks, p) == Match(ss[1..], q)
    ensures StmtList(toks, pos) == Match(ss, q)
  {
    assert [ss[0]] + ss[1..] == ss;
  }

  /** A non-empty list spells its first statement and then the rest of the list; the
      token after the first statement is no predicate, since it is either the start of the
      next statement or the token after the whole list. */
  lemma {:induction false} StmtsSplit(toks: seq<Token>, pos: nat, ss: seq<Stmt>) returns (p: nat)
    requires |ss| > 0 && StmtsShaped(ss) && At(toks, pos, StmtsTokens(ss))
    requires !StartsPred(toks, pos + |StmtsTokens(ss)|)
    ensures p == pos + |StmtTokens(ss[0])| && p + |StmtsTokens(ss[1..])| == pos + |StmtsTokens(ss)|
    ensures StmtShaped(ss[0]) && At(toks, pos, StmtTokens(ss[0])) && !StartsPred(toks, p)
    ensures StmtsShaped(ss[1..]) && At(toks, p, StmtsTokens(ss[1..]))
  {
    var w := StmtTokens(ss[0]);
    var rest := StmtsTokens(ss[1..]);
    assert StmtsShaped(ss[1..]) by {
      forall i | 0 <= i < |ss[1..]| ensures StmtShaped(ss[1..][i]) {
        assert ss[1..][i] == ss[i + 1];
      }
    }
    AtSplit(toks, pos, w, rest);
    FirstToken(ss[0]);
    if |ss[1..]| > 0 {
      FirstToken(ss[1]);
      assert StmtsTokens(ss[1..]) == StmtTokens(ss[1..][0]) + StmtsTokens(ss[1..][1..]);
      AtSplit(toks, pos + |w|, StmtTokens(ss[1]), StmtsTokens(ss[1..][1..]));
      assert toks[pos + |w|] == StmtTokens(ss[1])[0];
    }
    p := pos + |w|;
  }

  lemma {:induction false} PredRoundTrip(toks: seq<Token>, pos: nat, p: IfPred)
    requires PredShaped(p) && At(toks, pos, PredTokens(p))
    requires !StartsPred(toks, pos + |PredTokens(p)|)
    ensures ParseIfPred(toks, pos) == Match(p, pos + |PredTokens(p)|)
    decreases p, 1
  {
    match p
    case PredElif(c, sc, next) =>
      ElifRoundTrip(toks, pos, c, sc, next);
    case PredElse(sc) =>
      AtSplit(toks, pos, [Punct(Else)], ScopeTokens(sc));
      AtOne(toks, pos, Punct(Else));
      ScopeRoundTrip(toks, pos + 1, sc);
      ElseStep(toks, pos, sc, pos + |PredTokens(p)|);
  }

  lemma {:induction false} ElseStep(toks: seq<Token>, pos: nat, sc: Scope, q: nat)
    requires pos < |toks| && toks[pos].kind == Else
    requires ParseScope(toks, pos + 1) == Match(sc, q)
    ensures ParseIfPred(toks, pos) == Match(PredElse(sc), q)
  {
  }

  lemma {:induction false} ElifRoundTrip(toks: seq<Token>, pos: nat, c: Expr, sc: Scope, next: Option<IfPred>)
    requires PredShaped(PredElif(c, sc, next)) && At(toks, pos, PredTokens(PredElif(c, sc, next)))
    requires !StartsPred(toks, pos + |PredTokens(PredElif(c, sc, next))|)
    ensures ParseIfPred(toks, pos) == Match(PredElif(c, sc, next), pos + |PredTokens(PredElif(c, sc, next))|)
    decreases PredElif(c, sc, next), 0
  {
    var q := ElifSplit(toks, pos, c, sc, next);
    GuardedRoundTrip(toks, pos + 1, c, sc);
    OptPredRoundTrip(toks, q, next);
    ElifStep(toks, pos, c, sc, next, q);
  }

  lemma {:induction false} ElifSplit(toks: seq<Token>, pos: nat, c: Expr, sc: Scope, next: Option<IfPred>) returns (q: nat)
    requires PredShaped(PredElif(c, sc, next)) && At(toks, pos, PredTokens(PredElif(c, sc, next)))
    ensures pos < |toks| && toks[pos].kind == Elif && q == pos + 1 + |GuardedTokens(c, sc)|
    ensures q + |OptPredTokens(next)| == pos + |PredTokens(PredElif(c, sc, next))|
    ensures Shaped(c, 0) && ScopeShaped(sc) && At(toks, pos + 1, GuardedTokens(c, sc))
    ensures OptPredShaped(next) && At(toks, q, OptPredTokens(next))
  {
    var g := GuardedTokens(c, sc);
    AtSplit(toks, pos, [Punct(Elif)] + g, OptPredTokens(next));
    AtSplit(toks, pos, [Punct(Elif)], g);
    AtOne(toks, pos, Punct(Elif));
    q := pos + 1 + |g|;
  }

  lemma {:induction false} ElifStep(toks: seq<Token>, pos: nat, c: Expr, sc: Scope, next: Option<IfPred>, q: nat)
    requires pos < |toks| && toks[pos].kind == Elif && pos < q <= |toks|
    requires ParseGuarded(toks, pos + 1) == Match(Guard(c, sc), q)
    requires next.None? ==> ParseIfPred(toks, q).NoMatch?
    requires next.Some? ==> ParseIfPred(toks, q) == Match(next.value, q + |OptPredTokens(next)|)
    ensures ParseIfPred(toks, pos) == Match(PredElif(c, sc, next), q + |OptPredTokens(next)|)
  {
  }

  /** An absent predicate is read back as absent when no predicate follows. */
  lemma {:induction false} OptPredRoundTrip(toks: seq<Token>, pos: nat, p: Option<IfPred>)
    requires OptPredShaped(p) && At(toks, pos, OptPredTokens(p))
    requires !StartsPred(toks, pos + |OptPredTokens(p)|)
    ensures p.None? ==> ParseIfPred(toks, pos).NoMatch?
    ensures p.Some? ==> ParseIfPred(toks, pos) == Match(p.value, pos + |OptPredTokens(p)|)
    decreases p, 2
  {
    if p.Some? {
      PredRoundTrip(toks, pos, p.value);
    } else {
      AtLen(toks, pos, OptPredTokens(p));
    }
  }

  // ---------------------------------------------------------------------------
  // Programs

  lemma {:induction false} ProgLoopRoundTrip(toks: seq<Token>, pos: nat, ss: seq<Stmt>)
    requires StmtsShaped(ss) && At(toks, pos, StmtsTokens(ss))
    requires pos + |StmtsTokens(ss)| == |toks|
    ensures ProgLoop(toks, pos) == Success(ss)
    decreases ss
  {
    if |ss| > 0 {
      var p := StmtsSplit(toks, pos, ss);
      StmtRoundTrip(toks, pos, ss[0]);
      ProgLoopRoundTrip(toks, p, ss[1..]);
      ProgLoopStep(toks, pos, ss, p);
    }
  }

  lemma {:induction false} ProgLoopStep(toks: seq<Token>, pos: nat, ss: seq<Stmt>, p: nat)
    requires |ss| > 0 && pos < p <= |toks| && ParseStmt(toks, pos) == Match(ss[0], p)
    requires ProgLoop(toks, p) == Success(ss[1..])
    ensures ProgLoop(toks, pos) == Success(ss)
  {
    assert [ss[0]] + ss[1..] == ss;
  }

  /** Parsing the spelling of a shaped program returns that program. */
  lemma {:induction false} ProgRoundTrip(p: Prog)
    requires ProgShaped(p)
    ensures ParseProg(ProgTokens(p)) == Success(p)
  {
    var toks := ProgTokens(p);
    AtSelf(toks, 0);
    assert toks[0..] == toks;
    ProgLoopRoundTrip(toks, 0, p.stmts);
  }
}
