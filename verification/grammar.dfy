/** The concrete syntax of a tree: the token sequence each node is parsed from, and the
    shape of the trees the precedence-climbing parser returns. */
module Grammar {
  import opened Wrappers
  import opened Tokens
  import opened Ast

  /** A value-less token. */
  function Punct(k: TokenKind): Token {
    Token(k, None)
  }

  function TermTokens(t: Term): seq<Token>
    decreases t
  {
    match t
    case TermIntLit(tok) => [tok]
    case TermIdent(tok) => [tok]
    case TermParen(e) => [Punct(OpenParen)] + ExprTokens(e) + [Punct(CloseParen)]
  }

  /** Operands in order with the operator between them; grouping shows only through
      the parentheses a `TermParen` holds. */
  function ExprTokens(e: Expr): seq<Token>
    decreases e
  {
    match e
    case TermExpr(t) => TermTokens(t)
    case BinaryExpr(b) => ExprTokens(b.lhs) + [Punct(OpKind(b))] + ExprTokens(b.rhs)
  }

  function ScopeTokens(sc: Scope): seq<Token>
    decreases sc, 0
  {
    [Punct(OpenCurly)] + StmtsTokens(sc.stmts) + [Punct(CloseCurly)]
  }

  function StmtsTokens(ss: seq<Stmt>): seq<Token>
    decreases ss
  {
    if |ss| == 0 then [] else StmtTokens(ss[0]) + StmtsTokens(ss[1..])
  }

  function PredTokens(p: IfPred): seq<Token>
    decreases p
  {
    match p
    case PredElif(c, sc, next) =>
      [Punct(Elif)] + GuardedTokens(c, sc) + OptPredTokens(next)
    case PredElse(sc) => [Punct(Else)] + ScopeTokens(sc)
  }

  /** `( cond ) { ... }`, shared by `if` and `elif`. */
  function GuardedTokens(c: Expr, sc: Scope): seq<Token>
    decreases sc, 1
  {
    [Punct(OpenParen)] + ExprTokens(c) + [Punct(CloseParen)] + ScopeTokens(sc)
  }

  function OptPredTokens(p: Option<IfPred>): seq<Token>
    decreases p
  {
    match p
    case None => []
    case Some(q) => PredTokens(q)
  }

  function StmtTokens(s: Stmt): seq<Token>
    decreases s
  {
    match s
    case StmtExit(e) =>
      [Punct(Exit), Punct(OpenParen)] + ExprTokens(e) + [Punct(CloseParen), Punct(Semi)]
    case StmtLet(id, e) => [Punct(Let), id, Punct(Eq)] + ExprTokens(e) + [Punct(Semi)]
    case StmtScope(sc) => ScopeTokens(sc)
    case StmtIf(c, sc, p) =>
      [Punct(If)] + GuardedTokens(c, sc) + OptPredTokens(p)
    case StmtAssign(id, e) => [id, Punct(Eq)] + ExprTokens(e) + [Punct(Semi)]
  }

  function ProgTokens(p: Prog): seq<Token> {
    StmtsTokens(p.stmts)
  }

  /** Literal and identifier terms hold tokens of their kind; a parenthesised
      expression is one `parse_expr` returns at precedence 0. */
  predicate TermShaped(t: Term)
    decreases t
  {
    match t
    case TermIntLit(tok) => tok.kind == IntLit
    case TermIdent(tok) => tok.kind == Ident
    case TermParen(e) => Shaped(e, 0)
  }

  /** The trees `parse_expr(minPrec)` can return: every operator has precedence at least
      `minPrec`, operands on the left were folded at the same level, the right operand was
      parsed one level higher, and an operator never follows a left operand of lower
      precedence (that operand would have absorbed it). */
  predicate Shaped(e: Expr, minPrec: nat)
    decreases e
  {
    match e
    case TermExpr(t) => TermShaped(t)
    case BinaryExpr(b) =>
      && minPrec <= Prec(b)
      && Shaped(b.lhs, minPrec)
      && Shaped(b.rhs, Prec(b) + 1)
      && (b.lhs.BinaryExpr? ==> Prec(b) <= Prec(b.lhs.bin))
  }

  predicate ScopeShaped(sc: Scope)
    decreases sc
  {
    forall i :: 0 <= i < |sc.stmts| ==> StmtShaped(sc.stmts[i])
  }

  predicate PredShaped(p: IfPred)
    decreases p
  {
    match p
    case PredElif(c, sc, next) => Shaped(c, 0) && ScopeShaped(sc) && OptPredShaped(next)
    case PredElse(sc) => ScopeShaped(sc)
  }

  predicate OptPredShaped(p: Option<IfPred>)
    decreases p
  {
    match p
    case None => true
    case Some(q) => PredShaped(q)
  }

  /** Statements whose expressions are shaped and whose bound names are identifier tokens. */
  predicate StmtShaped(s: Stmt)
    decreases s
  {
    match s
    case StmtExit(e) => Shaped(e, 0)
    case StmtLet(id, e) => id.kind == Ident && Shaped(e, 0)
    case StmtScope(sc) => ScopeShaped(sc)
    case StmtIf(c, sc, p) => Shaped(c, 0) && ScopeShaped(sc) && OptPredShaped(p)
    case StmtAssign(id, e) => id.kind == Ident && Shaped(e, 0)
  }

  predicate StmtsShaped(ss: seq<Stmt>) {
    forall i :: 0 <= i < |ss| ==> StmtShaped(ss[i])
  }

  predicate ProgShaped(p: Prog) {
    StmtsShaped(p.stmts)
  }
}
