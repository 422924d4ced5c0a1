/** `Parser` (src/parser.hpp): recursive descent over a token sequence with a cursor `pos`,
    fixed lookahead and no backtracking. Every parse function returns a `Parsed` value:
    `NoMatch` is the source's empty optional (nothing consumed), `Match(v, next)` a node
    with the advanced cursor, and `Fail(e)` the source's `exit(EXIT_FAILURE)`. */
module Parser {
  import opened Wrappers
  import opened Tokens
  import opened Ast
  import opened Grammar

  /** The fatal syntax errors, by kind; the diagnostic texts are not modelled. */
  datatype ParseError =
    | ExpectedExpression
    | ExpectedScope
    | MissingToken(kind: TokenKind)
    | InvalidStatement

  datatype Parsed<+T> = NoMatch | Match(value: T, next: nat) | Fail(error: ParseError)

  /** The condition and scope of an `if` or `elif` branch. */
  datatype Guard = Guard(cond: Expr, scope: Scope)

  // ---------------------------------------------------------------------------
  // Cursor

  /** `peek(offset)`: the token `offset` places after the cursor, if there is one. */
  function Peek(toks: seq<Token>, pos: nat, offset: nat): (r: Option<Token>)
    ensures r.None? <==> pos + offset >= |toks|
    ensures r.Some? ==> r.value == toks[pos + offset]
  {
    if pos + offset >= |toks| then None else Some(toks[pos + offset])
  }

  /** `peek(offset).has_value() && peek(offset).value().type == kind`. */
  predicate PeekIs(toks: seq<Token>, pos: nat, offset: nat, kind: TokenKind) {
    pos + offset < |toks| && toks[pos + offset].kind == kind
  }

  /** The one-argument `try_consume`: consumes the next token when it has kind `kind`. */
  function TryConsume(toks: seq<Token>, pos: nat, kind: TokenKind): (r: Option<Token>)
    requires pos <= |toks|
    ensures r.Some? <==> pos < |toks| && toks[pos].kind == kind
    ensures r.Some? ==> r.value == toks[pos]
  {
    if pos < |toks| && toks[pos].kind == kind then Some(toks[pos]) else None
  }

  /** The two-argument `try_consume`: the next token must have kind `kind`. */
  function Expect(toks: seq<Token>, pos: nat, kind: TokenKind): (r: Result<nat, ParseError>)
    requires pos <= |toks|
    ensures r.Success? <==> pos < |toks| && toks[pos].kind == kind
    ensures r.Success? ==> r.value == pos + 1
    ensures r.Failure? ==> r.error == MissingToken(kind)
  {
    if pos < |toks| && toks[pos].kind == kind then Success(pos + 1) else Failure(MissingToken(kind))
  }

  /** `PeekIs` is `Peek` followed by a kind test. */
  lemma {:induction false} PeekIsPeek(toks: seq<Token>, pos: nat, offset: nat, kind: TokenKind)
    ensures PeekIs(toks, pos, offset, kind) <==>
            Peek(toks, pos, offset).Some? && Peek(toks, pos, offset).value.kind == kind
  {
  }

  /** The two `try_consume` overloads accept the same tokens and advance past exactly one. */
  lemma {:induction false} TryConsumeAgrees(toks: seq<Token>, pos: nat, kind: TokenKind)
    requires pos <= |toks|
    ensures TryConsume(toks, pos, kind).Some? <==> Expect(toks, pos, kind).Success?
    ensures TryConsume(toks, pos, kind).Some? ==>
            TryConsume(toks, pos, kind).value.kind == kind && Expect(toks, pos, kind).value == pos + 1
  {
  }

  // ---------------------------------------------------------------------------
  // Which token sequences each parse function accepts as a start

  predicate StartsTerm(toks: seq<Token>, pos: nat) {
    pos < |toks| && toks[pos].kind in {IntLit, Ident, OpenParen}
  }

  /** The five statement starts: `exit (`, `let ident =`, `ident =`, `{` and `if`. */
  predicate StartsStmt(toks: seq<Token>, pos: nat) {
    pos < |toks| &&
    match toks[pos].kind
    case Exit => pos + 1 < |toks| && toks[pos + 1].kind == OpenParen
    case Let => pos + 2 < |toks| && toks[pos + 1].kind == Ident && toks[pos + 2].kind == Eq
    case Ident => pos + 1 < |toks| && toks[pos + 1].kind == Eq
    case OpenCurly => true
    case If => true
    case _ => false
  }

  predicate StartsPred(toks: seq<Token>, pos: nat) {
    pos < |toks| && toks[pos].kind in {Elif, Else}
  }

  /** The expression loop at level `minPrec` stops at `pos`: no token, a token that is no
      operator, or an operator of lower precedence. */
  predicate StopsAt(toks: seq<Token>, pos: nat, minPrec: nat) {
    pos < |toks| ==> BinPrec(toks[pos].kind).None? || BinPrec(toks[pos].kind).value < minPrec
  }

  /** The loop state of `parse_expr`: a left operand the loop could have built at `pos`. */
  predicate Climbed(toks: seq<Token>, lhs: Expr, pos: nat, minPrec: nat) {
    Shaped(lhs, minPrec) && (lhs.BinaryExpr? ==> StopsAt(toks, pos, Prec(lhs.bin) + 1))
  }

  // ---------------------------------------------------------------------------
  // Expressions

  /** `parse_term`. */
  function ParseTerm(toks: seq<Token>, pos: nat): (r: Parsed<Term>)
    requires pos <= |toks|
    decreases |toks| - pos, 0
    ensures r.NoMatch? <==> !StartsTerm(toks, pos)
    ensures r.Match? ==> pos < r.next <= |toks|
  {
    match TryConsume(toks, pos, IntLit)
    case Some(tok) => Match(TermIntLit(tok), pos + 1)
    case None =>
    match TryConsume(toks, pos, Ident)
    case Some(tok) => Match(TermIdent(tok), pos + 1)
    case None =>
    match TryConsume(toks, pos, OpenParen)
    case None => NoMatch
    case Some(_) =>
      match ParseExpr(toks, pos + 1, 0)
      case NoMatch => Fail(ExpectedExpression)
      case Fail(err) => Fail(err)
      case Match(e, p) =>
        match Expect(toks, p, CloseParen)
        case Failure(err) => Fail(err)
        case Success(next) =>
          Match(TermParen(e), next)
  }

  /** `parse_expr(min_prec)`: a term, then the precedence-climbing loop. */
  function ParseExpr(toks: seq<Token>, pos: nat, minPrec: nat): (r: Parsed<Expr>)
    requires pos <= |toks|
    decreases |toks| - pos, 1
    ensures r.NoMatch? <==> !StartsTerm(toks, pos)
    ensures r.Match? ==> pos < r.next <= |toks|
  {
    match ParseTerm(toks, pos)
    case NoMatch => NoMatch
    case Fail(err) => Fail(err)
    case Match(t, p) => ExprLoop(toks, TermExpr(t), p, minPrec)
  }

  /** One iteration of `parse_expr`'s `while (true)` loop and the rest of the loop: an
      operator of precedence at least `minPrec` is consumed, the right operand is parsed
      at `prec + 1`, and the two are folded into the left operand. */
  function ExprLoop(toks: seq<Token>, lhs: Expr, pos: nat, minPrec: nat): (r: Parsed<Expr>)
    requires pos <= |toks|
    decreases |toks| - pos, 0
    ensures !r.NoMatch?
    ensures r.Match? ==> pos <= r.next <= |toks|
  {
    match Peek(toks, pos, 0)
    case None => Match(lhs, pos)
    case Some(tok) =>
      match BinPrec(tok.kind)
      case None => Match(lhs, pos)
      case Some(prec) =>
        if prec < minPrec then Match(lhs, pos)
        else
          match ParseExpr(toks, pos + 1, prec + 1)
          case NoMatch => Fail(ExpectedExpression)
          case Fail(err) => Fail(err)
          case Match(rhs, p) =>
            ExprLoop(toks, BinaryExpr(MakeBin(tok.kind, lhs, rhs)), p, minPrec)
  }

  // ---------------------------------------------------------------------------
  // Statements

  /** `parse_scope`: `{`, statements until `parse_stmt` finds no start, then `}`. */
  function ParseScope(toks: seq<Token>, pos: nat): (r: Parsed<Scope>)
    requires pos <= |toks|
    decreases |toks| - pos, 1
    ensures r.NoMatch? <==> !PeekIs(toks, pos, 0, OpenCurly)
    ensures r.Match? ==> pos < r.next <= |toks|
  {
    match TryConsume(toks, pos, OpenCurly)
    case None => NoMatch
    case Some(_) =>
      match StmtList(toks, pos + 1)
      case Fail(err) => Fail(err)
      case Match(ss, p) =>
        match Expect(toks, p, CloseCurly)
        case Failure(err) => Fail(err)
        case Success(next) =>
          Match(Scope(ss), next)
  }

  /** The `while (auto stmt = parse_stmt())` loop of `parse_scope`: it ends, consuming
      nothing more, at the first position where no statement starts. */
  function StmtList(toks: seq<Token>, pos: nat): (r: Parsed<seq<Stmt>>)
    requires pos <= |toks|
    decreases |toks| - pos, 3
    ensures !r.NoMatch?
    ensures r.Match? ==> pos <= r.next <= |toks|
  {
    match ParseStmt(toks, pos)
    case NoMatch => Match([], pos)
    case Fail(err) => Fail(err)
    case Match(s, p) =>
      match StmtList(toks, p)
      case Fail(err) => Fail(err)
      case Match(rest, next) =>
        assert ([s] + rest)[0] == s && ([s] + rest)[1..] == rest;
        Match([s] + rest, next)
  }

  /** `( Expr ) Scope`, the part `if` and `elif` share; every piece is required. */
  function ParseGuarded(toks: seq<Token>, pos: nat): (r: Parsed<Guard>)
    requires pos <= |toks|
    decreases |toks| - pos, 0
    ensures !r.NoMatch?
    ensures r.Match? ==> pos < r.next <= |toks|
  {
    match Expect(toks, pos, OpenParen)
    case Failure(err) => Fail(err)
    case Success(p0) =>
      match ParseExpr(toks, p0, 0)
      case NoMatch => Fail(ExpectedExpression)
      case Fail(err) => Fail(err)
      case Match(c, p1) =>
        match Expect(toks, p1, CloseParen)
        case Failure(err) => Fail(err)
        case Success(p2) =>
          match ParseScope(toks, p2)
          case NoMatch => Fail(ExpectedScope)
          case Fail(err) => Fail(err)
          case Match(sc, next) =>
            Match(Guard(c, sc), next)
  }

  /** `parse_if_pred`: `elif ( Expr ) Scope` followed by an optional further predicate, or
      `else Scope`, which ends the chain. */
  function ParseIfPred(toks: seq<Token>, pos: nat): (r: Parsed<IfPred>)
    requires pos <= |toks|
    decreases |toks| - pos, 0
    ensures r.NoMatch? <==> !StartsPred(toks, pos)
    ensures r.Match? ==> pos < r.next <= |toks|
  {
    match TryConsume(toks, pos, Elif)
    case Some(_) => (
      match ParseGuarded(toks, pos + 1)
      case Fail(err) => Fail(err)
      case Match(Guard(c, sc), p1) =>
        match ParseIfPred(toks, p1)
        case Fail(err) => Fail(err)
        case NoMatch => Match(PredElif(c, sc, None), p1)
        case Match(next, p2) =>
          Match(PredElif(c, sc, Some(next)), p2))
    case None =>
      match TryConsume(toks, pos, Else)
      case None => NoMatch
      case Some(_) =>
        match ParseScope(toks, pos + 1)
        case NoMatch => Fail(ExpectedScope)
        case Fail(err) => Fail(err)
        case Match(sc, p1) =>
          Match(PredElse(sc), p1)
  }

  /** `parse_stmt`, dispatching on up to three tokens of lookahead. */
  function ParseStmt(toks: seq<Token>, pos: nat): (r: Parsed<Stmt>)
    requires pos <= |toks|
    decreases |toks| - pos, 2
    ensures r.NoMatch? <==> !StartsStmt(toks, pos)
    ensures r.Match? ==> pos < r.next <= |toks|
  {
    if PeekIs(toks, pos, 0, Exit) && PeekIs(toks, pos, 1, OpenParen) then
      ParseExit(toks, pos)
    else if PeekIs(toks, pos, 0, Let) && PeekIs(toks, pos, 1, Ident) && PeekIs(toks, pos, 2, Eq) then
      ParseLet(toks, pos)
    else if PeekIs(toks, pos, 0, Ident) && PeekIs(toks, pos, 1, Eq) then
      ParseAssign(toks, pos)
    else if PeekIs(toks, pos, 0, OpenCurly) then
      match ParseScope(toks, pos)
      case Fail(err) => Fail(err)
      case Match(sc, next) => Match(StmtScope(sc), next)
    else if PeekIs(toks, pos, 0, If) then
      ParseIf(toks, pos)
    else
      NoMatch
  }

  /** The `exit ( Expr ) ;` branch of `parse_stmt`, entered on `exit (`. */
  function ParseExit(toks: seq<Token>, pos: nat): (r: Parsed<Stmt>)
    requires pos + 1 < |toks| && toks[pos].kind == Exit && toks[pos + 1].kind == OpenParen
    decreases |toks| - pos, 0
    ensures !r.NoMatch?
    ensures r.Match? ==> pos < r.next <= |toks|
  {
    match ParseExpr(toks, pos + 2, 0)
    case NoMatch => Fail(ExpectedExpression)
    case Fail(err) => Fail(err)
    case Match(e, p) =>
      match Expect(toks, p, CloseParen)
      case Failure(err) => Fail(err)
      case Success(p1) =>
        match Expect(toks, p1, Semi)
        case Failure(err) => Fail(err)
        case Success(next) =>
          Match(StmtExit(e), next)
  }

  /** The `let ident = Expr ;` branch of `parse_stmt`, entered on `let ident =`. */
  function ParseLet(toks: seq<Token>, pos: nat): (r: Parsed<Stmt>)
    requires pos + 2 < |toks| && toks[pos].kind == Let && toks[pos + 1].kind == Ident
    requires toks[pos + 2].kind == Eq
    decreases |toks| - pos, 0
    ensures !r.NoMatch?
    ensures r.Match? ==> pos < r.next <= |toks|
  {
    match ParseExpr(toks, pos + 3, 0)
    case NoMatch => Fail(ExpectedExpression)
    case Fail(err) => Fail(err)
    case Match(e, p) =>
      match Expect(toks, p, Semi)
      case Failure(err) => Fail(err)
      case Success(next) =>
        Match(StmtLet(toks[pos + 1], e), next)
  }

  /** The `ident = Expr ;` branch of `parse_stmt`, entered on `ident =`. */
  function ParseAssign(toks: seq<Token>, pos: nat): (r: Parsed<Stmt>)
    requires pos + 1 < |toks| && toks[pos].kind == Ident && toks[pos + 1].kind == Eq
    decreases |toks| - pos, 0
    ensures !r.NoMatch?
    ensures r.Match? ==> pos < r.next <= |toks|
  {
    match ParseExpr(toks, pos + 2, 0)
    case NoMatch => Fail(ExpectedExpression)
    case Fail(err) => Fail(err)
    case Match(e, p) =>
      match Expect(toks, p, Semi)
      case Failure(err) => Fail(err)
      case Success(next) =>
        Match(StmtAssign(toks[pos], e), next)
  }

  /** The `if ( Expr ) Scope IfPred?` branch of `parse_stmt`, entered on `if`. */
  function ParseIf(toks: seq<Token>, pos: nat): (r: Parsed<Stmt>)
    requires pos < |toks| && toks[pos].kind == If
    decreases |toks| - pos, 0
    ensures !r.NoMatch?
    ensures r.Match? ==> pos < r.next <= |toks|
  {
    match ParseGuarded(toks, pos + 1)
    case Fail(err) => Fail(err)
    case Match(Guard(c, sc), p1) =>
      match ParseIfPred(toks, p1)
      case Fail(err) => Fail(err)
      case NoMatch => Match(StmtIf(c, sc, None), p1)
      case Match(pr, next) =>
        Match(StmtIf(c, sc, Some(pr)), next)
  }

  // ---------------------------------------------------------------------------
  // Programs

  /** `parse_prog`: statements until the tokens run out; a position where no statement
      starts is fatal, so success means every token was consumed. */
  function ParseProg(toks: seq<Token>): (r: Result<Prog, ParseError>)
  {
    var stmts :- ProgLoop(toks, 0);
    Success(Prog(stmts))
  }

  /** The `while (peek().has_value())` loop of `parse_prog`. */
  function ProgLoop(toks: seq<Token>, pos: nat): (r: Result<seq<Stmt>, ParseError>)
    requires pos <= |toks|
    decreases |toks| - pos
  {
    if Peek(toks, pos, 0).None? then Success([])
    else
      match ParseStmt(toks, pos)
      case NoMatch => Failure(InvalidStatement)
      case Fail(err) => Failure(err)
      case Match(s, p) =>
        var rest :- ProgLoop(toks, p);
        assert ([s] + rest)[0] == s && ([s] + rest)[1..] == rest;
        Success([s] + rest)
  }
}
