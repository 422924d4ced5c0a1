/** What the parser consumes is exactly what it returns: on a lexer-shaped token sequence
    every `Match(v, next)` from position `pos` spells `v` as the tokens `pos..next`, so no
    token is skipped, dropped or reordered. */
module ParserSpelling {
  import opened Wrappers
  import opened Tokens
  import opened Ast
  import opened Grammar
  import opened Parser
  import opened Prefix

  /** A value-less token of a lexer-shaped sequence is its bare kind. */
  lemma {:induction false} PunctAt(toks: seq<Token>, i: nat)
    requires ValidTokens(toks) && i < |toks| && toks[i].kind !in {Ident, IntLit}
    ensures toks[i] == Punct(toks[i].kind)
  {
    assert WellFormed(toks[i]);
  }

  /** ... so it spells its kind. */
  lemma {:induction false} PunctSpans(toks: seq<Token>, i: nat)
    requires ValidTokens(toks) && i < |toks| && toks[i].kind !in {Ident, IntLit}
    ensures Spans(toks, i, i + 1, [Punct(toks[i].kind)])
  {
    PunctAt(toks, i);
    SpansOne(toks, i);
  }

  /** A punctuation token, the tokens spelling `w`, and a closing punctuation token. */
  lemma {:induction false} Bracketed(toks: seq<Token>, pos: nat, p: nat, w: seq<Token>)
    requires ValidTokens(toks) && pos < p < |toks|
    requires toks[pos].kind !in {Ident, IntLit} && toks[p].kind !in {Ident, IntLit}
    requires Spans(toks, pos + 1, p, w)
    ensures Spans(toks, pos, p + 1, [Punct(toks[pos].kind)] + w + [Punct(toks[p].kind)])
  {
    PunctSpans(toks, pos);
    SpansJoin(toks, pos, pos + 1, p, [Punct(toks[pos].kind)], w);
    PunctSpans(toks, p);
    SpansJoin(toks, pos, p, p + 1, [Punct(toks[pos].kind)] + w, [Punct(toks[p].kind)]);
  }

  /** A statement followed by a statement list. */
  lemma {:induction false} ConsSpans(toks: seq<Token>, pos: nat, p: nat, q: nat, s: Stmt, rest: seq<Stmt>)
    requires Spans(toks, pos, p, StmtTokens(s)) && Spans(toks, p, q, StmtsTokens(rest))
    ensures Spans(toks, pos, q, StmtsTokens([s] + rest))
  {
    assert ([s] + rest)[0] == s && ([s] + rest)[1..] == rest;
    SpansJoin(toks, pos, p, q, StmtTokens(s), StmtsTokens(rest));
  }

  // ---------------------------------------------------------------------------
  // Expressions

  lemma {:induction false} ParseTermSpells(toks: seq<Token>, pos: nat)
    requires ValidTokens(toks) && pos <= |toks|
    ensures var r := ParseTerm(toks, pos);
            r.Match? ==> Spans(toks, pos, r.next, TermTokens(r.value))
    decreases |toks| - pos, 0
  {
    var r := ParseTerm(toks, pos);
    if r.Match? {
      if toks[pos].kind == OpenParen {
        ParseExprSpells(toks, pos + 1, 0);
        var e := ParseExpr(toks, pos + 1, 0);
        Bracketed(toks, pos, e.next, ExprTokens(e.value));
      } else {
        SpansOne(toks, pos);
      }
    }
  }

  lemma {:induction false} ParseExprSpells(toks: seq<Token>, pos: nat, minPrec: nat)
    requires ValidTokens(toks) && pos <= |toks|
    ensures var r := ParseExpr(toks, pos, minPrec);
            r.Match? ==> Spans(toks, pos, r.next, ExprTokens(r.value))
    decreases |toks| - pos, 1
  {
    ParseTermSpells(toks, pos);
    var t := ParseTerm(toks, pos);
    if t.Match? {
      ExprLoopSpells(toks, pos, TermExpr(t.value), t.next, minPrec);
    }
  }

  /** The loop extends the spelling of its left operand, which begins at `start`, by the
      tokens it consumes. */
  lemma {:induction false} ExprLoopSpells(toks: seq<Token>, start: nat, lhs: Expr, pos: nat, minPrec: nat)
    requires ValidTokens(toks) && pos <= |toks| && Spans(toks, start, pos, ExprTokens(lhs))
    ensures var r := ExprLoop(toks, lhs, pos, minPrec);
            r.Match? ==> Spans(toks, start, r.next, ExprTokens(r.value))
    decreases |toks| - pos, 0
  {
    if pos < |toks| && BinPrec(toks[pos].kind).Some? && minPrec <= BinPrec(toks[pos].kind).value {
      var prec := BinPrec(toks[pos].kind).value;
      ParseExprSpells(toks, pos + 1, prec + 1);
      var rr := ParseExpr(toks, pos + 1, prec + 1);
      if rr.Match? {
        var b := MakeBin(toks[pos].kind, lhs, rr.value);
        FoldSpells(toks, start, pos, b, rr.next);
        ExprLoopSpells(toks, start, BinaryExpr(b), rr.next, minPrec);
      }
    }
  }

  /** The left operand, the operator and the right operand spell the binary node. */
  lemma {:induction false} FoldSpells(toks: seq<Token>, start: nat, pos: nat, b: BinExpr, p: nat)
    requires ValidTokens(toks) && pos < p <= |toks| && OpKind(b) == toks[pos].kind
    requires Spans(toks, start, pos, ExprTokens(b.lhs)) && Spans(toks, pos + 1, p, ExprTokens(b.rhs))
    ensures Spans(toks, start, p, ExprTokens(BinaryExpr(b)))
  {
    PunctSpans(toks, pos);
    SpansJoin(toks, start, pos, pos + 1, ExprTokens(b.lhs), [Punct(OpKind(b))]);
    SpansJoin(toks, start, pos + 1, p, ExprTokens(b.lhs) + [Punct(OpKind(b))], ExprTokens(b.rhs));
  }

  // ---------------------------------------------------------------------------
  // Statements

  lemma {:induction false} ParseScopeSpells(toks: seq<Token>, pos: nat)
    requires ValidTokens(toks) && pos <= |toks|
    ensures var r := ParseScope(toks, pos);
            r.Match? ==> Spans(toks, pos, r.next, ScopeTokens(r.value))
    decreases |toks| - pos, 1
  {
    var r := ParseScope(toks, pos);
    if r.Match? {
      StmtListSpells(toks, pos + 1);
      var ss := StmtList(toks, pos + 1);
      Bracketed(toks, pos, ss.next, StmtsTokens(ss.value));
    }
  }

  lemma {:induction false} StmtListSpells(toks: seq<Token>, pos: nat)
    requires ValidTokens(toks) && pos <= |toks|
    ensures var r := StmtList(toks, pos);
            r.Match? ==> Spans(toks, pos, r.next, StmtsTokens(r.value))
    decreases |toks| - pos, 3
  {
    var s := ParseStmt(toks, pos);
    if s.Match? {
      ParseStmtSpells(toks, pos);
      StmtListSpells(toks, s.next);
      var rest := StmtList(toks, s.next);
      if rest.Match? {
        ConsSpans(toks, pos, s.next, rest.next, s.value, rest.value);
      }
    }
  }

  lemma {:induction false} ParseGuardedSpells(toks: seq<Token>, pos: nat)
    requires ValidTokens(toks) && pos <= |toks|
    ensures var r := ParseGuarded(toks, pos);
            r.Match? ==> Spans(toks, pos, r.next, GuardedTokens(r.value.cond, r.value.scope))
    decreases |toks| - pos, 0
  {
    var r := ParseGuarded(toks, pos);
    if r.Match? {
      GuardedInversion(toks, pos);
      ParseExprSpells(toks, pos + 1, 0);
      var c := ParseExpr(toks, pos + 1, 0);
      ParseScopeSpells(toks, c.next + 1);
      GuardedPieces(toks, pos, c.next, r.next, c.value, r.value.scope);
    }
  }

  /** `(`, the tokens spelling `c`, `)` and the tokens spelling `sc` spell `( c ) sc`. */
  lemma {:induction false} GuardedPieces(toks: seq<Token>, pos: nat, p: nat, q: nat, c: Expr, sc: Scope)
    requires ValidTokens(toks) && pos < p < |toks|
    requires toks[pos].kind == OpenParen && toks[p].kind == CloseParen
    requires Spans(toks, pos + 1, p, ExprTokens(c)) && Spans(toks, p + 1, q, ScopeTokens(sc))
    ensures Spans(toks, pos, q, GuardedTokens(c, sc))
  {
    Bracketed(toks, pos, p, ExprTokens(c));
    SpansJoin(toks, pos, p + 1, q, [Punct(OpenParen)] + ExprTokens(c) + [Punct(CloseParen)], ScopeTokens(sc));
  }

  /** What a successful `( Expr ) Scope` consumed, piece by piece. */
  lemma {:induction false} GuardedInversion(toks: seq<Token>, pos: nat)
    requires pos <= |toks| && ParseGuarded(toks, pos).Match?
    ensures pos < |toks| && toks[pos].kind == OpenParen
    ensures var r, c := ParseGuarded(toks, pos), ParseExpr(toks, pos + 1, 0);
            c.Match? && c.value == r.value.cond && c.next < |toks| && toks[c.next].kind == CloseParen &&
            ParseScope(toks, c.next + 1) == Match(r.value.scope, r.next)
  {
  }

  lemma {:induction false} ParseIfPredSpells(toks: seq<Token>, pos: nat)
    requires ValidTokens(toks) && pos <= |toks|
    ensures var r := ParseIfPred(toks, pos);
            r.Match? ==> Spans(toks, pos, r.next, PredTokens(r.value))
    decreases |toks| - pos, 1
  {
    if ParseIfPred(toks, pos).Match? {
      if toks[pos].kind == Elif {
        ElifSpells(toks, pos);
      } else {
        ElseSpells(toks, pos);
      }
    }
  }

  lemma {:induction false} ElifSpells(toks: seq<Token>, pos: nat)
    requires ValidTokens(toks) && pos < |toks| && toks[pos].kind == Elif
    requires ParseIfPred(toks, pos).Match?
    ensures var r := ParseIfPred(toks, pos);
            Spans(toks, pos, r.next, PredTokens(r.value))
    decreases |toks| - pos, 0
  {
    var r := ParseIfPred(toks, pos);
    ElifInversion(toks, pos);
    ParseGuardedSpells(toks, pos + 1);
    var g := ParseGuarded(toks, pos + 1);
    ParseIfPredSpells(toks, g.next);
    ChainPieces(toks, pos, g.next, r.next, g.value.cond, g.value.scope, r.value.pred);
  }

  /** A keyword, the tokens spelling `( c ) sc`, and the tokens spelling the optional
      predicate. */
  lemma {:induction false} ChainPieces(toks: seq<Token>, pos: nat, g: nat, q: nat, c: Expr, sc: Scope,
                                       next: Option<IfPred>)
    requires ValidTokens(toks) && pos < |toks| && toks[pos].kind !in {Ident, IntLit}
    requires Spans(toks, pos + 1, g, GuardedTokens(c, sc)) && Spans(toks, g, q, OptPredTokens(next))
    ensures Spans(toks, pos, q, [Punct(toks[pos].kind)] + GuardedTokens(c, sc) + OptPredTokens(next))
  {
    PunctSpans(toks, pos);
    SpansJoin(toks, pos, pos + 1, g, [Punct(toks[pos].kind)], GuardedTokens(c, sc));
    SpansJoin(toks, pos, g, q, [Punct(toks[pos].kind)] + GuardedTokens(c, sc), OptPredTokens(next));
  }

  /** What a successful `elif ( Expr ) Scope IfPred?` consumed, piece by piece. */
  lemma {:induction false} ElifInversion(toks: seq<Token>, pos: nat)
    requires pos < |toks| && toks[pos].kind == Elif && ParseIfPred(toks, pos).Match?
    ensures var r, g := ParseIfPred(toks, pos), ParseGuarded(toks, pos + 1);
            g.Match? && r.value.PredElif? && r.value.cond == g.value.cond && r.value.scope == g.value.scope &&
            var next := ParseIfPred(toks, g.next);
            (next.NoMatch? ==> r.value.pred == None && r.next == g.next) &&
            (!next.NoMatch? ==> next == Match(r.value.pred.value, r.next) && r.value.pred.Some?)
  {
  }

  lemma {:induction false} ElseSpells(toks: seq<Token>, pos: nat)
    requires ValidTokens(toks) && pos < |toks| && toks[pos].kind != Elif
    requires ParseIfPred(toks, pos).Match?
    ensures var r := ParseIfPred(toks, pos);
            Spans(toks, pos, r.next, PredTokens(r.value))
    decreases |toks| - pos, 0
  {
    var r := ParseIfPred(toks, pos);
    ElseInversion(toks, pos);
    PunctSpans(toks, pos);
    ParseScopeSpells(toks, pos + 1);
    SpansJoin(toks, pos, pos + 1, r.next, [Punct(Else)], ScopeTokens(r.value.scope));
  }

  /** What a successful `else Scope` consumed. */
  lemma {:induction false} ElseInversion(toks: seq<Token>, pos: nat)
    requires pos < |toks| && toks[pos].kind != Elif && ParseIfPred(toks, pos).Match?
    ensures toks[pos].kind == Else
    ensures var r := ParseIfPred(toks, pos);
            r.value.PredElse? && ParseScope(toks, pos + 1) == Match(r.value.scope, r.next)
  {
  }

  lemma {:induction false} ParseStmtSpells(toks: seq<Token>, pos: nat)
    requires ValidTokens(toks) && pos <= |toks|
    ensures var r := ParseStmt(toks, pos);
            r.Match? ==> Spans(toks, pos, r.next, StmtTokens(r.value))
    decreases |toks| - pos, 2
  {
    if PeekIs(toks, pos, 0, Exit) && PeekIs(toks, pos, 1, OpenParen) {
      ParseExitSpells(toks, pos);
    } else if PeekIs(toks, pos, 0, Let) && PeekIs(toks, pos, 1, Ident) && PeekIs(toks, pos, 2, Eq) {
      ParseLetSpells(toks, pos);
    } else if PeekIs(toks, pos, 0, Ident) && PeekIs(toks, pos, 1, Eq) {
      ParseAssignSpells(toks, pos);
    } else if PeekIs(toks, pos, 0, OpenCurly) {
      ParseScopeSpells(toks, pos);
    } else if PeekIs(toks, pos, 0, If) {
      ParseIfSpells(toks, pos);
    }
  }

  lemma {:induction false} ParseExitSpells(toks: seq<Token>, pos: nat)
    requires ValidTokens(toks) && pos + 1 < |toks|
    requires toks[pos].kind == Exit && toks[pos + 1].kind == OpenParen
    ensures var r := ParseExit(toks, pos);
            r.Match? ==> Spans(toks, pos, r.next, StmtTokens(r.value))
  {
    var r := ParseExit(toks, pos);
    if r.Match? {
      ParseExprSpells(toks, pos + 2, 0);
      var e := ParseExpr(toks, pos + 2, 0);
      ExitPieces(toks, pos, e.next, e.value);
    }
  }

  /** `exit (`, the tokens spelling `e`, `) ;`. */
  lemma {:induction false} ExitPieces(toks: seq<Token>, pos: nat, p: nat, e: Expr)
    requires ValidTokens(toks) && pos + 1 < p && p + 1 < |toks|
    requires toks[pos].kind == Exit && toks[pos + 1].kind == OpenParen
    requires toks[p].kind == CloseParen && toks[p + 1].kind == Semi
    requires Spans(toks, pos + 2, p, ExprTokens(e))
    ensures Spans(toks, pos, p + 2, StmtTokens(StmtExit(e)))
  {
    PunctSpans(toks, pos);
    PunctSpans(toks, pos + 1);
    SpansJoin(toks, pos, pos + 1, pos + 2, [Punct(Exit)], [Punct(OpenParen)]);
    assert [Punct(Exit)] + [Punct(OpenParen)] == [Punct(Exit), Punct(OpenParen)];
    SpansJoin(toks, pos, pos + 2, p, [Punct(Exit), Punct(OpenParen)], ExprTokens(e));
    PunctSpans(toks, p);
    PunctSpans(toks, p + 1);
    SpansJoin(toks, p, p + 1, p + 2, [Punct(CloseParen)], [Punct(Semi)]);
    assert [Punct(CloseParen)] + [Punct(Semi)] == [Punct(CloseParen), Punct(Semi)];
    SpansJoin(toks, pos, p, p + 2, [Punct(Exit), Punct(OpenParen)] + ExprTokens(e), [Punct(CloseParen), Punct(Semi)]);
  }

  lemma {:induction false} ParseLetSpells(toks: seq<Token>, pos: nat)
    requires ValidTokens(toks) && pos + 2 < |toks|
    requires toks[pos].kind == Let && toks[pos + 1].kind == Ident && toks[pos + 2].kind == Eq
    ensures var r := ParseLet(toks, pos);
            r.Match? ==> Spans(toks, pos, r.next, StmtTokens(r.value))
  {
    var r := ParseLet(toks, pos);
    if r.Match? {
      ParseExprSpells(toks, pos + 3, 0);
      var e := ParseExpr(toks, pos + 3, 0);
      LetPieces(toks, pos, e.next, e.value);
    }
  }

  /** `let ident =`, the tokens spelling `e`, `;`. */
  lemma {:induction false} LetPieces(toks: seq<Token>, pos: nat, p: nat, e: Expr)
    requires ValidTokens(toks) && pos + 2 < p < |toks|
    requires toks[pos].kind == Let && toks[pos + 2].kind == Eq && toks[p].kind == Semi
    requires Spans(toks, pos + 3, p, ExprTokens(e))
    ensures Spans(toks, pos, p + 1, StmtTokens(StmtLet(toks[pos + 1], e)))
  {
    var id := toks[pos + 1];
    PunctSpans(toks, pos);
    SpansOne(toks, pos + 1);
    PunctSpans(toks, pos + 2);
    SpansJoin(toks, pos, pos + 1, pos + 2, [Punct(Let)], [id]);
    SpansJoin(toks, pos, pos + 2, pos + 3, [Punct(Let)] + [id], [Punct(Eq)]);
    assert [Punct(Let)] + [id] + [Punct(Eq)] == [Punct(Let), id, Punct(Eq)];
    SpansJoin(toks, pos, pos + 3, p, [Punct(Let), id, Punct(Eq)], ExprTokens(e));
    PunctSpans(toks, p);
    SpansJoin(toks, pos, p, p + 1, [Punct(Let), id, Punct(Eq)] + ExprTokens(e), [Punct(Semi)]);
  }

  lemma {:induction false} ParseAssignSpells(toks: seq<Token>, pos: nat)
    requires ValidTokens(toks) && pos + 1 < |toks|
    requires toks[pos].kind == Ident && toks[pos + 1].kind == Eq
    ensures var r := ParseAssign(toks, pos);
            r.Match? ==> Spans(toks, pos, r.next, StmtTokens(r.value))
  {
    var r := ParseAssign(toks, pos);
    if r.Match? {
      ParseExprSpells(toks, pos + 2, 0);
      var e := ParseExpr(toks, pos + 2, 0);
      AssignPieces(toks, pos, e.next, e.value);
    }
  }

  /** `ident =`, the tokens spelling `e`, `;`. */
  lemma {:induction false} AssignPieces(toks: seq<Token>, pos: nat, p: nat, e: Expr)
    requires ValidTokens(toks) && pos + 1 < p < |toks|
    requires toks[pos + 1].kind == Eq && toks[p].kind == Semi
    requires Spans(toks, pos + 2, p, ExprTokens(e))
    ensures Spans(toks, pos, p + 1, StmtTokens(StmtAssign(toks[pos], e)))
  {
    var id := toks[pos];
    SpansOne(toks, pos);
    PunctSpans(toks, pos + 1);
    SpansJoin(toks, pos, pos + 1, pos + 2, [id], [Punct(Eq)]);
    assert [id] + [Punct(Eq)] == [id, Punct(Eq)];
    SpansJoin(toks, pos, pos + 2, p, [id, Punct(Eq)], ExprTokens(e));
    PunctSpans(toks, p);
    SpansJoin(toks, pos, p, p + 1, [id, Punct(Eq)] + ExprTokens(e), [Punct(Semi)]);
  }

  lemma {:induction false} ParseIfSpells(toks: seq<Token>, pos: nat)
    requires ValidTokens(toks) && pos < |toks| && toks[pos].kind == If
    ensures var r := ParseIf(toks, pos);
            r.Match? ==> Spans(toks, pos, r.next, StmtTokens(r.value))
    decreases |toks| - pos, 0
  {
    var r := ParseIf(toks, pos);
    if r.Match? {
      IfInversion(toks, pos);
      ParseGuardedSpells(toks, pos + 1);
      var g := ParseGuarded(toks, pos + 1);
      ParseIfPredSpells(toks, g.next);
      ChainPieces(toks, pos, g.next, r.next, g.value.cond, g.value.scope, r.value.pred);
    }
  }

  /** What a successful `if ( Expr ) Scope IfPred?` consumed, piece by piece. */
  lemma {:induction false} IfInversion(toks: seq<Token>, pos: nat)
    requires pos < |toks| && toks[pos].kind == If && ParseIf(toks, pos).Match?
    ensures var r, g := ParseIf(toks, pos), ParseGuarded(toks, pos + 1);
            g.Match? && r.value.StmtIf? && r.value.cond == g.value.cond && r.value.scope == g.value.scope &&
            var next := ParseIfPred(toks, g.next);
            (next.NoMatch? ==> r.value.pred == None && r.next == g.next) &&
            (!next.NoMatch? ==> next == Match(r.value.pred.value, r.next) && r.value.pred.Some?)
  {
  }

  // ---------------------------------------------------------------------------
  // Programs

  lemma {:induction false} ProgLoopSpells(toks: seq<Token>, pos: nat)
    requires ValidTokens(toks) && pos <= |toks|
    ensures var r := ProgLoop(toks, pos);
            r.Success? ==> Spans(toks, pos, |toks|, StmtsTokens(r.value))
    decreases |toks| - pos
  {
    var r := ProgLoop(toks, pos);
    if r.Success? && pos < |toks| {
      ParseStmtSpells(toks, pos);
      var s := ParseStmt(toks, pos);
      ProgLoopSpells(toks, s.next);
      ProgLoopInversion(toks, pos);
      ConsSpans(toks, pos, s.next, |toks|, s.value, ProgLoop(toks, s.next).value);
    }
  }

  /** What a successful non-empty turn of the program loop consumed. */
  lemma {:induction false} ProgLoopInversion(toks: seq<Token>, pos: nat)
    requires pos < |toks| && ProgLoop(toks, pos).Success?
    ensures var r, s := ProgLoop(toks, pos), ParseStmt(toks, pos);
            s.Match? && ProgLoop(toks, s.next).Success? &&
            r.value == [s.value] + ProgLoop(toks, s.next).value
  {
  }

  /** A program parsed from lexer-shaped tokens spells exactly those tokens. */
  lemma {:induction false} ParseProgSpells(toks: seq<Token>)
    requires ValidTokens(toks)
    ensures var r := ParseProg(toks);
            r.Success? ==> ProgTokens(r.value) == toks
  {
    ProgLoopSpells(toks, 0);
    var r := ParseProg(toks);
    if r.Success? {
      AtSlice(toks, 0, StmtsTokens(r.value.stmts));
      assert toks[0..|toks|] == toks;
    }
  }
}
