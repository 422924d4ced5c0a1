/** Every tree the parser returns is one the grammar's shape predicates admit: operators
    respect precedence and left associativity, and bound names are identifier tokens. Each
    lemma follows the parse function of the same name, case by case. */
module ParserShape {
  import opened Wrappers
  import opened Tokens
  import opened Ast
  import opened Grammar
  import opened Parser
  import opened ParserSpelling

  lemma {:induction false} ParseTermShape(toks: seq<Token>, pos: nat)
    requires pos <= |toks|
    decreases |toks| - pos, 0
    ensures var r := ParseTerm(toks, pos); r.Match? ==> TermShaped(r.value)
  {
    if !PeekIs(toks, pos, 0, IntLit) && !PeekIs(toks, pos, 0, Ident) && PeekIs(toks, pos, 0, OpenParen) {
      ParseExprShape(toks, pos + 1, 0);
    }
  }

  /** `parse_expr(minPrec)` returns a tree shaped at `minPrec` and stops where the loop at
      that level has to stop. */
  lemma {:induction false} ParseExprShape(toks: seq<Token>, pos: nat, minPrec: nat)
    requires pos <= |toks|
    decreases |toks| - pos, 1
    ensures var r := ParseExpr(toks, pos, minPrec);
            r.Match? ==> Shaped(r.value, minPrec) && StopsAt(toks, r.next, minPrec)
  {
    ParseTermShape(toks, pos);
    var t := ParseTerm(toks, pos);
    if t.Match? {
      ExprLoopShape(toks, TermExpr(t.value), t.next, minPrec);
    }
  }

  /** The loop keeps `Climbed` as its invariant and ends only where it must stop. */
  lemma {:induction false} ExprLoopShape(toks: seq<Token>, lhs: Expr, pos: nat, minPrec: nat)
    requires pos <= |toks|
    decreases |toks| - pos, 0
    ensures var r := ExprLoop(toks, lhs, pos, minPrec);
            r.Match? ==> StopsAt(toks, r.next, minPrec)
    ensures var r := ExprLoop(toks, lhs, pos, minPrec);
            r.Match? && Climbed(toks, lhs, pos, minPrec) ==> Shaped(r.value, minPrec)
  {
    if pos < |toks| && BinPrec(toks[pos].kind).Some? && minPrec <= BinPrec(toks[pos].kind).value {
      var prec := BinPrec(toks[pos].kind).value;
      ParseExprShape(toks, pos + 1, prec + 1);
      var rr := ParseExpr(toks, pos + 1, prec + 1);
      if rr.Match? {
        FoldStep(toks, lhs, pos, minPrec, rr.value, rr.next);
        ExprLoopShape(toks, BinaryExpr(MakeBin(toks[pos].kind, lhs, rr.value)), rr.next, minPrec);
      }
    }
  }

  /** One fold of the loop keeps the loop state: the folded operand is one the loop
      could have built at the cursor after its right operand. */
  lemma {:induction false} FoldStep(toks: seq<Token>, lhs: Expr, pos: nat, minPrec: nat, rhs: Expr, p: nat)
    requires pos < p <= |toks|
    requires BinPrec(toks[pos].kind).Some? && minPrec <= BinPrec(toks[pos].kind).value
    requires Shaped(rhs, BinPrec(toks[pos].kind).value + 1)
    requires StopsAt(toks, p, BinPrec(toks[pos].kind).value + 1)
    ensures Climbed(toks, lhs, pos, minPrec) ==>
              Climbed(toks, BinaryExpr(MakeBin(toks[pos].kind, lhs, rhs)), p, minPrec)
  {
    var b := MakeBin(toks[pos].kind, lhs, rhs);
    assert Prec(b) == BinPrec(toks[pos].kind).value;
  }

  lemma {:induction false} ParseScopeShape(toks: seq<Token>, pos: nat)
    requires pos <= |toks|
    decreases |toks| - pos, 1
    ensures var r := ParseScope(toks, pos); r.Match? ==> ScopeShaped(r.value)
  {
    if PeekIs(toks, pos, 0, OpenCurly) {
      StmtListShape(toks, pos + 1);
    }
  }

  /** The statement loop of a scope returns shaped statements and stops exactly where no
      statement starts. */
  lemma {:induction false} StmtListShape(toks: seq<Token>, pos: nat)
    requires pos <= |toks|
    decreases |toks| - pos, 3
    ensures var r := StmtList(toks, pos);
            r.Match? ==> StmtsShaped(r.value) && !StartsStmt(toks, r.next)
  {
    ParseStmtShape(toks, pos);
    var s := ParseStmt(toks, pos);
    if s.Match? {
      StmtListShape(toks, s.next);
      var rest := StmtList(toks, s.next);
      if rest.Match? {
        var ss := [s.value] + rest.value;
        assert forall i | 0 < i < |ss| :: ss[i] == rest.value[i - 1];
      }
    }
  }

  lemma {:induction false} ParseGuardedShape(toks: seq<Token>, pos: nat)
    requires pos <= |toks|
    decreases |toks| - pos, 1
    ensures var r := ParseGuarded(toks, pos);
            r.Match? ==> Shaped(r.value.cond, 0) && ScopeShaped(r.value.scope)
  {
    if ParseGuarded(toks, pos).Match? {
      GuardedInversion(toks, pos);
      GuardedPartsShape(toks, pos, ParseExpr(toks, pos + 1, 0).next);
    }
  }

  lemma {:induction false} GuardedPartsShape(toks: seq<Token>, pos: nat, p: nat)
    requires pos < p < |toks| && ParseExpr(toks, pos + 1, 0) .Match? && ParseExpr(toks, pos + 1, 0).next == p
    decreases |toks| - pos, 0
    ensures Shaped(ParseExpr(toks, pos + 1, 0).value, 0)
    ensures ParseScope(toks, p + 1).Match? ==> ScopeShaped(ParseScope(toks, p + 1).value)
  {
    ParseExprShape(toks, pos + 1, 0);
    ParseScopeShape(toks, p + 1);
  }

  lemma {:induction false} ParseIfPredShape(toks: seq<Token>, pos: nat)
    requires pos <= |toks|
    decreases |toks| - pos, 1
    ensures var r := ParseIfPred(toks, pos); r.Match? ==> PredShaped(r.value)
  {
    if ParseIfPred(toks, pos).Match? {
      if toks[pos].kind == Elif {
        ElifShape(toks, pos);
      } else {
        ElseInversion(toks, pos);
        ParseScopeShape(toks, pos + 1);
      }
    }
  }

  lemma {:induction false} ElifShape(toks: seq<Token>, pos: nat)
    requires pos < |toks| && toks[pos].kind == Elif && ParseIfPred(toks, pos).Match?
    decreases |toks| - pos, 0
    ensures PredShaped(ParseIfPred(toks, pos).value)
  {
    ElifInversion(toks, pos);
    ParseGuardedShape(toks, pos + 1);
    ParseIfPredShape(toks, ParseGuarded(toks, pos + 1).next);
  }

  lemma {:induction false} ParseStmtShape(toks: seq<Token>, pos: nat)
    requires pos <= |toks|
    decreases |toks| - pos, 2
    ensures var r := ParseStmt(toks, pos); r.Match? ==> StmtShaped(r.value)
  {
    if PeekIs(toks, pos, 0, Exit) && PeekIs(toks, pos, 1, OpenParen) {
      ParseExitShape(toks, pos);
    } else if PeekIs(toks, pos, 0, Let) && PeekIs(toks, pos, 1, Ident) && PeekIs(toks, pos, 2, Eq) {
      ParseLetShape(toks, pos);
    } else if PeekIs(toks, pos, 0, Ident) && PeekIs(toks, pos, 1, Eq) {
      ParseAssignShape(toks, pos);
    } else if PeekIs(toks, pos, 0, OpenCurly) {
      ParseScopeShape(toks, pos);
    } else if PeekIs(toks, pos, 0, If) {
      ParseIfShape(toks, pos);
    }
  }

  lemma {:induction false} ParseExitShape(toks: seq<Token>, pos: nat)
    requires pos + 1 < |toks| && toks[pos].kind == Exit && toks[pos + 1].kind == OpenParen
    decreases |toks| - pos, 0
    ensures var r := ParseExit(toks, pos); r.Match? ==> StmtShaped(r.value)
  {
    ParseExprShape(toks, pos + 2, 0);
  }

  lemma {:induction false} ParseLetShape(toks: seq<Token>, pos: nat)
    requires pos + 2 < |toks| && toks[pos].kind == Let && toks[pos + 1].kind == Ident
    requires toks[pos + 2].kind == Eq
    decreases |toks| - pos, 0
    ensures var r := ParseLet(toks, pos); r.Match? ==> StmtShaped(r.value)
  {
    ParseExprShape(toks, pos + 3, 0);
  }

  lemma {:induction false} ParseAssignShape(toks: seq<Token>, pos: nat)
    requires pos + 1 < |toks| && toks[pos].kind == Ident && toks[pos + 1].kind == Eq
    decreases |toks| - pos, 0
    ensures var r := ParseAssign(toks, pos); r.Match? ==> StmtShaped(r.value)
  {
    ParseExprShape(toks, pos + 2, 0);
  }

  lemma {:induction false} ParseIfShape(toks: seq<Token>, pos: nat)
    requires pos < |toks| && toks[pos].kind == If
    decreases |toks| - pos, 0
    ensures var r := ParseIf(toks, pos); r.Match? ==> StmtShaped(r.value)
  {
    ParseGuardedShape(toks, pos + 1);
    var g := ParseGuarded(toks, pos + 1);
    if g.Match? {
      ParseIfPredShape(toks, g.next);
    }
  }

  lemma {:induction false} ProgLoopShape(toks: seq<Token>, pos: nat)
    requires pos <= |toks|
    decreases |toks| - pos
    ensures var r := ProgLoop(toks, pos); r.Success? ==> StmtsShaped(r.value)
  {
    if pos < |toks| {
      ParseStmtShape(toks, pos);
      var s := ParseStmt(toks, pos);
      if s.Match? {
        ProgLoopShape(toks, s.next);
        var rest := ProgLoop(toks, s.next);
        if rest.Success? {
          var ss := [s.value] + rest.value;
          assert forall i | 0 < i < |ss| :: ss[i] == rest.value[i - 1];
        }
      }
    }
  }

  /** Every program `parse_prog` accepts is shaped. */
  lemma {:induction false} ParseProgShape(toks: seq<Token>)
    ensures var r := ParseProg(toks); r.Success? ==> ProgShaped(r.value)
  {
    ProgLoopShape(toks, 0);
  }
}
