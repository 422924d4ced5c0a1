/** The front end as src/main.cpp drives it: tokenize the source text, then parse the
    tokens into a program. Either stage can end the compilation. */
module FrontEnd {
  import opened Wrappers
  import opened Tokens
  import opened Ast
  import opened Grammar
  import opened Lexer
  import opened Parser
  import opened ParserShape
  import opened ParserSpelling
  import opened ParserRoundTrip
  import opened LexerRoundTrip
  import opened LexerExamples
  import opened ParserExamples

  /** Which stage stopped the compilation. */
  datatype CompileError = Lexical(lex: LexError) | Syntax(syntax: ParseError)

  /** `tokenize` followed by `parse_prog`. */
  function Compile(src: string): (r: Result<Prog, CompileError>)
  {
    match Tokenize(src)
    case Failure(e) => Failure(Lexical(e))
    case Success(toks) =>
      match ParseProg(toks)
      case Failure(e) => Failure(Syntax(e))
      case Success(p) => Success(p)
  }

  /** A compiled program is shaped, and its spelling is exactly the token sequence of the
      source. */
  lemma {:induction false} CompileSound(src: string)
    ensures var r := Compile(src);
            r.Success? ==> ProgShaped(r.value) && Tokenize(src) == Success(ProgTokens(r.value))
  {
    if Compile(src).Success? {
      var toks := Tokenize(src).value;
      ParseProgShape(toks);
      ParseProgSpells(toks);
    }
  }

  /** Every shaped program whose tokens the tokenizer could have produced compiles back from
      its rendered text. */
  lemma {:induction false} CompileRoundTrip(p: Prog)
    requires ProgShaped(p) && ValidTokens(ProgTokens(p))
    ensures Compile(Render(ProgTokens(p))) == Success(p)
  {
    RenderRoundTrip(ProgTokens(p));
    ProgRoundTrip(p);
  }

  /** A lexical error is reported exactly when the tokenizer fails, and then it is the
      tokenizer's error. */
  lemma {:induction false} CompileLexicalError(src: string)
    ensures Compile(src).Failure? && Compile(src).error.Lexical? <==> Tokenize(src).Failure?
    ensures Tokenize(src).Failure? ==> Compile(src) == Failure(Lexical(Tokenize(src).error))
  {
  }

  /** Source text the tokenizer accepts compiles exactly when its tokens spell some shaped
      program. */
  lemma {:induction false} CompileExactly(src: string)
    requires Tokenize(src).Success?
    ensures Compile(src).Success? <==>
            exists p: Prog :: ProgShaped(p) && ProgTokens(p) == Tokenize(src).value
  {
    var toks := Tokenize(src).value;
    if Compile(src).Success? {
      CompileSound(src);
    }
    if exists p: Prog :: ProgShaped(p) && ProgTokens(p) == toks {
      var p: Prog :| ProgShaped(p) && ProgTokens(p) == toks;
      ProgRoundTrip(p);
    }
  }

  // ---------------------------------------------------------------------------
  // Whole inputs

  /** `exit(42);` compiles to the one statement `exit` of the literal. */
  lemma {:induction false} ExitLiteralCompiles(d: string)
    requires IsDigitText(d)
    ensures Compile("exit(" + d + ");") == Success(Prog([StmtExit(TermExpr(TermIntLit(Token(IntLit, Some(d)))))]))
  {
    var st := StmtExit(TermExpr(TermIntLit(Token(IntLit, Some(d)))));
    var p := Prog([st]);
    ExitStatementTokens(d);
    assert [st][0] == st && [st][1..] == [];
    assert StmtShaped(st);
    var lit := Token(IntLit, Some(d));
    assert ExprTokens(TermExpr(TermIntLit(lit))) == [lit];
    assert [Punct(Exit), Punct(OpenParen)] + [lit] + [Punct(CloseParen), Punct(Semi)] ==
           [Punct(Exit), Punct(OpenParen), lit, Punct(CloseParen), Punct(Semi)];
    assert StmtTokens(st) == [Token(Exit, None), Token(OpenParen, None), Token(IntLit, Some(d)),
                              Token(CloseParen, None), Token(Semi, None)];
    assert StmtsTokens([st]) == StmtTokens(st) + StmtsTokens([]);
    assert ProgTokens(p) == [Token(Exit, None), Token(OpenParen, None), Token(IntLit, Some(d)),
                             Token(CloseParen, None), Token(Semi, None)];
    ProgRoundTrip(p);
  }

  /** `exit(1` stops at the missing `)`. */
  lemma {:induction false} UnclosedExitFails(d: string)
    requires IsDigitText(d)
    ensures Compile("exit(" + d) == Failure(Syntax(MissingToken(CloseParen)))
  {
    assert "exit(" + d == "exit" + (['('] + d);
    UnclosedCallTokens("exit", d);
    ExitWithoutClose(Token(IntLit, Some(d)));
  }

  /** A character no rule accepts is harmless inside a comment: only characters the scan
      reaches outside comments are lexical errors. */
  lemma {:induction false} CommentHidesUnrecognized()
    ensures Compile("//$") == Success(Prog([]))
  {
    assert "//$" == "//" + "$";
    LineCommentAtEnd("$");
  }

  /** The same character outside a comment stops the compilation. */
  lemma {:induction false} UnrecognizedStops()
    ensures Compile("$") == Failure(Lexical(Unrecognized('$')))
  {
    DollarFails();
  }
}
