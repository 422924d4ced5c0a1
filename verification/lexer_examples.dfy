/** Small inputs whose tokens follow from the one-token laws: maximal munch decides where
    a word or a number ends, and keywords are only whole words. */
module LexerExamples {
  import opened Wrappers
  import opened Tokens
  import opened Lexer
  import opened LexerRoundTrip

  /** A whole input that is one word is exactly its word token: a keyword or an identifier. */
  lemma {:induction false} WholeWord(w: string)
    requires IsIdentText(w)
    ensures Tokenize(w) == Success([WordToken(w)])
    ensures IsKeyword(w) ==> Tokenize(w) == Success([Token(KeywordKind(w).value, None)])
    ensures !IsKeyword(w) ==> Tokenize(w) == Success([Token(Ident, Some(w))])
  {
    assert w + "" == w;
    WordFirst(w, "");
    assert [WordToken(w)] + [] == [WordToken(w)];
  }

  /** A keyword followed by more alphanumerics is one identifier. */
  lemma {:induction false} KeywordPrefixIsIdent()
    ensures Tokenize("exit1") == Success([Token(Ident, Some("exit1"))])
    ensures Tokenize("elseif") == Success([Token(Ident, Some("elseif"))])
  {
    WholeWord("exit1");
    WholeWord("elseif");
  }

  /** A digit run ends at the first letter, which starts a new word: `12ab` is `12`, `ab`. */
  lemma {:induction false} NumberThenWord(d: string, w: string)
    requires IsDigitText(d) && IsIdentText(w)
    ensures Tokenize(d + w) == Success([Token(IntLit, Some(d)), WordToken(w)])
  {
    WholeWord(w);
    DigitFirst(d, w);
    assert [Token(IntLit, Some(d))] + [WordToken(w)] == [Token(IntLit, Some(d)), WordToken(w)];
  }

  /** A `/` between two words is division. */
  lemma {:induction false} SlashIsDivision(a: string, b: string)
    requires IsIdentText(a) && IsIdentText(b)
    ensures Tokenize(a + "/" + b) == Success([WordToken(a), Token(Div, None), WordToken(b)])
  {
    WholeWord(b);
    PunctFirst('/', b);
    assert a + "/" + b == a + (['/'] + b);
    WordFirst(a, ['/'] + b);
    assert [WordToken(a)] + ([Token(Div, None)] + [WordToken(b)]) ==
           [WordToken(a), Token(Div, None), WordToken(b)];
  }

  /** The closing `);` of a statement is two tokens. */
  lemma {:induction false} CloseSemiTokens()
    ensures Tokenize([')', ';']) == Success([Token(CloseParen, None), Token(Semi, None)])
  {
    var semi: string := [';'];
    assert semi == [';'] + "";
    PunctFirst(';', "");
    assert [')', ';'] == [')'] + semi;
    PunctFirst(')', semi);
    assert [Token(CloseParen, None)] + ([Token(Semi, None)] + []) ==
           [Token(CloseParen, None), Token(Semi, None)];
  }

  /** A literal followed by `);` is three tokens. */
  lemma {:induction false} LiteralCloseTokens(d: string)
    requires IsDigitText(d)
    ensures Tokenize(d + [')', ';']) ==
            Success([Token(IntLit, Some(d)), Token(CloseParen, None), Token(Semi, None)])
  {
    CloseSemiTokens();
    DigitFirst(d, [')', ';']);
    assert [Token(IntLit, Some(d))] + [Token(CloseParen, None), Token(Semi, None)] ==
           [Token(IntLit, Some(d)), Token(CloseParen, None), Token(Semi, None)];
  }

  /** `(`, a literal and `);` are four tokens. */
  lemma {:induction false} ArgumentTokens(d: string)
    requires IsDigitText(d)
    ensures Tokenize(['('] + (d + [')', ';'])) ==
            Success([Token(OpenParen, None), Token(IntLit, Some(d)), Token(CloseParen, None), Token(Semi, None)])
  {
    LiteralCloseTokens(d);
    PunctFirst('(', d + [')', ';']);
    assert [Token(OpenParen, None)] + [Token(IntLit, Some(d)), Token(CloseParen, None), Token(Semi, None)] ==
           [Token(OpenParen, None), Token(IntLit, Some(d)), Token(CloseParen, None), Token(Semi, None)];
  }

  /** A word, `(`, a literal and `);` are five tokens. */
  lemma {:induction false} CallTokens(w: string, d: string)
    requires IsIdentText(w) && IsDigitText(d)
    ensures Tokenize(w + (['('] + (d + [')', ';']))) ==
            Success([WordToken(w), Token(OpenParen, None), Token(IntLit, Some(d)),
                     Token(CloseParen, None), Token(Semi, None)])
  {
    ArgumentTokens(d);
    WordFirst(w, ['('] + (d + [')', ';']));
    assert [WordToken(w)] + [Token(OpenParen, None), Token(IntLit, Some(d)), Token(CloseParen, None), Token(Semi, None)] ==
           [WordToken(w), Token(OpenParen, None), Token(IntLit, Some(d)),
            Token(CloseParen, None), Token(Semi, None)];
  }

  /** A word, `(` and a literal with nothing after it are three tokens. */
  lemma {:induction false} UnclosedCallTokens(w: string, d: string)
    requires IsIdentText(w) && IsDigitText(d)
    ensures Tokenize(w + (['('] + d)) ==
            Success([WordToken(w), Token(OpenParen, None), Token(IntLit, Some(d))])
  {
    assert d == d + "";
    DigitFirst(d, "");
    PunctFirst('(', d);
    WordFirst(w, ['('] + d);
    assert [WordToken(w)] + ([Token(OpenParen, None)] + ([Token(IntLit, Some(d))] + [])) ==
           [WordToken(w), Token(OpenParen, None), Token(IntLit, Some(d))];
  }

  /** `exit(42);` is five tokens, whatever the digits. */
  lemma {:induction false} ExitStatementTokens(d: string)
    requires IsDigitText(d)
    ensures Tokenize("exit(" + d + ");") ==
            Success([Token(Exit, None), Token(OpenParen, None), Token(IntLit, Some(d)),
                     Token(CloseParen, None), Token(Semi, None)])
  {
    assert "exit(" + d + ");" == "exit" + (['('] + (d + [')', ';']));
    CallTokens("exit", d);
  }

  /** A `$` anywhere the scan reaches is a lexical error. */
  lemma {:induction false} DollarFails()
    ensures Tokenize("$") == Failure(Unrecognized('$'))
  {
    assert "$" == ['$'] + "";
    UnrecognizedFails('$', "");
  }

  /** Written without a separator, `let` and `x` merge into one identifier: tokens have to
      be kept apart when they are rendered. */
  lemma {:induction false} AdjacentWordsMerge()
    ensures Tokenize("let" + "x") == Success([Token(Ident, Some("letx"))])
  {
    assert "let" + "x" == "letx";
    WholeWord("letx");
  }
}
