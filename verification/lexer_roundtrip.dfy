/** The tokenizer inverts rendering: writing lexer-shaped tokens out, each followed by a
    space, and tokenizing the text gives the tokens back. Also the comment and error rules
    of `tokenize` stated on whole inputs. */
module LexerRoundTrip {
  import opened Wrappers
  import opened Tokens
  import opened Lexer

  /** The character a value-less, non-keyword token kind is written with. */
  function PunctChar(k: TokenKind): (c: char)
    requires k !in {Ident, IntLit, Exit, Let, If, Elif, Else}
    ensures PunctKind(c) == Some(k)
  {
    match k
    case OpenParen => '('
    case CloseParen => ')'
    case Semi => ';'
    case Eq => '='
    case Plus => '+'
    case Star => '*'
    case Sub => '-'
    case Div => '/'
    case OpenCurly => '{'
    case CloseCurly => '}'
  }

  /** The word a keyword kind is written with. */
  function KeywordText(k: TokenKind): (w: string)
    requires k in {Exit, Let, If, Elif, Else}
    ensures IsIdentText(w) && KeywordKind(w) == Some(k)
  {
    match k
    case Exit => "exit"
    case Let => "let"
    case If => "if"
    case Elif => "elif"
    case Else => "else"
  }

  /** How a token is written in source text. */
  function Spell(t: Token): string
    requires WellFormed(t)
  {
    match t.kind
    case Ident => t.value.value
    case IntLit => t.value.value
    case Exit => KeywordText(Exit)
    case Let => KeywordText(Let)
    case If => KeywordText(If)
    case Elif => KeywordText(Elif)
    case Else => KeywordText(Else)
    case _ => [PunctChar(t.kind)]
  }

  /** Every token written out and followed by a space, which keeps adjacent words apart
      and keeps `/` from starting a comment with the token after it. */
  function Render(ts: seq<Token>): string
    requires ValidTokens(ts)
  {
    if |ts| == 0 then "" else Spell(ts[0]) + " " + Render(ts[1..])
  }

  /** `t` in front of the tokens of a successful scan; a failure passes through. */
  function Prefixed(t: Token, r: Result<seq<Token>, LexError>): Result<seq<Token>, LexError> {
    match r
    case Success(ts) => Success([t] + ts)
    case Failure(e) => Failure(e)
  }

  // ---------------------------------------------------------------------------
  // One token at a time

  /** White space is skipped. */
  lemma {:induction false} SpaceFirst(c: char, r: string)
    requires IsSpace(c)
    ensures Tokenize([c] + r) == Tokenize(r)
  {
    assert ([c] + r)[1..] == r;
  }

  /** The alphanumeric run of a word followed by a non-alphanumeric character is the word. */
  lemma {:induction false} AlnumRunOf(w: string, r: string)
    requires forall i :: 0 <= i < |w| ==> IsAlnum(w[i])
    requires |r| == 0 || !IsAlnum(r[0])
    ensures AlnumRun(w + r) == |w|
    decreases |w|
  {
    if |w| > 0 {
      assert (w + r)[1..] == w[1..] + r;
      AlnumRunOf(w[1..], r);
    } else {
      assert w + r == r;
    }
  }

  lemma {:induction false} DigitRunOf(w: string, r: string)
    requires forall i :: 0 <= i < |w| ==> IsDigit(w[i])
    requires |r| == 0 || !IsDigit(r[0])
    ensures DigitRun(w + r) == |w|
    decreases |w|
  {
    if |w| > 0 {
      assert (w + r)[1..] == w[1..] + r;
      DigitRunOf(w[1..], r);
    } else {
      assert w + r == r;
    }
  }

  /** A maximal letter-started alphanumeric run becomes one word token: a keyword exactly
      when it is one of the five keywords, otherwise an identifier carrying the run. */
  lemma {:induction false} WordFirst(w: string, r: string)
    requires IsIdentText(w) && (|r| == 0 || !IsAlnum(r[0]))
    ensures Tokenize(w + r) == Prefixed(WordToken(w), Tokenize(r))
  {
    var s := w + r;
    AlnumRunOf(w, r);
    assert s[..|w|] == w && s[|w|..] == r;
  }

  /** A maximal digit run becomes one integer literal carrying the digits. */
  lemma {:induction false} DigitFirst(w: string, r: string)
    requires IsDigitText(w) && (|r| == 0 || !IsDigit(r[0]))
    ensures Tokenize(w + r) == Prefixed(Token(IntLit, Some(w)), Tokenize(r))
  {
    var s := w + r;
    DigitRunOf(w, r);
    assert s[..|w|] == w && s[|w|..] == r;
  }

  /** A punctuation character becomes its value-less token, unless it is a `/` that opens
      a comment. */
  lemma {:induction false} PunctFirst(c: char, r: string)
    requires PunctKind(c).Some?
    requires c == '/' ==> |r| == 0 || (r[0] != '/' && r[0] != '*')
    ensures Tokenize([c] + r) == Prefixed(Token(PunctKind(c).value, None), Tokenize(r))
  {
    assert ([c] + r)[1..] == r;
  }

  /** A rendered token followed by rendered tokens becomes that token. */
  lemma {:induction false} SpellStep(t: Token, r: string)
    requires WellFormed(t) && Tokenize(r).Success?
    ensures Tokenize(Spell(t) + " " + r) == Success([t] + Tokenize(r).value)
  {
    SpaceFirst(' ', r);
    assert " " + r == [' '] + r;
    assert Spell(t) + " " + r == Spell(t) + (" " + r);
    match t.kind
    case Ident =>
      assert WordToken(t.value.value) == t;
      WordFirst(t.value.value, " " + r);
    case IntLit =>
      DigitFirst(t.value.value, " " + r);
    case Exit =>
      WordFirst(KeywordText(Exit), " " + r);
    case Let =>
      WordFirst(KeywordText(Let), " " + r);
    case If =>
      WordFirst(KeywordText(If), " " + r);
    case Elif =>
      WordFirst(KeywordText(Elif), " " + r);
    case Else =>
      WordFirst(KeywordText(Else), " " + r);
    case _ =>
      assert Spell(t) + " " + r == [PunctChar(t.kind)] + (" " + r);
      PunctFirst(PunctChar(t.kind), " " + r);
  }

  /** Tokenizing the rendering of lexer-shaped tokens gives them back. */
  lemma {:induction false} RenderRoundTrip(ts: seq<Token>)
    requires ValidTokens(ts)
    ensures Tokenize(Render(ts)) == Success(ts)
    decreases |ts|
  {
    if |ts| > 0 {
      RenderRoundTrip(ts[1..]);
      SpellStep(ts[0], Render(ts[1..]));
      assert [ts[0]] + ts[1..] == ts;
    }
  }

  // ---------------------------------------------------------------------------
  // Comments and errors

  /** The scan of a line comment stops at the first newline. */
  lemma {:induction false} LineCommentStops(s: string, k: nat)
    requires k < |s| && s[k] == '\n' && forall i :: 0 <= i < k ==> s[i] != '\n'
    ensures LineCommentLen(s) == k
  {
  }

  /** A `//` comment runs up to the newline, which is then skipped as white space. */
  lemma {:induction false} LineCommentSkipped(text: string, r: string)
    requires '\n' !in text
    ensures Tokenize("//" + text + "\n" + r) == Tokenize(r)
  {
    var s := "//" + text + "\n" + r;
    var t := text + "\n" + r;
    assert s[2..] == t;
    forall i | 0 <= i < |text|
      ensures t[i] != '\n'
    {
      assert t[i] == text[i];
    }
    LineCommentStops(t, |text|);
    assert s[2 + |text|..] == "\n" + r;
    assert Tokenize(s) == Tokenize("\n" + r);
    assert ("\n" + r)[1..] == r;
  }

  /** A `//` comment without a newline after it ends the input. */
  lemma {:induction false} LineCommentAtEnd(text: string)
    requires '\n' !in text
    ensures Tokenize("//" + text) == Success([])
  {
    var s := "//" + text;
    assert s[2..] == text;
    assert s[|s|..] == [];
  }

  /** The scan of a block comment stops at the first closer. */
  lemma {:induction false} BlockCommentStops(s: string, k: nat)
    requires CloserAt(s, k) && forall i :: 0 <= i < k ==> !CloserAt(s, i)
    ensures BlockCommentLen(s) == k
  {
  }

  /** A block comment runs up to the first closer (star, slash) after its opener, and the
      closer is consumed with it. */
  lemma {:induction false} BlockCommentSkipped(body: string, r: string)
    requires forall i: nat :: !CloserAt(body, i)
    ensures Tokenize("/*" + body + "*/" + r) == Tokenize(r)
  {
    var s := "/*" + body + "*/" + r;
    var t := body + "*/" + r;
    assert s[2..] == t;
    forall i | 0 <= i < |body|
      ensures !CloserAt(t, i)
    {
      if i + 1 < |body| {
        assert !CloserAt(body, i);
      } else {
        assert t[i + 1] == '*';
      }
    }
    BlockCommentStops(t, |body|);
    assert s[2 + |body| + 2..] == r;
  }

  /** A block comment that is never closed swallows the rest of the input. */
  lemma {:induction false} BlockCommentUnclosed(body: string)
    requires forall i: nat :: !CloserAt(body, i)
    ensures Tokenize("/*" + body) == Success([])
  {
    var s := "/*" + body;
    assert s[2..] == body;
    assert s[|s|..] == [];
  }

  /** A character no rule accepts is fatal at once. */
  lemma {:induction false} UnrecognizedFails(c: char, r: string)
    requires !Recognized(c)
    ensures Tokenize([c] + r) == Failure(Unrecognized(c))
  {
  }
}
