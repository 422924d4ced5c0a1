/** `Tokenizer::tokenize` (src/tokenization.hpp). The tokenizer is modelled on the
    unread suffix `s` of the source: `peek(k)` is `s[k]` and the cursor `m_index`
    is the length of the source minus `|s|`. */
module Lexer {
  import opened Wrappers
  import opened Tokens

  /** The tokenizer's one failure: a character no rule accepts. */
  datatype LexError = Unrecognized(ch: char)

  /** Characters that start some rule of the tokenizer. */
  predicate Recognized(c: char) {
    IsAlnum(c) || IsSpace(c) || c in "();=+*-/{}"
  }

  /** Length of the maximal alphanumeric prefix of `s`. */
  function AlnumRun(s: string): (n: nat)
    ensures n <= |s|
    ensures forall i :: 0 <= i < n ==> IsAlnum(s[i])
    ensures n == |s| || !IsAlnum(s[n])
  {
    if |s| == 0 || !IsAlnum(s[0]) then 0 else 1 + AlnumRun(s[1..])
  }

  /** Length of the maximal digit prefix of `s`. */
  function DigitRun(s: string): (n: nat)
    ensures n <= |s|
    ensures forall i :: 0 <= i < n ==> IsDigit(s[i])
    ensures n == |s| || !IsDigit(s[n])
  {
    if |s| == 0 || !IsDigit(s[0]) then 0 else 1 + DigitRun(s[1..])
  }

  /** Number of characters a `//` comment discards: everything before the next newline. */
  function LineCommentLen(s: string): (n: nat)
    ensures n <= |s|
    ensures forall i :: 0 <= i < n ==> s[i] != '\n'
    ensures n == |s| || s[n] == '\n'
  {
    if |s| == 0 || s[0] == '\n' then 0 else 1 + LineCommentLen(s[1..])
  }

  // A comment closer (star, slash) starts at index `i` of `s`.
  predicate CloserAt(s: string, i: nat) {
    i + 1 < |s| && s[i] == '*' && s[i + 1] == '/'
  }

  // Number of characters the scan of a block comment passes before stopping:
  // the index of the first closer, or all of `s` when there is none.
  function BlockCommentLen(s: string): (n: nat)
    ensures n <= |s|
    ensures forall i :: 0 <= i < n ==> !CloserAt(s, i)
    ensures n == |s| || CloserAt(s, n)
  {
    if |s| == 0 || CloserAt(s, 0) then 0
    else
      var n := BlockCommentLen(s[1..]);
      assert forall i :: 1 <= i < n + 1 ==> CloserAt(s, i) == CloserAt(s[1..], i - 1);
      1 + n
  }

  /** The keyword a word spells, if any. */
  function KeywordKind(w: string): (r: Option<TokenKind>)
    ensures r.Some? <==> IsKeyword(w)
  {
    if w == "exit" then Some(Exit)
    else if w == "let" then Some(Let)
    else if w == "if" then Some(If)
    else if w == "elif" then Some(Elif)
    else if w == "else" then Some(Else)
    else None
  }

  /** The token for a letter-started word: a value-less keyword or an identifier
      carrying the whole word. */
  function WordToken(w: string): (t: Token)
    ensures t.kind == Ident <==> !IsKeyword(w)
    ensures t.kind == Ident ==> t.value == Some(w)
    ensures t.kind != Ident ==> t.value.None? && t.kind in {Exit, Let, If, Elif, Else}
  {
    match KeywordKind(w)
    case Some(k) => Token(k, None)
    case None => Token(Ident, Some(w))
  }

  /** The value-less token of a single punctuation character. */
  function PunctKind(c: char): (r: Option<TokenKind>)
    ensures r.Some? <==> c in "();=+*-/{}"
    ensures r.Some? ==> r.value !in {Ident, IntLit, Exit, Let, If, Elif, Else}
  {
    match c
    case '(' => Some(OpenParen)
    case ')' => Some(CloseParen)
    case ';' => Some(Semi)
    case '=' => Some(Eq)
    case '+' => Some(Plus)
    case '*' => Some(Star)
    case '-' => Some(Sub)
    case '/' => Some(Div)
    case '{' => Some(OpenCurly)
    case '}' => Some(CloseCurly)
    case _ => None
  }

  /** `tokenize` applied to the unread suffix `s`. */
  function Tokenize(s: string): (r: Result<seq<Token>, LexError>)
    decreases |s|
    ensures r.Success? ==> ValidTokens(r.value) && |r.value| <= |s|
    ensures r.Failure? ==> r.error.ch in s && !Recognized(r.error.ch)
    ensures (forall i :: 0 <= i < |s| ==> Recognized(s[i])) ==> r.Success?
  {
    if |s| == 0 then Success([])
    else if IsAlpha(s[0]) then
      var n := AlnumRun(s);
      var rest :- TokenizeAfter(s, n);
      Success([WordToken(s[..n])] + rest)
    else if IsDigit(s[0]) then
      var n := DigitRun(s);
      var rest :- TokenizeAfter(s, n);
      Success([Token(IntLit, Some(s[..n]))] + rest)
    else if s[0] == '/' && |s| > 1 && s[1] == '/' then
      TokenizeAfter(s, 2 + LineCommentLen(s[2..]))
    else if s[0] == '/' && |s| > 1 && s[1] == '*' then
      var n := BlockCommentLen(s[2..]);
      // after the scan, up to two more characters (the closer) are consumed
      TokenizeAfter(s, if 2 + n < |s| then 2 + n + 2 else |s|)
    else if IsSpace(s[0]) then
      TokenizeAfter(s, 1)
    else match PunctKind(s[0])
      case Some(k) =>
        var rest :- TokenizeAfter(s, 1);
        Success([Token(k, None)] + rest)
      case None => Failure(Unrecognized(s[0]))
  }

  /** Tokenizing what is left after the first `n` characters, which is never empty. */
  function TokenizeAfter(s: string, n: nat): (r: Result<seq<Token>, LexError>)
    requires 0 < n <= |s|
    decreases |s|, 0
    ensures r.Success? ==> ValidTokens(r.value) && |r.value| <= |s| - n
    ensures r.Failure? ==> r.error.ch in s && !Recognized(r.error.ch)
    ensures (forall i :: 0 <= i < |s| ==> Recognized(s[i])) ==> r.Success?
  {
    Tokenize(s[n..])
  }
}
