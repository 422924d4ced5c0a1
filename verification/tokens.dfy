/** Token kinds, tokens, the binary-operator precedence table and the character classes
    the tokenizer relies on (src/tokenization.hpp). */
module Tokens {
  import opened Wrappers

  datatype TokenKind =
    | Exit | IntLit | Semi | OpenParen | CloseParen | Ident | Let | Eq
    | Plus | Star | Sub | Div | OpenCurly | CloseCurly | If | Elif | Else

  /** Only `Ident` and `IntLit` tokens produced by the tokenizer carry a value. */
  datatype Token = Token(kind: TokenKind, value: Option<string>)

  /** `bin_prec`: the precedence of a binary operator token, none for every other kind. */
  function BinPrec(kind: TokenKind): (r: Option<nat>)
    ensures r.Some? <==> IsBinOp(kind)
    ensures r == Some(0) <==> kind == Plus || kind == Sub
    ensures r == Some(1) <==> kind == Star || kind == Div
  {
    match kind
    case Plus => Some(0)
    case Sub => Some(0)
    case Star => Some(1)
    case Div => Some(1)
    case _ => None
  }

  predicate IsBinOp(kind: TokenKind) {
    kind in {Plus, Sub, Star, Div}
  }

  // The `<cctype>` classes, fixed to ASCII.

  predicate IsAlpha(c: char) {
    'a' <= c <= 'z' || 'A' <= c <= 'Z'
  }

  predicate IsDigit(c: char) {
    '0' <= c <= '9'
  }

  predicate IsAlnum(c: char) {
    IsAlpha(c) || IsDigit(c)
  }

  /** `isspace` in the C locale: space, \t, \n, \v, \f, \r. */
  predicate IsSpace(c: char) {
    c == ' ' || c == '\t' || c == '\n' || c == '\U{000B}' || c == '\U{000C}' || c == '\r'
  }

  predicate IsKeyword(w: string) {
    w == "exit" || w == "let" || w == "if" || w == "elif" || w == "else"
  }

  /** A letter followed by letters and digits. */
  predicate IsIdentText(w: string) {
    |w| > 0 && IsAlpha(w[0]) && forall i :: 0 <= i < |w| ==> IsAlnum(w[i])
  }

  /** A non-empty run of digits. */
  predicate IsDigitText(w: string) {
    |w| > 0 && forall i :: 0 <= i < |w| ==> IsDigit(w[i])
  }

  /** The shape of every token the tokenizer emits: identifiers are non-keyword
      alphanumeric words, literals are digit strings, and nothing else has a value. */
  predicate WellFormed(t: Token) {
    match t.kind
    case Ident => t.value.Some? && IsIdentText(t.value.value) && !IsKeyword(t.value.value)
    case IntLit => t.value.Some? && IsDigitText(t.value.value)
    case _ => t.value.None?
  }

  predicate ValidTokens(ts: seq<Token>) {
    forall i :: 0 <= i < |ts| ==> WellFormed(ts[i])
  }
}
