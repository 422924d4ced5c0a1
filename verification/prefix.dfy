/** Where a token sequence occurs inside another: the vocabulary both directions of the
    parser's correctness are stated in. */
module Prefix {
  import opened Tokens

  /** The tokens from `pos` on begin with `w`. */
  predicate At(toks: seq<Token>, pos: nat, w: seq<Token>)
    decreases |w|
  {
    if |w| == 0 then pos <= |toks|
    else pos < |toks| && toks[pos] == w[0] && At(toks, pos + 1, w[1..])
  }

  /** The tokens `pos..next` are exactly `w`. */
  predicate Spans(toks: seq<Token>, pos: nat, next: nat, w: seq<Token>) {
    next == pos + |w| && At(toks, pos, w)
  }

  lemma {:induction false} AtSplit(toks: seq<Token>, pos: nat, u: seq<Token>, v: seq<Token>)
    requires At(toks, pos, u + v)
    ensures At(toks, pos, u) && At(toks, pos + |u|, v)
    decreases |u|
  {
    if |u| > 0 {
      assert (u + v)[1..] == u[1..] + v;
      AtSplit(toks, pos + 1, u[1..], v);
    } else {
      assert u + v == v;
    }
  }

  lemma {:induction false} AtJoin(toks: seq<Token>, pos: nat, u: seq<Token>, v: seq<Token>)
    requires At(toks, pos, u) && At(toks, pos + |u|, v)
    ensures At(toks, pos, u + v)
    decreases |u|
  {
    if |u| > 0 {
      assert (u + v)[1..] == u[1..] + v;
      AtJoin(toks, pos + 1, u[1..], v);
    } else {
      assert u + v == v;
    }
  }

  /** A sequence that begins with `w` from `pos` is long enough to hold it. */
  lemma {:induction false} AtLen(toks: seq<Token>, pos: nat, w: seq<Token>)
    requires At(toks, pos, w)
    ensures pos + |w| <= |toks|
    decreases |w|
  {
    if |w| > 0 {
      AtLen(toks, pos + 1, w[1..]);
    }
  }

  /** `At` is the slice `pos..pos + |w|` read as a predicate. */
  lemma {:induction false} AtSlice(toks: seq<Token>, pos: nat, w: seq<Token>)
    ensures At(toks, pos, w) <==> pos + |w| <= |toks| && toks[pos..pos + |w|] == w
    decreases |w|
  {
    if |w| > 0 {
      AtSlice(toks, pos + 1, w[1..]);
      if pos + |w| <= |toks| {
        assert toks[pos..pos + |w|] == [toks[pos]] + toks[pos + 1..pos + |w|];
        assert w == [w[0]] + w[1..];
      }
    }
  }

  lemma {:induction false} AtOne(toks: seq<Token>, pos: nat, t: Token)
    requires At(toks, pos, [t])
    ensures pos < |toks| && toks[pos] == t
  {
  }

  lemma {:induction false} AtTwo(toks: seq<Token>, pos: nat, a: Token, b: Token)
    requires At(toks, pos, [a, b])
    ensures pos + 1 < |toks| && toks[pos] == a && toks[pos + 1] == b
  {
    assert [a, b][1..] == [b];
  }

  lemma {:induction false} AtThree(toks: seq<Token>, pos: nat, a: Token, b: Token, c: Token)
    requires At(toks, pos, [a, b, c])
    ensures pos + 2 < |toks| && toks[pos] == a && toks[pos + 1] == b && toks[pos + 2] == c
  {
    assert [a, b, c][1..] == [b, c];
    AtTwo(toks, pos + 1, b, c);
  }

  /** The single token at `pos` spans `pos..pos + 1`. */
  lemma {:induction false} SpansOne(toks: seq<Token>, pos: nat)
    requires pos < |toks|
    ensures Spans(toks, pos, pos + 1, [toks[pos]])
  {
    assert [toks[pos]][1..] == [];
  }

  /** Adjacent spans join. */
  lemma {:induction false} SpansJoin(toks: seq<Token>, pos: nat, p: nat, q: nat, u: seq<Token>, v: seq<Token>)
    requires Spans(toks, pos, p, u) && Spans(toks, p, q, v)
    ensures Spans(toks, pos, q, u + v)
  {
    AtJoin(toks, pos, u, v);
  }

  /** Every sequence begins with its own suffixes. */
  lemma {:induction false} AtSelf(toks: seq<Token>, pos: nat)
    requires pos <= |toks|
    ensures At(toks, pos, toks[pos..])
    decreases |toks| - pos
  {
    if pos < |toks| {
      assert toks[pos..][1..] == toks[pos + 1..];
      AtSelf(toks, pos + 1);
    }
  }
}
