/** Splitting at slashes, as the pattern parser, the dispatcher and the static-file resolver do. */
module Paths {
  import opened Sequences

  /** `find('/', from)`, with the end of the string for "not found". */
  function NextSlash(s: string, from: nat): (e: nat)
    requires from <= |s|
    ensures from <= e <= |s|
    ensures forall k | from <= k < e :: s[k] != '/'
    ensures e < |s| ==> s[e] == '/'
    decreases |s| - from
  {
    if from == |s| || s[from] == '/' then from else NextSlash(s, from + 1)
  }

  /** A non-empty piece of a string, by the positions of its first and one past its last character. */
  datatype Span = Span(lo: nat, hi: nat)

  function Spans(s: string, from: nat): seq<Span>
    requires from <= |s|
    decreases |s| - from
  {
    var e := NextSlash(s, from);
    var first := if e > from then [Span(from, e)] else [];
    if e == |s| then first else first + Spans(s, e + 1)
  }

  predicate Within(spans: seq<Span>, s: string) {
    forall i | 0 <= i < |spans| :: spans[i].lo < spans[i].hi <= |s|
  }

  lemma {:induction false} SpansWithin(s: string, from: nat)
    requires from <= |s|
    ensures Within(Spans(s, from), s)
    ensures forall i | 0 <= i < |Spans(s, from)| :: from <= Spans(s, from)[i].lo
    decreases |s| - from
  {
    var e := NextSlash(s, from);
    if e < |s| {
      SpansWithin(s, e + 1);
    }
  }

  function Texts(s: string, spans: seq<Span>): seq<string>
    requires Within(spans, s)
  {
    seq(|spans|, i requires 0 <= i < |spans| => s[spans[i].lo..spans[i].hi])
  }

  function Slice(s: string, lo: nat, hi: nat): seq<string>
    requires lo <= hi <= |s|
  {
    if hi > lo then [s[lo..hi]] else []
  }

  /** The non-empty pieces between slashes, from position `from` on. */
  function Tokens(s: string, from: nat): seq<string>
    requires from <= |s|
    decreases |s| - from
  {
    var e := NextSlash(s, from);
    if e == |s| then Slice(s, from, e) else Slice(s, from, e) + Tokens(s, e + 1)
  }

  lemma {:induction false} TokensAreTexts(s: string, from: nat)
    requires from <= |s|
    ensures Within(Spans(s, from), s)
    ensures Tokens(s, from) == Texts(s, Spans(s, from))
    decreases |s| - from
  {
    SpansWithin(s, from);
    var e := NextSlash(s, from);
    if e < |s| {
      TokensAreTexts(s, e + 1);
      TextsAppend(s, if e > from then [Span(from, e)] else [], Spans(s, e + 1));
    }
  }

  lemma TextsAppend(s: string, xs: seq<Span>, ys: seq<Span>)
    requires Within(xs, s) && Within(ys, s)
    ensures Within(xs + ys, s) && Texts(s, xs + ys) == Texts(s, xs) + Texts(s, ys)
  {}

  predicate Piece(t: string) {
    t != [] && '/' !in t
  }

  lemma {:induction false} TokensArePieces(s: string, from: nat)
    requires from <= |s|
    ensures forall i | 0 <= i < |Tokens(s, from)| :: Piece(Tokens(s, from)[i])
    decreases |s| - from
  {
    var e := NextSlash(s, from);
    if e < |s| {
      TokensArePieces(s, e + 1);
    }
  }

  /** The tokens of a suffix are the tokens from where the suffix starts. */
  lemma {:induction false} TokensOfSuffix(p: string, q: string, from: nat)
    requires from <= |q|
    ensures Tokens(p + q, |p| + from) == Tokens(q, from)
    decreases |q| - from
  {
    NextSlashOfSuffix(p, q, from);
    var e := NextSlash(q, from);
    SliceOfSuffix(p, q, from, e);
    if e < |q| {
      assert |p| + e + 1 == |p| + (e + 1);
      TokensOfSuffix(p, q, e + 1);
    }
  }

  lemma SliceOfSuffix(p: string, q: string, lo: nat, hi: nat)
    requires lo <= hi <= |q|
    ensures Slice(p + q, |p| + lo, |p| + hi) == Slice(q, lo, hi)
  {
    assert (p + q)[|p| + lo..|p| + hi] == q[lo..hi];
  }

  lemma SliceOfPrefix(p: string, q: string, lo: nat, hi: nat)
    requires lo <= hi <= |p|
    ensures Slice(p + q, lo, hi) == Slice(p, lo, hi)
  {
    assert (p + q)[lo..hi] == p[lo..hi];
  }

  lemma {:induction false} NextSlashOfSuffix(p: string, q: string, from: nat)
    requires from <= |q|
    ensures NextSlash(p + q, |p| + from) == |p| + NextSlash(q, from)
    decreases |q| - from
  {
    if from < |q| && q[from] != '/' {
      NextSlashOfSuffix(p, q, from + 1);
    }
  }

  lemma {:induction false} NextSlashOfPrefix(p: string, q: string, from: nat)
    requires from <= |p| && q != [] && q[0] == '/'
    ensures NextSlash(p + q, from) == NextSlash(p, from)
    decreases |p| - from
  {
    if from < |p| && p[from] != '/' {
      NextSlashOfPrefix(p, q, from + 1);
    }
  }

  /** Appending a path that starts with a slash appends its tokens. */
  lemma {:induction false} TokensOfJoin(p: string, q: string, from: nat)
    requires from <= |p| && q != [] && q[0] == '/'
    ensures Tokens(p + q, from) == Tokens(p, from) + Tokens(q, 1)
    decreases |p| - from
  {
    hide *;
    var e := NextSlash(p, from);
    NextSlashOfPrefix(p, q, from);
    TokensStep(p + q, from);
    SliceOfPrefix(p, q, from, e);
    if e < |p| {
      TokensStep(p, from);
      TokensOfJoin(p, q, e + 1);
      Associative(Slice(p, from, e), Tokens(p, e + 1), Tokens(q, 1));
    } else {
      TokensEnd(p, from);
      TokensOfSuffix(p, q, 1);
    }
  }

  lemma TokensStep(s: string, from: nat)
    requires from <= |s| && NextSlash(s, from) < |s|
    ensures Tokens(s, from) == Slice(s, from, NextSlash(s, from)) + Tokens(s, NextSlash(s, from) + 1)
  {
  }

  lemma TokensEnd(s: string, from: nat)
    requires from <= |s| && NextSlash(s, from) == |s|
    ensures Tokens(s, from) == Slice(s, from, |s|)
  {
  }

  /** "/t0/t1/..." */
  function Join(tokens: seq<string>): string {
    if tokens == [] then "" else "/" + tokens[0] + Join(tokens[1..])
  }

  lemma {:induction false} TokensOfJoined(tokens: seq<string>)
    requires forall i | 0 <= i < |tokens| :: Piece(tokens[i])
    ensures Tokens(Join(tokens), 0) == tokens
  {
    if tokens != [] {
      TokensOfJoined(tokens[1..]);
      var first, rest := "/" + tokens[0], Join(tokens[1..]);
      OneToken(tokens[0]);
      if tokens[1..] == [] {
        assert Join(tokens) == first;
      } else {
        assert Join(tokens) == first + rest;
        TokensOfJoin(first, rest, 0);
        assert NextSlash(rest, 0) == 0;
      }
    }
  }

  lemma OneToken(t: string)
    requires Piece(t)
    ensures Tokens("/" + t, 0) == [t]
  {
    NoSlash(t, 0);
    TokensOfSuffix("/", t, 0);
    assert NextSlash("/" + t, 0) == 0;
    assert t[0..|t|] == t;
  }

  lemma {:induction false} NoSlash(t: string, from: nat)
    requires from <= |t| && '/' !in t
    ensures NextSlash(t, from) == |t|
    decreases |t| - from
  {
    if from < |t| {
      assert t[from] in t;
      NoSlash(t, from + 1);
    }
  }
}
