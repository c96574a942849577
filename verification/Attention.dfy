/**
 Softmax attention of one row over a list of keys (src/quantized_llama.rs, `forward_attn`), with the
 element arithmetic left uninterpreted.
 */
module Attention {
  import opened Wrappers

  /** Element arithmetic. `exp(s, m)` is the exponential of `s - m`, as the stable softmax computes it. */
  datatype Arith = Arith(
    zero: Word,
    add: (Word, Word) -> Word,
    mul: (Word, Word) -> Word,
    div: (Word, Word) -> Word,
    max: (Word, Word) -> Word,
    exp: (Word, Word) -> Word)

  /** The only laws used: adding zero changes nothing, and zero absorbs under product and quotient. */
  ghost predicate ZeroLaws(ar: Arith) {
    && (forall x: Word :: ar.add(x, ar.zero) == x)
    && (forall x: Word :: ar.mul(ar.zero, x) == ar.zero)
    && (forall x: Word :: ar.div(ar.zero, x) == ar.zero)
  }

  /** An attention score; masking replaces a score by minus infinity. */
  datatype Score = NegInf | Fin(w: Word)

  function MaxScore(ar: Arith, s: seq<Score>): Score {
    if s == [] then NegInf else
      var m := MaxScore(ar, s[..|s| - 1]);
      var last := s[|s| - 1];
      if last.NegInf? then m else if m.NegInf? then last else Fin(ar.max(m.w, last.w))
  }

  /** exp(score - max); minus infinity has weight zero. */
  function Numerators(ar: Arith, s: seq<Score>): (ws: seq<Word>)
    ensures |ws| == |s|
  {
    var m := MaxScore(ar, s);
    seq(|s|, j requires 0 <= j < |s| =>
      if s[j].NegInf? || m.NegInf? then ar.zero else ar.exp(s[j].w, m.w))
  }

  function Sum(ar: Arith, ws: seq<Word>): Word {
    if ws == [] then ar.zero else ar.add(Sum(ar, ws[..|ws| - 1]), ws[|ws| - 1])
  }

  function Softmax(ar: Arith, s: seq<Score>): (ps: seq<Word>)
    ensures |ps| == |s|
  {
    var ws := Numerators(ar, s);
    var total := Sum(ar, ws);
    seq(|s|, j requires 0 <= j < |s| => ar.div(ws[j], total))
  }

  function Dot(ar: Arith, ps: seq<Word>, xs: seq<Word>): Word
    requires |ps| == |xs|
  {
    if ps == [] then ar.zero else
      var last := |ps| - 1;
      ar.add(Dot(ar, ps[..last], xs[..last]), ar.mul(ps[last], xs[last]))
  }

  /** One coordinate of the attention output: the softmax-weighted sum of the values' coordinates. */
  function Weighted(ar: Arith, s: seq<Score>, column: seq<Word>): Word
    requires |s| == |column|
  {
    Dot(ar, Softmax(ar, s), column)
  }

  // ---------------------------------------------------------------- masking

  predicate MaskedFrom(s: seq<Score>, n: nat) {
    n <= |s| && forall j :: n <= j < |s| ==> s[j].NegInf?
  }

  lemma {:induction false} MaxIgnoresMasked(ar: Arith, s: seq<Score>, n: nat)
    requires MaskedFrom(s, n)
    ensures MaxScore(ar, s) == MaxScore(ar, s[..n])
  {
    if n < |s| {
      MaxIgnoresMasked(ar, s[..|s| - 1], n);
      assert s[..|s| - 1][..n] == s[..n];
    } else {
      assert s[..n] == s;
    }
  }

  lemma {:induction false} SumIgnoresZeros(ar: Arith, ws: seq<Word>, n: nat)
    requires ZeroLaws(ar) && n <= |ws| && forall j :: n <= j < |ws| ==> ws[j] == ar.zero
    ensures Sum(ar, ws) == Sum(ar, ws[..n])
  {
    if n < |ws| {
      SumIgnoresZeros(ar, ws[..|ws| - 1], n);
      assert ws[..|ws| - 1][..n] == ws[..n];
    } else {
      assert ws[..n] == ws;
    }
  }

  lemma {:induction false} DotIgnoresZeros(ar: Arith, ps: seq<Word>, xs: seq<Word>, n: nat)
    requires ZeroLaws(ar) && n <= |ps| == |xs| && forall j :: n <= j < |ps| ==> ps[j] == ar.zero
    ensures Dot(ar, ps, xs) == Dot(ar, ps[..n], xs[..n])
  {
    if n < |ps| {
      var last := |ps| - 1;
      DotIgnoresZeros(ar, ps[..last], xs[..last], n);
      assert ps[..last][..n] == ps[..n] && xs[..last][..n] == xs[..n];
    } else {
      assert ps[..n] == ps && xs[..n] == xs;
    }
  }

  lemma SoftmaxIgnoresMasked(ar: Arith, s: seq<Score>, n: nat)
    requires ZeroLaws(ar) && MaskedFrom(s, n)
    ensures Softmax(ar, s)[..n] == Softmax(ar, s[..n])
    ensures forall j :: n <= j < |s| ==> Softmax(ar, s)[j] == ar.zero
  {
    MaxIgnoresMasked(ar, s, n);
    var ws := Numerators(ar, s);
    assert ws[..n] == Numerators(ar, s[..n]);
    SumIgnoresZeros(ar, ws, n);
  }

  /** Filling scores with minus infinity before the softmax is attending to the unmasked prefix only. */
  lemma MaskIsPrefix(ar: Arith, s: seq<Score>, column: seq<Word>, n: nat)
    requires ZeroLaws(ar) && MaskedFrom(s, n) && |s| == |column|
    ensures Weighted(ar, s, column) == Weighted(ar, s[..n], column[..n])
  {
    SoftmaxIgnoresMasked(ar, s, n);
    DotIgnoresZeros(ar, Softmax(ar, s), column, n);
  }
}
