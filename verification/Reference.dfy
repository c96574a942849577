/**
 What a transformer computes, written out from the weights alone: no cache, no mask, no batch, position by
 position. The cached model is proved equal to it (src/quantized_llama.rs).
 */
module Reference {
  import opened Wrappers
  import opened Attention
  import opened Transformer
  import CacheCoherence

  // ---------------------------------------------------------------- the definition

  function MaxUpTo(ar: Arith, f: nat -> Word, n: nat): Word
    requires n > 0
  {
    if n == 1 then f(0) else ar.max(MaxUpTo(ar, f, n - 1), f(n - 1))
  }

  function SumUpTo(ar: Arith, f: nat -> Word, n: nat): Word {
    if n == 0 then ar.zero else ar.add(SumUpTo(ar, f, n - 1), f(n - 1))
  }

  /** The softmax average of the first `n` values. */
  function Averaged(ar: Arith, score: nat -> Word, value: nat -> Word, n: nat): Word
    requires n > 0
  {
    var top := MaxUpTo(ar, score, n);
    var total := SumUpTo(ar, (j: nat) => ar.exp(score(j), top), n);
    SumUpTo(ar, (j: nat) => ar.mul(ar.div(ar.exp(score(j), top), total), value(j)), n)
  }

  /** The scores for position `i` in head `h`; every vector is rotated by its own position. */
  function ScoreFn(w: LayerOps, h: nat, x: nat -> Row, i: nat): nat -> Word {
    (j: nat) => w.score(h, w.rope(w.wq(w.attnNorm(x(i))), i), w.rope(w.wk(w.attnNorm(x(j))), j))
  }

  function ValueFn(w: LayerOps, h: nat, c: nat, x: nat -> Row): nat -> Word {
    (j: nat) => w.value(h, c, w.wv(w.attnNorm(x(j))))
  }

  /** A block's output added to its input. */
  function Added(w: LayerOps, y: Row, x: Row): (z: Row)
    ensures |z| == |x|
  {
    seq(|x|, c requires 0 <= c < |x| => if c < |y| then w.ar.add(y[c], x[c]) else x[c])
  }

  /** Position `i` after one layer, from the positions up to it. */
  function LayerAt(w: LayerOps, x: nat -> Row, i: nat): (y: Row)
    ensures |y| == |x(i)|
  {
    var attended := w.wo(seq(w.heads, h requires 0 <= h < w.heads =>
      seq(w.headDim, c requires 0 <= c < w.headDim =>
        Averaged(w.ar, ScoreFn(w, h, x, i), ValueFn(w, h, c, x), i + 1))));
    var middle := Added(w, attended, x(i));
    Added(w, w.ffn(w.ffnNorm(middle)), middle)
  }

  function LayerFn(w: LayerOps, x: nat -> Row): nat -> Row {
    (i: nat) => LayerAt(w, x, i)
  }

  /** Position `i` after all layers. */
  function HiddenAt(ws: seq<LayerOps>, x: nat -> Row, i: nat): Row {
    if ws == [] then x(i) else HiddenAt(ws[1..], LayerFn(ws[0], x), i)
  }

  /** The embeddings of the tokens by position; a negative id stands for its unsigned reading. */
  function TokenFn(m: Weights, tokens: seq<i32>): nat -> Row {
    (i: nat) =>
      if i >= |tokens| then []
      else if tokens[i] < 0 then m.embedding.embed(tokens[i] as int + 4294967296)
      else m.embedding.embed(tokens[i])
  }

  /** The logits after a sequence of tokens. */
  function Logits(m: Weights, tokens: seq<i32>): seq<Word>
    requires tokens != []
  {
    m.head.output(m.head.norm(HiddenAt(m.layers, TokenFn(m, tokens), |tokens| - 1)))
  }

  // ---------------------------------------------------------------- attention agrees

  predicate SameScores(s: seq<Score>, f: nat -> Word) {
    forall j :: 0 <= j < |s| ==> s[j] == Fin(f(j))
  }

  lemma {:induction false} MaxAgrees(ar: Arith, s: seq<Score>, f: nat -> Word)
    requires s != [] && SameScores(s, f)
    ensures MaxScore(ar, s) == Fin(MaxUpTo(ar, f, |s|))
  {
    if |s| > 1 {
      MaxAgrees(ar, s[..|s| - 1], f);
    } else {
      assert s[..0] == [];
    }
  }

  lemma {:induction false} SumAgrees(ar: Arith, ws: seq<Word>, f: nat -> Word)
    requires forall j :: 0 <= j < |ws| ==> ws[j] == f(j)
    ensures Sum(ar, ws) == SumUpTo(ar, f, |ws|)
  {
    if ws != [] {
      SumAgrees(ar, ws[..|ws| - 1], f);
    }
  }

  lemma {:induction false} DotAgrees(ar: Arith, ps: seq<Word>, xs: seq<Word>, f: nat -> Word)
    requires |ps| == |xs| && forall j :: 0 <= j < |ps| ==> ar.mul(ps[j], xs[j]) == f(j)
    ensures Dot(ar, ps, xs) == SumUpTo(ar, f, |ps|)
  {
    if ps != [] {
      DotAgrees(ar, ps[..|ps| - 1], xs[..|ps| - 1], f);
    }
  }

  lemma AverageAgrees(ar: Arith, s: seq<Score>, column: seq<Word>, score: nat -> Word, value: nat -> Word)
    requires s != [] && |s| == |column| && SameScores(s, score)
    requires forall j :: 0 <= j < |column| ==> column[j] == value(j)
    ensures Weighted(ar, s, column) == Averaged(ar, score, value, |s|)
  {
    MaxAgrees(ar, s, score);
    var top := MaxUpTo(ar, score, |s|);
    SumAgrees(ar, Numerators(ar, s), (j: nat) => ar.exp(score(j), top));
    var total := SumUpTo(ar, (j: nat) => ar.exp(score(j), top), |s|);
    DotAgrees(ar, Softmax(ar, s), column, (j: nat) => ar.mul(ar.div(ar.exp(score(j), top), total), value(j)));
  }

  // ---------------------------------------------------------------- layers agree

  /** The rows are the first values of `x`. */
  predicate Rows(xs: seq<Row>, x: nat -> Row) {
    forall j :: 0 <= j < |xs| ==> xs[j] == x(j)
  }

  lemma HeadAgrees(w: LayerOps, xs: seq<Row>, x: nat -> Row, i: nat, h: nat, c: nat)
    requires i < |xs| && Rows(xs, x)
    ensures var seen := xs[..i + 1];
            var s := Scores(w, h, QueryAt(w, xs[i], i), KeysFrom(w, seen, 0), None);
            Weighted(w.ar, s, Column(w, h, c, ValuesOf(w, seen)))
            == Averaged(w.ar, ScoreFn(w, h, x, i), ValueFn(w, h, c, x), i + 1)
  {
    var seen := xs[..i + 1];
    var s := Scores(w, h, QueryAt(w, xs[i], i), KeysFrom(w, seen, 0), None);
    AverageAgrees(w.ar, s, Column(w, h, c, ValuesOf(w, seen)),
                  ScoreFn(w, h, x, i), ValueFn(w, h, c, x));
  }

  lemma AttendAgrees(w: LayerOps, xs: seq<Row>, x: nat -> Row, i: nat)
    requires i < |xs| && Rows(xs, x)
    ensures Attend(w, QueryAt(w, xs[i], i), KeysFrom(w, xs[..i + 1], 0), ValuesOf(w, xs[..i + 1]), None)
         == w.wo(seq(w.heads, h requires 0 <= h < w.heads =>
              seq(w.headDim, c requires 0 <= c < w.headDim =>
                Averaged(w.ar, ScoreFn(w, h, x, i), ValueFn(w, h, c, x), i + 1))))
  {
    var (q, ks, vs) := (QueryAt(w, xs[i], i), KeysFrom(w, xs[..i + 1], 0), ValuesOf(w, xs[..i + 1]));
    forall h: nat | h < w.heads
      ensures AttendHead(w, h, q, ks, vs, None)
           == seq(w.headDim, c requires 0 <= c < w.headDim =>
                Averaged(w.ar, ScoreFn(w, h, x, i), ValueFn(w, h, c, x), i + 1))
    {
      forall c: nat | c < w.headDim
        ensures AttendHead(w, h, q, ks, vs, None)[c]
             == Averaged(w.ar, ScoreFn(w, h, x, i), ValueFn(w, h, c, x), i + 1)
      {
        HeadAgrees(w, xs, x, i, h, c);
      }
    }
    assert seq(w.heads, h requires 0 <= h < w.heads => AttendHead(w, h, q, ks, vs, None))
        == seq(w.heads, h requires 0 <= h < w.heads =>
             seq(w.headDim, c requires 0 <= c < w.headDim =>
               Averaged(w.ar, ScoreFn(w, h, x, i), ValueFn(w, h, c, x), i + 1)));
  }

  lemma LayerAgrees(w: LayerOps, xs: seq<Row>, x: nat -> Row)
    requires Rows(xs, x)
    ensures Rows(CacheCoherence.Causal(w, xs), LayerFn(w, x))
  {
    forall i | 0 <= i < |xs|
      ensures CacheCoherence.Causal(w, xs)[i] == LayerAt(w, x, i)
    {
      AttendAgrees(w, xs, x, i);
    }
  }

  lemma {:induction false} LayersAgree(ws: seq<LayerOps>, xs: seq<Row>, x: nat -> Row, i: nat)
    requires Rows(xs, x) && i < |xs|
    ensures CacheCoherence.CausalLayers(ws, xs)[i] == HiddenAt(ws, x, i)
  {
    if ws != [] {
      LayerAgrees(ws[0], xs, x);
      LayersAgree(ws[1..], CacheCoherence.Causal(ws[0], xs), LayerFn(ws[0], x), i);
    }
  }

  // ---------------------------------------------------------------- the model agrees

  /** A layer's cache after positions 0 to n - 1: the rotated keys and the values of its inputs. */
  predicate CacheIs(c: Cache, w: LayerOps, x: nat -> Row, n: nat) {
    && c.Some? && |c.value.ks| == |c.value.vs| == n
    && forall j :: 0 <= j < n ==>
         c.value.ks[j] == w.rope(w.wk(w.attnNorm(x(j))), j) && c.value.vs[j] == w.wv(w.attnNorm(x(j)))
  }

  /** The caches of a stack, layer by layer on the output of the one before. */
  predicate CachesAre(cs: seq<Cache>, ws: seq<LayerOps>, x: nat -> Row, n: nat)
    requires |cs| == |ws|
  {
    ws == [] || (CacheIs(cs[0], ws[0], x, n) && CachesAre(cs[1..], ws[1..], LayerFn(ws[0], x), n))
  }

  lemma {:induction false} CachesAgree(ws: seq<LayerOps>, xs: seq<Row>, x: nat -> Row)
    requires Rows(xs, x)
    ensures CachesAre(CacheCoherence.CachesOf(ws, xs), ws, x, |xs|)
  {
    if ws != [] {
      LayerAgrees(ws[0], xs, x);
      CachesAgree(ws[1..], CacheCoherence.Causal(ws[0], xs), LayerFn(ws[0], x));
    }
  }

  lemma TokensAgree(m: Weights, tokens: seq<i32>)
    ensures Rows(EmbedRows(m.embedding, tokens), TokenFn(m, tokens))
  {
    var (xs, x) := (EmbedRows(m.embedding, tokens), TokenFn(m, tokens));
    forall j | 0 <= j < |xs|
      ensures xs[j] == x(j)
    {
      assert TokenId(tokens[j]) == if tokens[j] < 0 then tokens[j] as int + 4294967296 else tokens[j];
    }
  }

  lemma LogitsAgree(m: Weights, tokens: seq<i32>)
    requires tokens != []
    ensures Project(m.head, CacheCoherence.CausalLayers(m.layers, EmbedRows(m.embedding, tokens)), |tokens|)
         == Ok(Logits(m, tokens))
  {
    TokensAgree(m, tokens);
    LayersAgree(m.layers, EmbedRows(m.embedding, tokens), TokenFn(m, tokens), |tokens| - 1);
  }

  /** Answer and caches are the reference's. */
  ghost predicate IsReference(m: Weights, tokens: seq<i32>, r: (Result<seq<Word>, InferError>, seq<Cache>)) {
    && tokens != [] && |r.1| == |m.layers|
    && r.0 == Ok(Logits(m, tokens)) && CachesAre(r.1, m.layers, TokenFn(m, tokens), |tokens|)
  }

  lemma CausalIsReference(m: Weights, tokens: seq<i32>)
    requires tokens != []
    ensures var xs := EmbedRows(m.embedding, tokens);
            IsReference(m, tokens, (Project(m.head, CacheCoherence.CausalLayers(m.layers, xs), |xs|),
                                    CacheCoherence.CachesOf(m.layers, xs)))
  {
    LogitsAgree(m, tokens);
    TokensAgree(m, tokens);
    CachesAgree(m.layers, EmbedRows(m.embedding, tokens), TokenFn(m, tokens));
  }

  /**
   A prompt at position zero, whatever is cached, is answered with the logits written out above, and leaves in
   every layer the keys and values of its inputs, each key rotated by its own position.
   */
  lemma ForwardIsReference(m: Weights, cs: seq<Cache>, tokens: seq<i32>)
    requires CacheCoherence.LayersLawful(m.layers) && |cs| == |m.layers| && CachesValid(cs)
    requires 0 < |tokens| <= 4096 && TokensKnown(m.embedding.vocab, tokens)
    ensures IsReference(m, tokens, Forward(m, cs, tokens, 0))
  {
    CacheCoherence.RecomputeIsCausal(m, cs, tokens);
    CausalIsReference(m, tokens);
  }

  /** So a recomputation is the reference. */
  lemma RecomputeIsReference(m: Weights, prefix: seq<i32>)
    requires CacheCoherence.LayersLawful(m.layers)
    requires 0 < |prefix| <= 4096 && TokensKnown(m.embedding.vocab, prefix)
    ensures CacheCoherence.Recompute(m, prefix) == Ok(Logits(m, prefix))
  {
    ForwardIsReference(m, NoCaches(|m.layers|), prefix);
  }

  /** What a recomputation answers, it answers as the reference; it answers nothing for no tokens. */
  lemma AnsweredIsReference(m: Weights, prefix: seq<i32>)
    requires m.layers != [] && CacheCoherence.LayersLawful(m.layers)
    requires CacheCoherence.Recompute(m, prefix).Ok?
    ensures prefix != [] && CacheCoherence.Recompute(m, prefix) == Ok(Logits(m, prefix))
  {
    RecomputeIsReference(m, prefix);
  }

  /** A prompt is answered exactly if its ids, read as unsigned, are in the vocabulary, and at most 4096 of them. */
  lemma PromptServed(m: Weights, cs: seq<Cache>, tokens: seq<i32>)
    requires m.layers != [] && CacheCoherence.LayersLawful(m.layers) && |cs| == |m.layers| && CachesValid(cs)
    requires tokens != []
    ensures Forward(m, cs, tokens, 0).0.Ok?
       <==> && |tokens| <= 4096
            && forall i :: 0 <= i < |tokens| ==>
                 (if tokens[i] < 0 then tokens[i] as int + 4294967296 else tokens[i]) < m.embedding.vocab
  {
    assert forall i :: 0 <= i < |tokens| ==>
             TokenId(tokens[i]) == if tokens[i] < 0 then tokens[i] as int + 4294967296 else tokens[i];
    if CacheCoherence.Servable(m, CacheCoherence.Call(tokens, 0)) {
      ForwardIsReference(m, cs, tokens);
    } else {
      CacheCoherence.RefusedCall(m, cs, CacheCoherence.Call(tokens, 0));
    }
  }

  // ---------------------------------------------------------------- only distances matter

  /** Rotary embedding: scores depend on the distance of two positions only. */
  ghost predicate Relative(w: LayerOps) {
    forall h: nat, q: Row, k: Row, i: nat, j: nat, i': nat, j': nat
      {:trigger w.score(h, w.rope(q, i'), w.rope(k, j')), w.rope(q, i), w.rope(k, j)} ::
      i' - i == j' - j >= 0 ==> w.score(h, w.rope(q, i'), w.rope(k, j')) == w.score(h, w.rope(q, i), w.rope(k, j))
  }

  lemma ShiftedScores(w: LayerOps, h: nat, xs: seq<Row>, i: nat, pos: nat, maskRow: Option<nat>)
    requires Relative(w) && i < |xs|
    ensures Scores(w, h, QueryAt(w, xs[i], pos + i), KeysFrom(w, xs, pos), maskRow)
         == Scores(w, h, QueryAt(w, xs[i], i), KeysFrom(w, xs, 0), maskRow)
  {
    var (q, ks) := (w.wq(w.attnNorm(xs[i])), KeysFrom(w, xs, pos));
    forall j | 0 <= j < |xs|
      ensures w.score(h, w.rope(q, pos + i), ks[j]) == w.score(h, w.rope(q, i), KeysFrom(w, xs, 0)[j])
    {
      var k := w.wk(w.attnNorm(xs[j]));
      assert ks[j] == w.rope(k, pos + j) && KeysFrom(w, xs, 0)[j] == w.rope(k, j);
    }
  }

  lemma ShiftedAttend(w: LayerOps, xs: seq<Row>, i: nat, pos: nat, maskRow: Option<nat>)
    requires Relative(w) && i < |xs|
    ensures Attend(w, QueryAt(w, xs[i], pos + i), KeysFrom(w, xs, pos), ValuesOf(w, xs), maskRow)
         == Attend(w, QueryAt(w, xs[i], i), KeysFrom(w, xs, 0), ValuesOf(w, xs), maskRow)
  {
    var (q, q0, ks, ks0, vs) :=
      (QueryAt(w, xs[i], pos + i), QueryAt(w, xs[i], i), KeysFrom(w, xs, pos), KeysFrom(w, xs, 0), ValuesOf(w, xs));
    forall h: nat | h < w.heads
      ensures AttendHead(w, h, q, ks, vs, maskRow) == AttendHead(w, h, q0, ks0, vs, maskRow)
    {
      ShiftedScores(w, h, xs, i, pos, maskRow);
    }
    assert seq(w.heads, h requires 0 <= h < w.heads => AttendHead(w, h, q, ks, vs, maskRow))
        == seq(w.heads, h requires 0 <= h < w.heads => AttendHead(w, h, q0, ks0, vs, maskRow));
  }

  lemma FreshKV(w: LayerOps, c: Cache, xs: seq<Row>, pos: nat)
    requires CacheValid(c) && (!CacheCoherence.HasKeys(c) || pos == 0)
    ensures Extend(w, c, xs, pos) == KV(KeysFrom(w, xs, pos), ValuesOf(w, xs))
  {
    assert [] + KeysFrom(w, xs, pos) == KeysFrom(w, xs, pos) && [] + ValuesOf(w, xs) == ValuesOf(w, xs);
  }

  /** Row `i` of the attention block and all that follows it. */
  function RowOf(w: LayerOps, kv: KV, xs: seq<Row>, masked: bool, pos: nat, i: nat): Row
    requires |kv.ks| == |kv.vs| && i < |xs|
  {
    Finish(w, Attend(w, QueryAt(w, xs[i], pos + i), kv.ks, kv.vs, if masked then Some(i) else None), xs[i])
  }

  lemma RowsOf(w: LayerOps, kv: KV, xs: seq<Row>, masked: bool, pos: nat)
    requires |kv.ks| == |kv.vs|
    ensures AttendRows(w, kv, xs, masked, pos)
         == seq(|xs|, (i: nat) requires i < |xs| => RowOf(w, kv, xs, masked, pos, i))
  {
  }

  lemma ShiftedRow(w: LayerOps, xs: seq<Row>, masked: bool, pos: nat, i: nat)
    requires Relative(w) && i < |xs|
    ensures RowOf(w, KV(KeysFrom(w, xs, pos), ValuesOf(w, xs)), xs, masked, pos, i)
         == RowOf(w, KV(KeysFrom(w, xs, 0), ValuesOf(w, xs)), xs, masked, 0, i)
  {
    ShiftedAttend(w, xs, i, pos, if masked then Some(i) else None);
  }

  lemma ShiftedRows(w: LayerOps, xs: seq<Row>, masked: bool, pos: nat)
    requires Relative(w)
    ensures AttendRows(w, KV(KeysFrom(w, xs, pos), ValuesOf(w, xs)), xs, masked, pos)
         == AttendRows(w, KV(KeysFrom(w, xs, 0), ValuesOf(w, xs)), xs, masked, 0)
  {
    var (kv, kv0) := (KV(KeysFrom(w, xs, pos), ValuesOf(w, xs)), KV(KeysFrom(w, xs, 0), ValuesOf(w, xs)));
    RowsOf(w, kv, xs, masked, pos);
    RowsOf(w, kv0, xs, masked, 0);
    forall i: nat | i < |xs|
      ensures RowOf(w, kv, xs, masked, pos, i) == RowOf(w, kv0, xs, masked, 0, i)
    {
      ShiftedRow(w, xs, masked, pos, i);
    }
  }

  lemma ShiftedLayer(w: LayerOps, c: Cache, c0: Cache, xs: seq<Row>, pos: nat)
    requires Relative(w) && CacheValid(c) && CacheValid(c0) && !CacheCoherence.HasKeys(c)
    requires pos + |xs| <= MAX_SEQ_LEN
    ensures LayerForward(w, c, xs, MaskFor(|xs|), pos).0 == LayerForward(w, c0, xs, MaskFor(|xs|), 0).0
  {
    FreshKV(w, c, xs, pos);
    FreshKV(w, c0, xs, 0);
    ShiftedRows(w, xs, MaskFor(|xs|).Some?, pos);
  }

  /** A batch on caches without keys gives the same rows at any offset as at zero, whatever is cached there. */
  lemma {:induction false} ShiftInvariance(
    ws: seq<LayerOps>, cs: seq<Cache>, cs0: seq<Cache>, xs: seq<Row>, pos: nat)
    requires |ws| == |cs| == |cs0| && CachesValid(cs) && CachesValid(cs0) && pos + |xs| <= MAX_SEQ_LEN
    requires forall l :: 0 <= l < |ws| ==> Relative(ws[l]) && !CacheCoherence.HasKeys(cs[l])
    ensures RunLayers(ws, cs, xs, MaskFor(|xs|), pos).0 == RunLayers(ws, cs0, xs, MaskFor(|xs|), 0).0
  {
    if ws != [] {
      ShiftedLayer(ws[0], cs[0], cs0[0], xs, pos);
      var ys := LayerForward(ws[0], cs[0], xs, MaskFor(|xs|), pos).0;
      if ys.Ok? {
        ShiftInvariance(ws[1..], cs[1..], cs0[1..], ys.value, pos);
      }
    }
  }
}
