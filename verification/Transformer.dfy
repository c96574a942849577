/**
 The transformer with its key/value caches (src/quantized_llama.rs), as functions on values.
 Projections, norms, rotary embedding and feed-forward blocks are uninterpreted functions on rows.
 */
module Transformer {
  import opened Wrappers
  import opened Attention

  /** Rows of the rotary tables, hence the longest sequence. */
  const MAX_SEQ_LEN: nat := 4096

  /**
   The weights of one layer. `wq`, `wk` and `wv` include their optional biases; `score` is the scaled
   product of a query and a key in one head, `value` one coordinate of a value in one head (the key/value
   head that serves it), and `wo` joins the heads and projects.
   */
  datatype LayerOps = LayerOps(
    ar: Arith,
    attnNorm: Row -> Row,
    wq: Row -> Row,
    wk: Row -> Row,
    wv: Row -> Row,
    rope: (Row, nat) -> Row,
    heads: nat,
    headDim: nat,
    score: (nat, Row, Row) -> Word,
    value: (nat, nat, Row) -> Word,
    wo: seq<Row> -> Row,
    ffnNorm: Row -> Row,
    ffn: Row -> Row)

  datatype KV = KV(ks: seq<Row>, vs: seq<Row>)

  type Cache = Option<KV>

  datatype InferError =
    | PositionOutOfRange   // the rotary tables are too short
    | MaskShape            // the mask does not fit the score matrix
    | BadToken             // a token id outside the vocabulary
    | NoEmbeddings
    | NoHead
    | NoUpstreamState
    | NoSource
    | Batch                // a batch other than one
    | LastPosition         // fewer rows than tokens
    | Wire                 // the received state cannot be opened or decoded

  // ---------------------------------------------------------------- one layer

  /** Scores of one query in one head; with a mask row `i`, keys after `i` are masked out. */
  function Scores(w: LayerOps, h: nat, q: Row, ks: seq<Row>, maskRow: Option<nat>): (s: seq<Score>)
    ensures |s| == |ks|
  {
    seq(|ks|, j requires 0 <= j < |ks| =>
      if maskRow.Some? && j > maskRow.value then NegInf else Fin(w.score(h, q, ks[j])))
  }

  function Column(w: LayerOps, h: nat, c: nat, vs: seq<Row>): (xs: seq<Word>)
    ensures |xs| == |vs|
  {
    seq(|vs|, j requires 0 <= j < |vs| => w.value(h, c, vs[j]))
  }

  function AttendHead(w: LayerOps, h: nat, q: Row, ks: seq<Row>, vs: seq<Row>, maskRow: Option<nat>): Row
    requires |ks| == |vs|
  {
    var s := Scores(w, h, q, ks, maskRow);
    seq(w.headDim, c requires 0 <= c < w.headDim => Weighted(w.ar, s, Column(w, h, c, vs)))
  }

  function Attend(w: LayerOps, q: Row, ks: seq<Row>, vs: seq<Row>, maskRow: Option<nat>): Row
    requires |ks| == |vs|
  {
    w.wo(seq(w.heads, h requires 0 <= h < w.heads => AttendHead(w, h, q, ks, vs, maskRow)))
  }

  /** Sum of a block's output and its residual input, which has the same width. */
  function AddResidual(ar: Arith, y: Row, residual: Row): (z: Row)
    ensures |z| == |residual|
  {
    seq(|residual|, i requires 0 <= i < |residual| => if i < |y| then ar.add(y[i], residual[i]) else residual[i])
  }

  /** Everything after attention: residual, feed-forward block, residual. */
  function Finish(w: LayerOps, attn: Row, x: Row): (z: Row)
    ensures |z| == |x|
  {
    var z := AddResidual(w.ar, attn, x);
    AddResidual(w.ar, w.ffn(w.ffnNorm(z)), z)
  }

  function QueryAt(w: LayerOps, x: Row, pos: nat): Row { w.rope(w.wq(w.attnNorm(x)), pos) }

  function KeysFrom(w: LayerOps, xs: seq<Row>, pos: nat): (ks: seq<Row>)
    ensures |ks| == |xs|
  {
    seq(|xs|, i requires 0 <= i < |xs| => w.rope(w.wk(w.attnNorm(xs[i])), pos + i))
  }

  function ValuesOf(w: LayerOps, xs: seq<Row>): (vs: seq<Row>)
    ensures |vs| == |xs|
  {
    seq(|xs|, i requires 0 <= i < |xs| => w.wv(w.attnNorm(xs[i])))
  }

  /** The cache after a call: replaced at position zero or when empty, otherwise extended. */
  function Extend(w: LayerOps, c: Cache, xs: seq<Row>, pos: nat): KV {
    var added := KV(KeysFrom(w, xs, pos), ValuesOf(w, xs));
    if c.None? || pos == 0 then added else KV(c.value.ks + added.ks, c.value.vs + added.vs)
  }

  predicate CacheValid(c: Cache) {
    c.Some? ==> |c.value.ks| == |c.value.vs|
  }

  function AttendRows(w: LayerOps, kv: KV, xs: seq<Row>, masked: bool, pos: nat): (ys: seq<Row>)
    requires |kv.ks| == |kv.vs|
    ensures |ys| == |xs|
    ensures forall i :: 0 <= i < |xs| ==> |ys[i]| == |xs[i]|
  {
    seq(|xs|, i requires 0 <= i < |xs| =>
      Finish(w, Attend(w, QueryAt(w, xs[i], pos + i), kv.ks, kv.vs, if masked then Some(i) else None), xs[i]))
  }

  /**
   One layer on the rows of one call. A mask is a square of side `mask.value`; it must fit the scores.
   The cache is already replaced when the mask is found not to fit.
   */
  function LayerForward(w: LayerOps, c: Cache, xs: seq<Row>, mask: Option<nat>, pos: nat)
    : (r: (Result<seq<Row>, InferError>, Cache))
    requires CacheValid(c)
    ensures CacheValid(r.1)
    ensures r.0.Ok? ==> |r.0.value| == |xs| && forall i :: 0 <= i < |xs| ==> |r.0.value[i]| == |xs[i]|
  {
    if pos + |xs| > MAX_SEQ_LEN then
      (Err(PositionOutOfRange), c)
    else
      var kv := Extend(w, c, xs, pos);
      if mask.Some? && !(|xs| == |kv.ks| == mask.value) then
        (Err(MaskShape), Some(kv))
      else
        (Ok(AttendRows(w, kv, xs, mask.Some?, pos)), Some(kv))
  }

  // ---------------------------------------------------------------- a stack of layers

  predicate CachesValid(cs: seq<Cache>) {
    forall i :: 0 <= i < |cs| ==> CacheValid(cs[i])
  }

  /** The outcome of a stack of layers: the hidden state, or the first error, and every layer's cache. */
  type Outcome = (Result<seq<Row>, InferError>, seq<Cache>)

  /** The outcome with the caches of earlier layers put in front. */
  function Prepend(done: seq<Cache>, r: Outcome): Outcome {
    (r.0, done + r.1)
  }

  function RunLayers(ws: seq<LayerOps>, cs: seq<Cache>, xs: seq<Row>, mask: Option<nat>, pos: nat)
    : (r: (Result<seq<Row>, InferError>, seq<Cache>))
    requires |ws| == |cs| && CachesValid(cs)
    ensures |r.1| == |cs| && CachesValid(r.1)
    ensures r.0.Ok? ==> |r.0.value| == |xs| && forall i :: 0 <= i < |xs| ==> |r.0.value[i]| == |xs[i]|
  {
    if ws == [] then (Ok(xs), cs) else
      var (ys, c) := LayerForward(ws[0], cs[0], xs, mask, pos);
      Prepend([c], if ys.Err? then (ys, cs[1..]) else RunLayers(ws[1..], cs[1..], ys.value, mask, pos))
  }

  /** The layers [from, to) of a stack run on `xs`; the caches of the others stay. */
  function RunSpan(
    ws: seq<LayerOps>, cs: seq<Cache>, from: nat, to: nat, xs: seq<Row>, side: Option<nat>, pos: nat): (r: Outcome)
    requires |ws| == |cs| && from <= to <= |ws| && CachesValid(cs)
    ensures |r.1| == |cs| && CachesValid(r.1)
  {
    var r := RunLayers(ws[from..to], cs[from..to], xs, side, pos);
    (r.0, cs[..from] + r.1 + cs[to..])
  }

  lemma WholeSpan(ws: seq<LayerOps>, cs: seq<Cache>, xs: seq<Row>, side: Option<nat>, pos: nat)
    requires |ws| == |cs| && CachesValid(cs)
    ensures RunSpan(ws, cs, 0, |ws|, xs, side, pos) == RunLayers(ws, cs, xs, side, pos)
  {
    assert ws[0..|ws|] == ws && cs[0..|cs|] == cs;
    var r := RunLayers(ws, cs, xs, side, pos);
    assert [] + r.1 + [] == r.1;
  }

  /** A single-token call needs no mask. */
  function MaskFor(seqLen: nat): Option<nat> {
    if seqLen == 1 then None else Some(seqLen)
  }

  /** Token embeddings, and the final norm with the output head: uninterpreted functions. */
  datatype Embedding = Embedding(vocab: nat, embed: nat -> Row)

  datatype Head = Head(norm: Row -> Row, output: Row -> seq<Word>)

  /** A whole model. */
  datatype Weights = Weights(layers: seq<LayerOps>, embedding: Embedding, head: Head)

  type i32 = x: int | -0x8000_0000 <= x < 0x8000_0000

  /** Token ids are reinterpreted as unsigned. */
  function TokenId(t: i32): nat { if t < 0 then t + 0x1_0000_0000 else t }

  predicate TokensKnown(vocab: nat, tokens: seq<i32>) {
    forall i :: 0 <= i < |tokens| ==> TokenId(tokens[i]) < vocab
  }

  function EmbedRows(e: Embedding, tokens: seq<i32>): (xs: seq<Row>)
    ensures |xs| == |tokens|
  {
    seq(|tokens|, i requires 0 <= i < |tokens| => e.embed(TokenId(tokens[i])))
  }

  /** Final norm and output head on the last position of a call of `seqLen` tokens. */
  function Project(h: Head, xs: seq<Row>, seqLen: nat): Result<seq<Word>, InferError> {
    if 1 <= seqLen <= |xs| then Ok(h.output(h.norm(xs[seqLen - 1]))) else Err(LastPosition)
  }

  /** The undivided model on one call. */
  function Forward(m: Weights, cs: seq<Cache>, tokens: seq<i32>, pos: nat)
    : (r: (Result<seq<Word>, InferError>, seq<Cache>))
    requires |m.layers| == |cs| && CachesValid(cs)
    ensures |r.1| == |cs| && CachesValid(r.1)
  {
    if !TokensKnown(m.embedding.vocab, tokens) then (Err(BadToken), cs) else
      var (ys, cs') := RunLayers(m.layers, cs, EmbedRows(m.embedding, tokens), MaskFor(|tokens|), pos);
      if ys.Err? then (Err(ys.error), cs') else (Project(m.head, ys.value, |tokens|), cs')
  }

  function NoCaches(n: nat): (cs: seq<Cache>)
    ensures |cs| == n && CachesValid(cs)
  {
    seq(n, i requires 0 <= i < n => None)
  }

  // ---------------------------------------------------------------- layer stacks compose

  /** Continuing an outcome with a further stack of layers; an error stops it and leaves their caches alone. */
  function Continue(r: Outcome, ws: seq<LayerOps>, cs: seq<Cache>, mask: Option<nat>, pos: nat): Outcome
    requires |ws| == |cs| && CachesValid(cs)
  {
    Prepend(r.1, if r.0.Err? then (r.0, cs) else RunLayers(ws, cs, r.0.value, mask, pos))
  }

  /** Running two stacks in sequence is running their concatenation, results, errors and caches alike. */
  lemma {:induction false} RunLayersAppend(
    ws: seq<LayerOps>, ws': seq<LayerOps>, cs: seq<Cache>, cs': seq<Cache>, xs: seq<Row>, mask: Option<nat>, pos: nat)
    requires |ws| == |cs| && |ws'| == |cs'| && CachesValid(cs) && CachesValid(cs')
    ensures RunLayers(ws + ws', cs + cs', xs, mask, pos)
         == Continue(RunLayers(ws, cs, xs, mask, pos), ws', cs', mask, pos)
  {
    if ws == [] {
      assert ws + ws' == ws' && cs + cs' == cs';
      var all := RunLayers(ws', cs', xs, mask, pos);
      assert cs + all.1 == all.1;
    } else {
      assert (ws + ws')[1..] == ws[1..] + ws' && (cs + cs')[1..] == cs[1..] + cs';
      var (ys, c) := LayerForward(ws[0], cs[0], xs, mask, pos);
      var tail := if ys.Err? then (ys, cs[1..]) else RunLayers(ws[1..], cs[1..], ys.value, mask, pos);
      if ys.Ok? {
        RunLayersAppend(ws[1..], ws', cs[1..], cs', ys.value, mask, pos);
      }
      ContinuePrepend([c], tail, ws', cs', mask, pos);
    }
  }

  lemma ContinuePrepend(done: seq<Cache>, r: Outcome, ws: seq<LayerOps>, cs: seq<Cache>, mask: Option<nat>, pos: nat)
    requires |ws| == |cs| && CachesValid(cs)
    ensures Continue(Prepend(done, r), ws, cs, mask, pos) == Prepend(done, Continue(r, ws, cs, mask, pos))
  {
    var last := if r.0.Err? then (r.0, cs) else RunLayers(ws, cs, r.0.value, mask, pos);
    assert (done + r.1) + last.1 == done + (r.1 + last.1);
  }
}
