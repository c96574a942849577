/**
 The stateful objects of a model: layers that keep their caches, and the part of a model a node holds, with its
 memoised masks (src/quantized_llama.rs). Each method is proved against the functions on values.
 */
module LlamaModel {
  import opened Wrappers
  import opened Attention
  import opened Transformer
  import opened Backend

  type Mask = seq<seq<bool>>

  /** The square causal mask: position `j` is masked for row `i` when it comes later. */
  predicate IsCausal(mask: Mask, t: nat) {
    |mask| == t && forall i :: 0 <= i < t ==> |mask[i]| == t && forall j :: 0 <= j < t ==> (mask[i][j] <==> j > i)
  }

  /** Scores filled with minus infinity where a mask row says so. */
  function MaskedFill(scores: seq<Score>, row: seq<bool>): (s: seq<Score>)
    requires |row| == |scores|
    ensures |s| == |scores|
  {
    seq(|scores|, j requires 0 <= j < |scores| => if row[j] then NegInf else scores[j])
  }

  /** The attention of one row, with its mask row as the code applies it. */
  function AttendMasked(w: LayerOps, q: Row, kv: KV, mask: Option<Mask>, i: nat): Row
    requires |kv.ks| == |kv.vs|
    requires mask.Some? ==> i < |mask.value| && |mask.value[i]| == |kv.ks|
  {
    w.wo(seq(w.heads, h requires 0 <= h < w.heads =>
      var att := Scores(w, h, q, kv.ks, None);
      var s := if mask.Some? then MaskedFill(att, mask.value[i]) else att;
      seq(w.headDim, c requires 0 <= c < w.headDim => Weighted(w.ar, s, Column(w, h, c, kv.vs)))))
  }

  lemma MaskedFillIsScores(w: LayerOps, h: nat, q: Row, ks: seq<Row>, mask: Mask, t: nat, i: nat)
    requires IsCausal(mask, t) && i < t == |ks|
    ensures MaskedFill(Scores(w, h, q, ks, None), mask[i]) == Scores(w, h, q, ks, Some(i))
  {
  }

  /** Applying the mask matrix is masking by position. */
  lemma AttendMaskedIsAttend(w: LayerOps, q: Row, kv: KV, mask: Option<Mask>, t: nat, i: nat)
    requires |kv.ks| == |kv.vs|
    requires mask.Some? ==> IsCausal(mask.value, t) && i < t == |kv.ks|
    ensures AttendMasked(w, q, kv, mask, i) == Attend(w, q, kv.ks, kv.vs, if mask.Some? then Some(i) else None)
  {
    var row := if mask.Some? then Some(i) else None;
    forall h: nat | h < w.heads
      ensures var att := Scores(w, h, q, kv.ks, None);
              var s := if mask.Some? then MaskedFill(att, mask.value[i]) else att;
              s == Scores(w, h, q, kv.ks, row)
    {
      if mask.Some? {
        MaskedFillIsScores(w, h, q, kv.ks, mask.value, t, i);
      }
    }
    assert seq(w.heads, h requires 0 <= h < w.heads =>
             var att := Scores(w, h, q, kv.ks, None);
             var s := if mask.Some? then MaskedFill(att, mask.value[i]) else att;
             seq(w.headDim, c requires 0 <= c < w.headDim => Weighted(w.ar, s, Column(w, h, c, kv.vs))))
        == seq(w.heads, h requires 0 <= h < w.heads => AttendHead(w, h, q, kv.ks, kv.vs, row));
  }

  /** The mask argument of a call, as a matrix and as its side. */
  predicate MaskMatches(mask: Option<Mask>, side: Option<nat>) {
    if side.Some? then mask.Some? && IsCausal(mask.value, side.value) else mask.None?
  }

  predicate MaskFits(mask: Option<Mask>, rows: nat, keys: nat) {
    mask.Some? ==> rows == keys == |mask.value|
  }

  /** The attention outputs of one call: a query, its scores under the mask matrix and their average, row by row. */
  function AttendBatch(w: LayerOps, x: seq<Row>, kv: KV, mask: Option<Mask>, pos: nat): (ys: seq<Row>)
    requires |kv.ks| == |kv.vs|
    requires MaskFits(mask, |x|, |kv.ks|)
    requires mask.Some? ==> IsCausal(mask.value, |mask.value|)
    ensures |ys| == |x|
  {
    seq(|x|, i requires 0 <= i < |x| => AttendMasked(w, w.rope(w.wq(x[i]), pos + i), kv, mask, i))
  }

  /** `x` holds the normalised rows of `xs`. */
  predicate Normalised(w: LayerOps, xs: seq<Row>, x: seq<Row>) {
    |x| == |xs| && forall i :: 0 <= i < |xs| ==> x[i] == w.attnNorm(xs[i])
  }

  /** The attention block of a layer on raw rows `xs`, by position: its outputs and the new cache. */
  function AttentionBlock(w: LayerOps, c: Cache, xs: seq<Row>, side: Option<nat>, pos: nat): (r: BlockOutcome)
    requires CacheValid(c)
    ensures r.0.Ok? ==> |r.0.value| == |xs|
  {
    if pos + |xs| > MAX_SEQ_LEN then
      (Err(PositionOutOfRange), c)
    else
      var kv := Extend(w, c, xs, pos);
      if side.Some? && !(|xs| == |kv.ks| == side.value) then
        (Err(MaskShape), Some(kv))
      else
        (Ok(seq(|xs|, i requires 0 <= i < |xs| =>
              Attend(w, QueryAt(w, xs[i], pos + i), kv.ks, kv.vs, if side.Some? then Some(i) else None))), Some(kv))
  }

  type BlockOutcome = (Result<seq<Row>, InferError>, Cache)

  /** Residual, feed-forward block and residual, on every row. */
  function FinishAll(w: LayerOps, attn: BlockOutcome, xs: seq<Row>): BlockOutcome
    requires attn.0.Ok? ==> |attn.0.value| == |xs|
  {
    if attn.0.Err? then attn else
      (Ok(seq(|xs|, i requires 0 <= i < |xs| => Finish(w, attn.0.value[i], xs[i]))), attn.1)
  }

  /** A layer is its attention block followed, row by row, by the rest. */
  lemma LayerIsAttentionThenFinish(w: LayerOps, c: Cache, xs: seq<Row>, side: Option<nat>, pos: nat)
    requires CacheValid(c)
    ensures LayerForward(w, c, xs, side, pos) == FinishAll(w, AttentionBlock(w, c, xs, side, pos), xs)
  {
    if pos + |xs| <= MAX_SEQ_LEN {
      var kv := Extend(w, c, xs, pos);
      if side.None? || |xs| == |kv.ks| == side.value {
        assert AttendRows(w, kv, xs, side.Some?, pos) == FinishAll(w, AttentionBlock(w, c, xs, side, pos), xs).0.value;
      }
    }
  }

  lemma BatchIsAttention(
    w: LayerOps, xs: seq<Row>, x: seq<Row>, kv: KV, mask: Option<Mask>, side: Option<nat>, pos: nat)
    requires Normalised(w, xs, x) && |kv.ks| == |kv.vs|
    requires MaskMatches(mask, side) && MaskFits(mask, |x|, |kv.ks|)
    ensures AttendBatch(w, x, kv, mask, pos)
         == seq(|xs|, i requires 0 <= i < |xs| =>
              Attend(w, QueryAt(w, xs[i], pos + i), kv.ks, kv.vs, if side.Some? then Some(i) else None))
  {
    forall i | 0 <= i < |xs|
      ensures AttendMasked(w, w.rope(w.wq(x[i]), pos + i), kv, mask, i)
           == Attend(w, QueryAt(w, xs[i], pos + i), kv.ks, kv.vs, if side.Some? then Some(i) else None)
    {
      AttendMaskedIsAttend(w, QueryAt(w, xs[i], pos + i), kv, mask, |kv.ks|, i);
    }
  }

  // ---------------------------------------------------------------- one layer

  /** Adds the residual, applies the feed-forward block to the batch and adds its residual. */
  method FeedForward(w: LayerOps, attn: seq<Row>, xs: seq<Row>) returns (out: seq<Row>)
    requires |attn| == |xs|
    ensures out == seq(|xs|, i requires 0 <= i < |xs| => Finish(w, attn[i], xs[i]))
  {
    var x := seq(|xs|, i requires 0 <= i < |xs| => AddResidual(w.ar, attn[i], xs[i]));
    var normed := seq(|x|, i requires 0 <= i < |x| => w.ffnNorm(x[i]));
    out := seq(|x|, i requires 0 <= i < |x| => AddResidual(w.ar, w.ffn(normed[i]), x[i]));
  }

  class LayerWeights {
    const w: LayerOps
    var kvCache: Cache

    constructor (w: LayerOps)
      ensures this.w == w && kvCache == None
    {
      this.w := w;
      kvCache := None;
    }

    /** Projects and rotates the rows of the call into keys and values, and replaces or extends the cache. */
    method ExtendCache(ghost xs: seq<Row>, x: seq<Row>, indexPos: nat) returns (kv: KV)
      requires CacheValid(kvCache) && Normalised(w, xs, x)
      modifies this
      ensures kv == Extend(w, old(kvCache), xs, indexPos) && kvCache == Some(kv)
    {
      var k := seq(|x|, i requires 0 <= i < |x| => w.wk(x[i]));
      var v := seq(|x|, i requires 0 <= i < |x| => w.wv(x[i]));
      k := seq(|k|, i requires 0 <= i < |k| => w.rope(k[i], indexPos + i));
      assert k == KeysFrom(w, xs, indexPos) && v == ValuesOf(w, xs);
      if kvCache.Some? && indexPos != 0 {
        k, v := kvCache.value.ks + k, kvCache.value.vs + v;
      }
      kv := KV(k, v);
      kvCache := Some(kv);
    }

    /** Attends with every row; `x` is the normalised input `xs`. */
    method ForwardAttn(ghost xs: seq<Row>, x: seq<Row>, mask: Option<Mask>, ghost side: Option<nat>, indexPos: nat)
      returns (r: Result<seq<Row>, InferError>)
      requires CacheValid(kvCache) && MaskMatches(mask, side) && Normalised(w, xs, x)
      modifies this
      ensures (r, kvCache) == AttentionBlock(w, old(kvCache), xs, side, indexPos)
    {
      if indexPos + |x| > MAX_SEQ_LEN {
        return Err(PositionOutOfRange);
      }
      var kv := ExtendCache(xs, x, indexPos);
      if mask.Some? && !(|x| == |kv.ks| == |mask.value|) {
        return Err(MaskShape);
      }
      BatchIsAttention(w, xs, x, kv, mask, side, indexPos);
      return Ok(AttendBatch(w, x, kv, mask, indexPos));
    }

    /** The layer's part of the forward loop: norm, attention, residual, feed-forward block, residual. */
    method Forward(xs: seq<Row>, mask: Option<Mask>, ghost side: Option<nat>, indexPos: nat)
      returns (r: Result<seq<Row>, InferError>)
      requires CacheValid(kvCache) && MaskMatches(mask, side)
      modifies this
      ensures CacheValid(kvCache)
      ensures (r, kvCache) == LayerForward(w, old(kvCache), xs, side, indexPos)
    {
      LayerIsAttentionThenFinish(w, kvCache, xs, side, indexPos);
      var x := seq(|xs|, i requires 0 <= i < |xs| => w.attnNorm(xs[i]));
      var attn := ForwardAttn(xs, x, mask, side, indexPos);
      if attn.Err? {
        return Err(attn.error);
      }
      var out := FeedForward(w, attn.value, xs);
      return Ok(out);
    }
  }

  // ---------------------------------------------------------------- the layer loop, on values

  /** One pass over layers [from, to), with the caches at its start; `rest` tells what the layers from one on give. */
  datatype Pass = Pass(
    ws: seq<LayerOps>, cs: seq<Cache>, from: nat, to: nat, side: Option<nat>, pos: nat,
    rest: (nat, seq<Row>) -> Outcome)

  predicate PassValid(p: Pass) {
    |p.ws| == |p.cs| && p.from <= p.to <= |p.ws| && CachesValid(p.cs)
  }

  /** What running the layers from `i` on gives. */
  function Rest(p: Pass, i: nat, layerIn: seq<Row>): (r: Outcome)
    requires PassValid(p) && i <= p.to
    ensures |r.1| == p.to - i
  {
    RunLayers(p.ws[i..p.to], p.cs[i..p.to], layerIn, p.side, p.pos)
  }

  ghost predicate RestIs(p: Pass)
    requires PassValid(p)
  {
    forall i: nat, x {:trigger Rest(p, i, x)} :: i <= p.to ==> p.rest(i, x) == Rest(p, i, x)
  }

  function RestFn(ws: seq<LayerOps>, cs: seq<Cache>, to: nat, side: Option<nat>, pos: nat)
    : (nat, seq<Row>) -> Outcome
    requires |ws| == |cs| && to <= |ws| && CachesValid(cs)
  {
    (i: nat, x: seq<Row>) => if i <= to then RunLayers(ws[i..to], cs[i..to], x, side, pos) else (Ok(x), [])
  }

  /** The result of the pass and all the caches after it, when `rest` is left to do. */
  function Completed(p: Pass, i: nat, rest: Outcome, now: seq<Cache>): Outcome
    requires i <= p.to <= |now|
  {
    (rest.0, now[..i] + rest.1 + now[p.to..])
  }

  /** Before layer `i`: the layers below have run, and running the rest on `layerIn` completes the pass. */
  ghost predicate Progress(p: Pass, i: nat, whole: Outcome, layerIn: seq<Row>, now: seq<Cache>)
    requires PassValid(p) && p.from <= i <= p.to
  {
    |now| == |p.cs| && now[i..] == p.cs[i..] && whole == Completed(p, i, p.rest(i, layerIn), now)
  }

  lemma SpanStarts(p: Pass, xs: seq<Row>)
    requires PassValid(p) && RestIs(p)
    ensures Progress(p, p.from, RunSpan(p.ws, p.cs, p.from, p.to, xs, p.side, p.pos), xs, p.cs)
  {
    assert p.rest(p.from, xs) == Rest(p, p.from, xs);
  }

  /** One layer's outcome put before that of the layers after it, whose caches are `left`. */
  function Before(out: Result<seq<Row>, InferError>, c: Cache, left: seq<Cache>, next: Outcome): Outcome {
    Prepend([c], if out.Err? then (out, left) else next)
  }

  lemma SameMiddle(a: seq<Cache>, b: seq<Cache>, i: nat, j: nat)
    requires |a| == |b| && i < j <= |a| && a[i..] == b[i..]
    ensures a[i + 1..j] == b[i + 1..j]
  {
    forall k | i + 1 <= k < j
      ensures a[k] == b[k]
    {
      assert a[i..][k - i] == b[i..][k - i];
    }
  }

  lemma CompletesAlike(p: Pass, i: nat, out: Result<seq<Row>, InferError>, c: Cache, next: Outcome, now: seq<Cache>)
    requires PassValid(p) && i < p.to && |now| == |p.cs| && now[i..] == p.cs[i..]
    ensures var rest := Before(out, c, p.cs[i + 1..p.to], next);
            && (out.Ok? ==> Completed(p, i, rest, now) == Completed(p, i + 1, next, now[i := c]))
            && (out.Err? ==> Completed(p, i, rest, now) == (out, now[i := c]))
  {
    var now' := now[i := c];
    assert now'[..i + 1] == now[..i] + [c] && now'[p.to..] == now[p.to..];
    if out.Ok? {
      assert now[..i] + ([c] + next.1) == now'[..i + 1] + next.1;
    } else {
      SameMiddle(p.cs, now, i, p.to);
      assert now'[i + 1..p.to] == now[i + 1..p.to];
      assert now[..i] + ([c] + p.cs[i + 1..p.to]) + now[p.to..] == now';
    }
  }

  lemma SpanSteps(p: Pass, i: nat, whole: Outcome, now: seq<Cache>, layerIn: seq<Row>)
    requires PassValid(p) && RestIs(p) && p.from <= i < p.to && Progress(p, i, whole, layerIn, now)
    ensures now[i] == p.cs[i]
    ensures var (out, c) := LayerForward(p.ws[i], p.cs[i], layerIn, p.side, p.pos);
            && (out.Ok? ==> Progress(p, i + 1, whole, out.value, now[i := c]))
            && (out.Err? ==> whole == (Err(out.error), now[i := c]))
  {
    assert now[i] == now[i..][0] == p.cs[i..][0];
    var (out, c) := LayerForward(p.ws[i], p.cs[i], layerIn, p.side, p.pos);
    var next := if out.Ok? then Rest(p, i + 1, out.value) else (out, []);
    assert out.Ok? ==> p.rest(i + 1, out.value) == next;
    assert p.ws[i..p.to][1..] == p.ws[i + 1..p.to] && p.cs[i..p.to][1..] == p.cs[i + 1..p.to];
    assert p.rest(i, layerIn) == Rest(p, i, layerIn) == Before(out, c, p.cs[i + 1..p.to], next);
    CompletesAlike(p, i, out, c, next, now);
    assert now[i := c][i + 1..] == now[i..][1..] == p.cs[i..][1..];
  }

  lemma SpanEnds(p: Pass, whole: Outcome, layerIn: seq<Row>, now: seq<Cache>)
    requires PassValid(p) && RestIs(p) && Progress(p, p.to, whole, layerIn, now)
    ensures whole == (Ok(layerIn), now)
  {
    assert p.rest(p.to, layerIn) == Rest(p, p.to, layerIn);
    assert p.ws[p.to..p.to] == [] && p.cs[p.to..p.to] == [];
    assert now == now[..p.to] + [] + now[p.to..];
  }

  /** `forward` on whatever part of a model is held: without embeddings it stops at once, without a head at the end. */
  function ForwardHeld(h: Held, cs: seq<Cache>, tokens: seq<i32>, pos: nat)
    : (r: (Result<seq<Word>, InferError>, seq<Cache>))
    requires |h.layers| == |cs| && CachesValid(cs)
  {
    if h.embedding.None? then (Err(NoEmbeddings), cs)
    else if !TokensKnown(h.embedding.value.vocab, tokens) then (Err(BadToken), cs)
    else
      var (ys, cs') := RunLayers(h.layers, cs, EmbedRows(h.embedding.value, tokens), MaskFor(|tokens|), pos);
      (if ys.Err? then Err(ys.error)
       else if h.head.None? then Err(NoHead)
       else Project(h.head.value, ys.value, |tokens|), cs')
  }

  /** A whole model answers as the model; a part without its first layer refuses every call and keeps its caches. */
  lemma ForwardOfSlice(m: Weights, start: nat, end: nat, cs: seq<Cache>, tokens: seq<i32>, pos: nat)
    requires |cs| == |LoadSlice(m, start, end).layers| && CachesValid(cs)
    ensures 0 < start && m.layers != [] ==>
              ForwardHeld(LoadSlice(m, start, end), cs, tokens, pos) == (Err(NoEmbeddings), cs)
    ensures start == 0 && end >= |m.layers| ==>
              ForwardHeld(LoadSlice(m, start, end), cs, tokens, pos) == Transformer.Forward(m, cs, tokens, pos)
  {
    if start == 0 && end >= |m.layers| {
      assert LoadSlice(m, start, end) == Held(m.layers, Some(m.embedding), Some(m.head), 0, |m.layers|);
    }
  }

  /**
   A part of a model with its first layer but not its last never answers; all the same its caches become what
   the undivided model's caches of those layers become.
   */
  lemma ForwardWithoutExit(m: Weights, end: nat, cs: seq<Cache>, rest: seq<Cache>, tokens: seq<i32>, pos: nat)
    requires end < |m.layers| && |cs| == end && |rest| == |m.layers| - end && CachesValid(cs) && CachesValid(rest)
    ensures var (out, cs') := ForwardHeld(LoadSlice(m, 0, end), cs, tokens, pos);
            out.Err? && cs' == Transformer.Forward(m, cs + rest, tokens, pos).1[..end]
  {
    if TokensKnown(m.embedding.vocab, tokens) {
      var (xs, side) := (EmbedRows(m.embedding, tokens), MaskFor(|tokens|));
      assert m.layers == m.layers[..end] + m.layers[end..];
      RunLayersAppend(m.layers[..end], m.layers[end..], cs, rest, xs, side, pos);
      assert LoadSlice(m, 0, end).layers == m.layers[..end];
    } else {
      assert (cs + rest)[..end] == cs;
    }
  }

  // ---------------------------------------------------------------- the model

  class ModelWeights {
    const layers: seq<LayerWeights>
    const embedding: Option<Embedding>
    const head: Option<Head>
    const layerOffset: nat
    const totalLayers: nat
    var masks: map<nat, Mask>

    ghost predicate Valid()
      reads this, layers
    {
      && (forall i, j :: 0 <= i < j < |layers| ==> layers[i] != layers[j])
      && (forall i :: 0 <= i < |layers| ==> CacheValid(layers[i].kvCache))
      && (forall t :: t in masks ==> IsCausal(masks[t], t))
    }

    ghost function Repr(): (repr: set<object>)
      ensures this in repr && forall i :: 0 <= i < |layers| ==> layers[i] in repr
    {
      {this} + (set i | 0 <= i < |layers| :: layers[i] as object)
    }

    ghost function Caches(): (cs: seq<Cache>)
      reads layers
      ensures |cs| == |layers|
    {
      seq(|layers|, i requires 0 <= i < |layers| reads layers => layers[i].kvCache)
    }

    ghost function Ops(): (ws: seq<LayerOps>)
      ensures |ws| == |layers|
    {
      seq(|layers|, i requires 0 <= i < |layers| => layers[i].w)
    }

    ghost function HeldView(): Held {
      Held(Ops(), embedding, head, layerOffset, totalLayers)
    }

    /** Loads the layers of a clamped range, with empty caches, and the entry and exit parts if they belong to it. */
    constructor (source: Weights, start: nat, end: nat)
      ensures Valid() && fresh(layers)
      ensures HeldView() == LoadSlice(source, start, end) && Caches() == NoCaches(|layers|)
    {
      var blockCount := |source.layers|;
      var lo := Min(start, blockCount);
      var hi := Max(Min(end, blockCount), lo);
      var loaded: seq<LayerWeights> := [];
      for i := lo to hi
        invariant |loaded| == i - lo && fresh(loaded)
        invariant forall k :: 0 <= k < |loaded| ==> loaded[k].w == source.layers[lo + k] && loaded[k].kvCache == None
        invariant forall j, k :: 0 <= j < k < |loaded| ==> loaded[j] != loaded[k]
      {
        var layer := new LayerWeights(source.layers[i]);
        loaded := loaded + [layer];
      }
      layers := loaded;
      embedding := if lo == 0 then Some(source.embedding) else None;
      head := if hi >= blockCount then Some(source.head) else None;
      layerOffset, totalLayers := lo, blockCount;
      masks := map[];
      new;
      assert Ops() == source.layers[lo..hi];
    }

    /** The causal mask of a side, from the memo table if it is there. */
    method MaskOf(t: nat) returns (mask: Mask)
      requires Valid()
      modifies this`masks
      ensures Valid() && IsCausal(mask, t)
    {
      if t in masks {
        return masks[t];
      }
      mask := seq(t, i requires 0 <= i < t => seq(t, j requires 0 <= j < t => j > i));
      masks := masks[t := mask];
    }

    /** The mask argument for a call of `seqLen` tokens. */
    method MaskArgument(seqLen: nat) returns (mask: Option<Mask>)
      requires Valid()
      modifies this`masks
      ensures Valid() && MaskMatches(mask, MaskFor(seqLen))
    {
      if seqLen == 1 {
        return None;
      }
      var square := MaskOf(seqLen);
      return Some(square);
    }

    /** Runs the held layer with local index `i`. */
    method RunLayer(i: nat, layerIn: seq<Row>, mask: Option<Mask>, ghost side: Option<nat>, indexPos: nat)
      returns (out: Result<seq<Row>, InferError>)
      requires Valid() && i < |layers| && MaskMatches(mask, side)
      modifies layers
      ensures Valid()
      ensures var (r, c) := LayerForward(Ops()[i], old(Caches())[i], layerIn, side, indexPos);
              out == r && Caches() == old(Caches())[i := c]
    {
      out := layers[i].Forward(layerIn, mask, side, indexPos);
      assert Caches() == old(Caches())[i := layers[i].kvCache];
    }

    /** In the layer loop, before layer `i`. */
    ghost predicate At(p: Pass, i: nat, whole: Outcome, layerIn: seq<Row>)
      reads this, layers
    {
      && Valid() && PassValid(p) && RestIs(p) && p.from <= i <= p.to && p.ws == Ops()
      && Progress(p, i, whole, layerIn, Caches())
    }

    ghost predicate Done(whole: Outcome)
      reads this, layers
    {
      Valid() && Caches() == whole.1
    }

    /** One round of the layer loop. */
    method RunRound(
      i: nat, layerIn: seq<Row>, mask: Option<Mask>, indexPos: nat, ghost p: Pass, ghost whole: Outcome)
      returns (out: Result<seq<Row>, InferError>)
      requires At(p, i, whole, layerIn) && i < p.to && p.pos == indexPos && MaskMatches(mask, p.side)
      modifies layers
      ensures if out.Ok? then At(p, i + 1, whole, out.value) else whole.0 == out && Done(whole)
    {
      SpanSteps(p, i, whole, Caches(), layerIn);
      out := RunLayer(i, layerIn, mask, p.side, indexPos);
    }

    /** The pass over layers [from, to), and what it comes to. */
    lemma Entering(from: nat, to: nat, xs: seq<Row>, side: Option<nat>, pos: nat) returns (p: Pass, whole: Outcome)
      requires Valid() && from <= to <= |layers|
      ensures p.from == from && p.to == to && p.side == side && p.pos == pos
      ensures At(p, from, whole, xs)
      ensures whole == RunSpan(Ops(), Caches(), from, to, xs, side, pos)
    {
      p := Pass(Ops(), Caches(), from, to, side, pos, RestFn(Ops(), Caches(), to, side, pos));
      whole := RunSpan(p.ws, p.cs, p.from, p.to, xs, p.side, p.pos);
      SpanStarts(p, xs);
    }

    /** The pass over the held layers of [start, end). */
    lemma EnteringVisit(start: nat, end: nat, xs: seq<Row>, side: Option<nat>, pos: nat)
      returns (p: Pass, whole: Outcome)
      requires Valid()
      ensures (p.from, p.to) == Visits(HeldView(), start, end) && p.side == side && p.pos == pos
      ensures At(p, p.from, whole, xs)
      ensures whole == RunVisited(HeldView(), Caches(), start, end, xs, side, pos)
    {
      var (from, to) := Visits(HeldView(), start, end);
      p, whole := Entering(from, to, xs, side, pos);
    }

    lemma Leaving(p: Pass, whole: Outcome, layerIn: seq<Row>)
      requires At(p, p.to, whole, layerIn)
      ensures whole.0 == Ok(layerIn) && Done(whole)
    {
      SpanEnds(p, whole, layerIn, Caches());
    }

    /** Runs the held layers with local indices [from, to), each on the output of the one before. */
    method RunLoop(
      from: nat, to: nat, xs: seq<Row>, mask: Option<Mask>, indexPos: nat, ghost p: Pass, ghost whole: Outcome)
      returns (r: Result<seq<Row>, InferError>)
      requires At(p, from, whole, xs) && p.from == from && p.to == to && p.pos == indexPos && MaskMatches(mask, p.side)
      modifies layers
      ensures r == whole.0 && Done(whole)
    {
      var layerIn := xs;
      for i := from to to
        invariant At(p, i, whole, layerIn)
      {
        var out := RunRound(i, layerIn, mask, indexPos, p, whole);
        if out.Err? {
          return out;
        }
        layerIn := out.value;
      }
      Leaving(p, whole, layerIn);
      return Ok(layerIn);
    }

    /** The layers of [start, end) that are held, in order. */
    method RunHeldLayers(
      start: nat, end: nat, xs: seq<Row>, mask: Option<Mask>, indexPos: nat, ghost p: Pass, ghost whole: Outcome)
      returns (r: Result<seq<Row>, InferError>)
      requires At(p, p.from, whole, xs) && p.pos == indexPos && MaskMatches(mask, p.side)
      requires (p.from, p.to) == Visits(HeldView(), start, end)
      modifies layers
      ensures r == whole.0 && Done(whole)
    {
      var localEnd := Min(end, layerOffset + |layers|);
      var first := Max(start, layerOffset);
      var (from, to) := if localEnd <= first then (0, 0) else (first - layerOffset, localEnd - layerOffset);
      r := RunLoop(from, to, xs, mask, indexPos, p, whole);
    }

    /** The undivided model on one call: embed, run every layer, normalise and project the last position. */
    method Forward(tokens: seq<i32>, indexPos: nat) returns (r: Result<seq<Word>, InferError>)
      requires Valid()
      modifies this`masks, layers
      ensures Valid()
      ensures (r, Caches()) == ForwardHeld(HeldView(), old(Caches()), tokens, indexPos)
    {
      ghost var ws, cs := Ops(), Caches();
      var mask := MaskArgument(|tokens|);
      if embedding.None? {
        return Err(NoEmbeddings);
      }
      if !TokensKnown(embedding.value.vocab, tokens) {
        return Err(BadToken);
      }
      var layerIn := EmbedRows(embedding.value, tokens);
      WholeSpan(ws, cs, layerIn, MaskFor(|tokens|), indexPos);
      ghost var p, whole := Entering(0, |layers|, layerIn, MaskFor(|tokens|), indexPos);
      var out := RunLoop(0, |layers|, layerIn, mask, indexPos, p, whole);
      if out.Err? {
        return Err(out.error);
      }
      if head.None? {
        return Err(NoHead);
      }
      return Project(head.value, out.value, |tokens|);
    }
  }
}
