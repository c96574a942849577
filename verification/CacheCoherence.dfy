/**
 The key/value caches agree with recomputation: over any run of calls that restart at position zero or
 append one token, each answer is the answer of one causally masked pass over the whole prefix.
 */
module CacheCoherence {
  import opened Wrappers
  import opened Attention
  import opened Transformer

  ghost predicate LayersLawful(ws: seq<LayerOps>) {
    forall l :: 0 <= l < |ws| ==> ZeroLaws(ws[l].ar)
  }

  // ---------------------------------------------------------------- causal attention without caches

  /** The cache a layer ought to hold after the rows `xs` of a sequence. */
  function CacheOf(w: LayerOps, xs: seq<Row>): Cache {
    Some(KV(KeysFrom(w, xs, 0), ValuesOf(w, xs)))
  }

  /** Row `i` of a layer's output when it attends to the rows up to itself, with no mask and no cache. */
  function CausalRow(w: LayerOps, xs: seq<Row>, i: nat): Row
    requires i < |xs|
  {
    var seen := xs[..i + 1];
    Finish(w, Attend(w, QueryAt(w, xs[i], i), KeysFrom(w, seen, 0), ValuesOf(w, seen), None), xs[i])
  }

  function Causal(w: LayerOps, xs: seq<Row>): (ys: seq<Row>)
    ensures |ys| == |xs|
  {
    seq(|xs|, i requires 0 <= i < |xs| => CausalRow(w, xs, i))
  }

  function CausalLayers(ws: seq<LayerOps>, xs: seq<Row>): (ys: seq<Row>)
    ensures |ys| == |xs|
  {
    if ws == [] then xs else CausalLayers(ws[1..], Causal(ws[0], xs))
  }

  function CachesOf(ws: seq<LayerOps>, xs: seq<Row>): (cs: seq<Cache>)
    ensures |cs| == |ws| && CachesValid(cs)
  {
    if ws == [] then [] else [CacheOf(ws[0], xs)] + CachesOf(ws[1..], Causal(ws[0], xs))
  }

  // ---------------------------------------------------------------- a masked pass is a causal pass

  lemma MaskedAttend(w: LayerOps, q: Row, xs: seq<Row>, i: nat)
    requires ZeroLaws(w.ar) && i < |xs|
    ensures Attend(w, q, KeysFrom(w, xs, 0), ValuesOf(w, xs), Some(i))
         == Attend(w, q, KeysFrom(w, xs[..i + 1], 0), ValuesOf(w, xs[..i + 1]), None)
  {
    var (ks, vs) := (KeysFrom(w, xs, 0), ValuesOf(w, xs));
    var (ks', vs') := (KeysFrom(w, xs[..i + 1], 0), ValuesOf(w, xs[..i + 1]));
    forall h: nat | h < w.heads
      ensures AttendHead(w, h, q, ks, vs, Some(i)) == AttendHead(w, h, q, ks', vs', None)
    {
      MaskedHead(w, h, q, xs, i);
    }
    assert seq(w.heads, h requires 0 <= h < w.heads => AttendHead(w, h, q, ks, vs, Some(i)))
        == seq(w.heads, h requires 0 <= h < w.heads => AttendHead(w, h, q, ks', vs', None));
  }

  lemma MaskedHead(w: LayerOps, h: nat, q: Row, xs: seq<Row>, i: nat)
    requires ZeroLaws(w.ar) && i < |xs|
    ensures AttendHead(w, h, q, KeysFrom(w, xs, 0), ValuesOf(w, xs), Some(i))
         == AttendHead(w, h, q, KeysFrom(w, xs[..i + 1], 0), ValuesOf(w, xs[..i + 1]), None)
  {
    var (ks, vs) := (KeysFrom(w, xs, 0), ValuesOf(w, xs));
    var s := Scores(w, h, q, ks, Some(i));
    assert s[..i + 1] == Scores(w, h, q, KeysFrom(w, xs[..i + 1], 0), None);
    forall c: nat | c < w.headDim
      ensures Weighted(w.ar, s, Column(w, h, c, vs))
           == Weighted(w.ar, s[..i + 1], Column(w, h, c, ValuesOf(w, xs[..i + 1])))
    {
      MaskIsPrefix(w.ar, s, Column(w, h, c, vs), i + 1);
      assert Column(w, h, c, vs)[..i + 1] == Column(w, h, c, ValuesOf(w, xs[..i + 1]));
    }
  }

  /** A call at position zero computes the causal rows and leaves exactly their cache, whatever was cached. */
  lemma RestartLayer(w: LayerOps, c: Cache, xs: seq<Row>)
    requires ZeroLaws(w.ar) && CacheValid(c) && 0 < |xs| <= MAX_SEQ_LEN
    ensures LayerForward(w, c, xs, MaskFor(|xs|), 0) == (Ok(Causal(w, xs)), CacheOf(w, xs))
  {
    var kv := Extend(w, c, xs, 0);
    forall i | 0 <= i < |xs|
      ensures AttendRows(w, kv, xs, |xs| != 1, 0)[i] == CausalRow(w, xs, i)
    {
      if |xs| == 1 {
        assert xs[..i + 1] == xs;
      } else {
        MaskedAttend(w, QueryAt(w, xs[i], i), xs, i);
      }
    }
    assert AttendRows(w, kv, xs, |xs| != 1, 0) == Causal(w, xs);
  }

  lemma CausalPrefix(w: LayerOps, xs: seq<Row>, x: Row)
    ensures Causal(w, xs + [x]) == Causal(w, xs) + [CausalRow(w, xs + [x], |xs|)]
  {
    forall i | 0 <= i < |xs|
      ensures CausalRow(w, xs + [x], i) == CausalRow(w, xs, i)
    {
      assert (xs + [x])[..i + 1] == xs[..i + 1];
    }
  }

  /** A single row at the next position extends the cache and computes the next causal row. */
  lemma AppendLayer(w: LayerOps, xs: seq<Row>, x: Row)
    requires 0 < |xs| < MAX_SEQ_LEN
    ensures LayerForward(w, CacheOf(w, xs), [x], None, |xs|)
         == (Ok([CausalRow(w, xs + [x], |xs|)]), CacheOf(w, xs + [x]))
  {
    var kv := Extend(w, CacheOf(w, xs), [x], |xs|);
    assert kv.ks == KeysFrom(w, xs + [x], 0);
    assert kv.vs == ValuesOf(w, xs + [x]);
    assert (xs + [x])[..|xs| + 1] == xs + [x];
    assert AttendRows(w, kv, [x], false, |xs|) == [CausalRow(w, xs + [x], |xs|)];
  }

  // ---------------------------------------------------------------- stacks of layers

  lemma {:induction false} RestartStack(ws: seq<LayerOps>, cs: seq<Cache>, xs: seq<Row>)
    requires LayersLawful(ws) && |ws| == |cs| && CachesValid(cs) && 0 < |xs| <= MAX_SEQ_LEN
    ensures RunLayers(ws, cs, xs, MaskFor(|xs|), 0) == (Ok(CausalLayers(ws, xs)), CachesOf(ws, xs))
  {
    if ws != [] {
      RestartLayer(ws[0], cs[0], xs);
      RestartStack(ws[1..], cs[1..], Causal(ws[0], xs));
    }
  }

  lemma {:induction false} AppendStack(ws: seq<LayerOps>, xs: seq<Row>, x: Row)
    requires 0 < |xs| < MAX_SEQ_LEN
    ensures RunLayers(ws, CachesOf(ws, xs), [x], None, |xs|)
         == (Ok([CausalLayers(ws, xs + [x])[|xs|]]), CachesOf(ws, xs + [x]))
    ensures CausalLayers(ws, xs + [x])[..|xs|] == CausalLayers(ws, xs)
  {
    if ws != [] {
      AppendLayer(ws[0], xs, x);
      CausalPrefix(ws[0], xs, x);
      AppendStack(ws[1..], Causal(ws[0], xs), CausalRow(ws[0], xs + [x], |xs|));
      assert CachesOf(ws, xs)[1..] == CachesOf(ws[1..], Causal(ws[0], xs));
    }
  }

  // ---------------------------------------------------------------- runs of calls

  datatype Call = Call(tokens: seq<i32>, pos: nat)

  /** A call either restarts at position zero or appends one token right after the context. */
  predicate Follows(call: Call, context: seq<i32>) {
    call.tokens != [] && (call.pos == 0 || (|call.tokens| == 1 && call.pos == |context|))
  }

  /** Calls the model can serve: known tokens within the rotary tables. */
  predicate Servable(m: Weights, call: Call) {
    TokensKnown(m.embedding.vocab, call.tokens) && call.pos + |call.tokens| <= MAX_SEQ_LEN
  }

  /** The sequence whose state the caches hold after a call; a refused call changes nothing. */
  function ContextAfter(m: Weights, context: seq<i32>, call: Call): seq<i32> {
    if !Servable(m, call) then context
    else if call.pos == 0 then call.tokens
    else context + call.tokens
  }

  function ContextOf(m: Weights, calls: seq<Call>): seq<i32> {
    if calls == [] then [] else
      ContextAfter(m, ContextOf(m, calls[..|calls| - 1]), calls[|calls| - 1])
  }

  predicate WellFormedRun(m: Weights, calls: seq<Call>) {
    forall i :: 0 <= i < |calls| ==> Follows(calls[i], ContextOf(m, calls[..i]))
  }

  /** The caches after a run of calls. */
  function RunCalls(m: Weights, cs: seq<Cache>, calls: seq<Call>): (cs': seq<Cache>)
    requires |m.layers| == |cs| && CachesValid(cs)
    ensures |cs'| == |cs| && CachesValid(cs')
  {
    if calls == [] then cs else
      var last := calls[|calls| - 1];
      Forward(m, RunCalls(m, cs, calls[..|calls| - 1]), last.tokens, last.pos).1
  }

  /** The logits of one causally masked pass over a whole prefix, from empty caches. */
  function Recompute(m: Weights, prefix: seq<i32>): Result<seq<Word>, InferError> {
    Forward(m, NoCaches(|m.layers|), prefix, 0).0
  }

  /** The caches hold exactly the keys and values of the context. */
  ghost predicate Holds(m: Weights, cs: seq<Cache>, context: seq<i32>) {
    && |cs| == |m.layers| && CachesValid(cs)
    && |context| <= MAX_SEQ_LEN && TokensKnown(m.embedding.vocab, context)
    && (context != [] ==> cs == CachesOf(m.layers, EmbedRows(m.embedding, context)))
  }

  lemma RecomputeIsCausal(m: Weights, cs: seq<Cache>, prefix: seq<i32>)
    requires LayersLawful(m.layers) && |cs| == |m.layers| && CachesValid(cs)
    requires 0 < |prefix| <= MAX_SEQ_LEN && TokensKnown(m.embedding.vocab, prefix)
    ensures var xs := EmbedRows(m.embedding, prefix);
            && Forward(m, cs, prefix, 0)
            == (Project(m.head, CausalLayers(m.layers, xs), |xs|), CachesOf(m.layers, xs))
            && Recompute(m, prefix) == Forward(m, cs, prefix, 0).0
  {
    RestartStack(m.layers, cs, EmbedRows(m.embedding, prefix));
    RestartStack(m.layers, NoCaches(|m.layers|), EmbedRows(m.embedding, prefix));
  }

  lemma RefusedCall(m: Weights, cs: seq<Cache>, call: Call)
    requires m.layers != [] && |cs| == |m.layers| && CachesValid(cs) && !Servable(m, call)
    ensures Forward(m, cs, call.tokens, call.pos).0.Err?
    ensures Forward(m, cs, call.tokens, call.pos).1 == cs
  {
    if TokensKnown(m.embedding.vocab, call.tokens) {
      assert [cs[0]] + cs[1..] == cs;
    }
  }

  lemma ForwardSucceeds(
    m: Weights, cs: seq<Cache>, tokens: seq<i32>, pos: nat, xs: seq<Row>, ys: seq<Row>, cs': seq<Cache>)
    requires |m.layers| == |cs| && CachesValid(cs) && TokensKnown(m.embedding.vocab, tokens)
    requires xs == EmbedRows(m.embedding, tokens)
    requires RunLayers(m.layers, cs, xs, MaskFor(|tokens|), pos) == (Ok(ys), cs')
    ensures Forward(m, cs, tokens, pos) == (Project(m.head, ys, |tokens|), cs')
  {
  }

  lemma AppendForward(m: Weights, context: seq<i32>, token: i32)
    requires 0 < |context| < MAX_SEQ_LEN && TokenId(token) < m.embedding.vocab
    ensures Forward(m, CachesOf(m.layers, EmbedRows(m.embedding, context)), [token], |context|)
         == (Project(m.head, CausalLayers(m.layers, EmbedRows(m.embedding, context + [token])), |context| + 1),
             CachesOf(m.layers, EmbedRows(m.embedding, context + [token])))
  {
    var (xs, x) := (EmbedRows(m.embedding, context), m.embedding.embed(TokenId(token)));
    assert EmbedRows(m.embedding, [token]) == [x];
    assert EmbedRows(m.embedding, context + [token]) == xs + [x];
    AppendStack(m.layers, xs, x);
    ForwardSucceeds(m, CachesOf(m.layers, xs), [token], |xs|, [x],
                    [CausalLayers(m.layers, xs + [x])[|xs|]], CachesOf(m.layers, xs + [x]));
  }

  /** A single token after the context. */
  lemma AppendHolds(m: Weights, cs: seq<Cache>, context: seq<i32>, token: i32)
    requires LayersLawful(m.layers) && Holds(m, cs, context)
    requires 0 < |context| < MAX_SEQ_LEN && TokenId(token) < m.embedding.vocab
    ensures Forward(m, cs, [token], |context|)
         == (Recompute(m, context + [token]), CachesOf(m.layers, EmbedRows(m.embedding, context + [token])))
    ensures TokensKnown(m.embedding.vocab, context + [token]) && Recompute(m, context + [token]).Ok?
  {
    AppendForward(m, context, token);
    RecomputeIsCausal(m, cs, context + [token]);
  }

  /** One call keeps the caches in step with the context, and answers as a recomputation would. */
  lemma CallHolds(m: Weights, cs: seq<Cache>, context: seq<i32>, call: Call)
    requires m.layers != [] && LayersLawful(m.layers)
    requires Holds(m, cs, context) && Follows(call, context)
    ensures var (out, cs') := Forward(m, cs, call.tokens, call.pos);
            var context' := ContextAfter(m, context, call);
            && Holds(m, cs', context')
            && (out.Ok? <==> Servable(m, call))
            && (out.Ok? ==> out == Recompute(m, context'))
  {
    if !Servable(m, call) {
      RefusedCall(m, cs, call);
    } else if call.pos == 0 {
      RecomputeIsCausal(m, cs, call.tokens);
    } else {
      assert call.tokens == [call.tokens[0]];
      AppendHolds(m, cs, context, call.tokens[0]);
    }
  }

  /**
   Over every run of prompts at position zero and single tokens at consecutive positions, from any initial
   caches, the last call succeeds exactly when it can be served, and then returns the logits of one causal
   pass over the whole prefix from empty caches. Refused calls, wherever they occur, leave no trace.
   */
  lemma {:induction false} CachedRunIsRecomputation(m: Weights, cs: seq<Cache>, calls: seq<Call>, last: Call)
    requires m.layers != [] && LayersLawful(m.layers) && |cs| == |m.layers| && CachesValid(cs)
    requires WellFormedRun(m, calls + [last])
    ensures Holds(m, RunCalls(m, cs, calls), ContextOf(m, calls))
    ensures var out := Forward(m, RunCalls(m, cs, calls), last.tokens, last.pos).0;
            && (out.Ok? <==> Servable(m, last))
            && (out.Ok? ==> out == Recompute(m, ContextOf(m, calls + [last])))
  {
    assert (calls + [last])[..|calls|] == calls;
    if calls != [] {
      var (before, call) := (calls[..|calls| - 1], calls[|calls| - 1]);
      assert before + [call] == calls;
      forall i | 0 <= i < |calls|
        ensures Follows(calls[i], ContextOf(m, calls[..i]))
      {
        assert (calls + [last])[..i] == calls[..i];
      }
      CachedRunIsRecomputation(m, cs, before, call);
      CallHolds(m, RunCalls(m, cs, before), ContextOf(m, before), call);
    }
    CallHolds(m, RunCalls(m, cs, calls), ContextOf(m, calls), last);
  }

  // ---------------------------------------------------------------- batches after position zero

  predicate HasKeys(c: Cache) {
    c.Some? && c.value.ks != []
  }

  /** The first layer whose cache holds a key; the number of layers if none does. */
  function FirstWithKeys(cs: seq<Cache>): (f: nat)
    ensures f <= |cs|
    ensures forall i :: 0 <= i < f ==> !HasKeys(cs[i])
    ensures f < |cs| ==> HasKeys(cs[f])
  {
    if cs == [] || HasKeys(cs[0]) then 0 else 1 + FirstWithKeys(cs[1..])
  }

  lemma MaskedLayer(w: LayerOps, c: Cache, xs: seq<Row>, pos: nat)
    requires CacheValid(c) && pos + |xs| <= MAX_SEQ_LEN
    ensures var (ys, c') := LayerForward(w, c, xs, Some(|xs|), pos);
            && c'.Some? && |c'.value.ks| == |xs| + (if HasKeys(c) && pos != 0 then |c.value.ks| else 0)
            && (ys.Ok? <==> !HasKeys(c) || pos == 0)
            && (ys.Err? ==> ys.error == MaskShape)
  {
  }

  /** What a batch does to the caches of a stack: they hold the batch alone up to layer `f`, which has grown by it. */
  predicate BatchCached(cs: seq<Cache>, cs': seq<Cache>, f: nat, rows: nat) {
    && |cs'| == |cs| && f <= |cs|
    && (forall i :: 0 <= i < f ==> cs'[i].Some? && |cs'[i].value.ks| == rows)
    && (f < |cs| ==>
          && HasKeys(cs[f]) && cs'[f].Some? && |cs'[f].value.ks| == |cs[f].value.ks| + rows
          && cs'[f + 1..] == cs[f + 1..])
  }

  lemma BatchCachedCons(c: Cache, c': Cache, cs: seq<Cache>, cs': seq<Cache>, f: nat, rows: nat)
    requires BatchCached(cs, cs', f, rows) && c'.Some? && |c'.value.ks| == rows
    ensures BatchCached([c] + cs, [c'] + cs', f + 1, rows)
  {
    if f < |cs| {
      assert ([c'] + cs')[f + 2..] == cs'[f + 1..] && ([c] + cs)[f + 2..] == cs[f + 1..];
    }
  }

  /** A masked batch passes the layers without keys, and stops at the first that has some. */
  lemma {:induction false} MaskedStack(ws: seq<LayerOps>, cs: seq<Cache>, xs: seq<Row>, pos: nat)
    requires |ws| == |cs| && CachesValid(cs) && 0 < pos && pos + |xs| <= MAX_SEQ_LEN
    ensures var r := RunLayers(ws, cs, xs, Some(|xs|), pos);
            && (r.0.Ok? <==> FirstWithKeys(cs) == |cs|)
            && (r.0.Err? ==> r.0.error == MaskShape)
            && BatchCached(cs, r.1, FirstWithKeys(cs), |xs|)
  {
    if ws != [] {
      var (ys, c) := LayerForward(ws[0], cs[0], xs, Some(|xs|), pos);
      MaskedLayer(ws[0], cs[0], xs, pos);
      assert [cs[0]] + cs[1..] == cs;
      if ys.Ok? {
        MaskedStack(ws[1..], cs[1..], ys.value, pos);
        BatchCachedCons(cs[0], c, cs[1..], RunLayers(ws[1..], cs[1..], ys.value, Some(|xs|), pos).1,
                        FirstWithKeys(cs[1..]), |xs|);
      }
    }
  }

  lemma {:induction false} RestartStackSucceeds(ws: seq<LayerOps>, cs: seq<Cache>, xs: seq<Row>)
    requires |ws| == |cs| && CachesValid(cs) && |xs| <= MAX_SEQ_LEN
    ensures RunLayers(ws, cs, xs, Some(|xs|), 0).0.Ok?
  {
    if ws != [] {
      MaskedLayer(ws[0], cs[0], xs, 0);
      RestartStackSucceeds(ws[1..], cs[1..], LayerForward(ws[0], cs[0], xs, Some(|xs|), 0).0.value);
    }
  }

  /**
   Whatever is cached, a servable call succeeds exactly when it restarts, brings a single token, or finds no key
   in any cache. Otherwise the square mask does not fit the scores, and the call stops at the first layer that
   has keys: that layer's cache has grown by the batch, those before it hold the batch alone, and those after it
   are as they were.
   */
  lemma LateBatchRefused(m: Weights, cs: seq<Cache>, call: Call)
    requires |cs| == |m.layers| && CachesValid(cs) && Servable(m, call) && call.tokens != []
    ensures var (out, cs') := Forward(m, cs, call.tokens, call.pos);
            && (out.Ok? <==> call.pos == 0 || |call.tokens| == 1 || FirstWithKeys(cs) == |cs|)
            && (out.Err? ==> out.error == MaskShape)
            && (call.pos != 0 && |call.tokens| != 1 ==> BatchCached(cs, cs', FirstWithKeys(cs), |call.tokens|))
  {
    var xs := EmbedRows(m.embedding, call.tokens);
    if |call.tokens| == 1 {
      UnmaskedStackSucceeds(m.layers, cs, xs, call.pos);
    } else if call.pos == 0 {
      RestartStackSucceeds(m.layers, cs, xs);
    } else {
      MaskedStack(m.layers, cs, xs, call.pos);
    }
  }

  /**
   With a context cached, a batch after position zero is refused by the first layer, whose cache alone has grown
   and no longer holds the context.
   */
  lemma LateBatchAfterContext(m: Weights, cs: seq<Cache>, context: seq<i32>, call: Call)
    requires m.layers != [] && Holds(m, cs, context) && context != []
    requires Servable(m, call) && call.tokens != []
    ensures var (out, cs') := Forward(m, cs, call.tokens, call.pos);
            && (out.Ok? <==> call.pos == 0 || |call.tokens| == 1)
            && (!out.Ok? ==>
                  && out == Err(MaskShape)
                  && cs'[0].Some? && |cs'[0].value.ks| == |context| + |call.tokens|
                  && cs'[1..] == cs[1..])
  {
    assert cs[0] == CacheOf(m.layers[0], EmbedRows(m.embedding, context));
    assert FirstWithKeys(cs) == 0;
    LateBatchRefused(m, cs, call);
  }

  lemma {:induction false} UnmaskedStackSucceeds(ws: seq<LayerOps>, cs: seq<Cache>, xs: seq<Row>, pos: nat)
    requires |ws| == |cs| && CachesValid(cs) && pos + |xs| <= MAX_SEQ_LEN
    ensures RunLayers(ws, cs, xs, None, pos).0.Ok?
    ensures CachesGrown(cs, RunLayers(ws, cs, xs, None, pos).1, |xs|, pos)
  {
    if ws != [] {
      var (ys, c) := LayerForward(ws[0], cs[0], xs, None, pos);
      UnmaskedStackSucceeds(ws[1..], cs[1..], ys.value, pos);
      assert [cs[0]] + cs[1..] == cs;
    }
  }

  /** Every cache has grown by the rows of the call, or holds them alone. */
  predicate CachesGrown(cs: seq<Cache>, cs': seq<Cache>, rows: nat, pos: nat) {
    && |cs'| == |cs|
    && forall i :: 0 <= i < |cs| ==>
         cs'[i].Some? && |cs'[i].value.ks| == rows + (if HasKeys(cs[i]) && pos != 0 then |cs[i].value.ks| else 0)
  }

  /**
   The position of a single token is never compared with what the caches hold: whatever that is, the call is
   answered exactly if it is servable, and every cache grows by one. On empty caches, as after a reload of the
   slice, the token is answered alone, without the prefix before it.
   */
  lemma PositionUnchecked(m: Weights, cs: seq<Cache>, token: i32, pos: nat)
    requires m.layers != [] && |cs| == |m.layers| && CachesValid(cs)
    ensures var (out, cs') := Forward(m, cs, [token], pos);
            && (out.Ok? <==> Servable(m, Call([token], pos)))
            && (out.Ok? ==> CachesGrown(cs, cs', 1, pos))
  {
    if Servable(m, Call([token], pos)) {
      UnmaskedStackSucceeds(m.layers, cs, EmbedRows(m.embedding, [token]), pos);
    } else {
      RefusedCall(m, cs, Call([token], pos));
    }
  }
}
