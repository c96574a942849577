/**
 One node's inference backend and executor, as functions on values: loading a slice of the model,
 receiving and sending the hidden state, running the held layers (src/candle_backend.rs,
 `from_gguf_partial` of src/quantized_llama.rs), and executing one task (src/executor.rs).
 */
module Backend {
  import opened Wrappers
  import opened Transformer
  import opened HandOff

  /** What a node holds of a model: some layers from `offset` on, and the entry and exit parts if it owns them. */
  datatype Held = Held(layers: seq<LayerOps>, embedding: Option<Embedding>, head: Option<Head>, offset: nat, total: nat)

  datatype BackendState = BackendState(
    source: Option<Weights>,
    held: Option<Held>,
    caches: seq<Cache>,
    loadedRange: Option<(nat, nat)>,
    state: Option<Tensor>)

  predicate NodeValid(n: BackendState) {
    && CachesValid(n.caches)
    && |n.caches| == (if n.held.Some? then |n.held.value.layers| else 0)
  }

  /** A backend holds one cache for each layer it holds. */
  type Node = n: BackendState | NodeValid(n) witness BackendState(None, None, [], None, None)

  // ---------------------------------------------------------------- loading a slice

  function ClampStart(total: nat, start: nat): nat { Min(start, total) }

  function ClampEnd(total: nat, start: nat, end: nat): nat { Max(Min(end, total), ClampStart(total, start)) }

  function LoadSlice(m: Weights, start: nat, end: nat): Held {
    var total := |m.layers|;
    var (lo, hi) := (ClampStart(total, start), ClampEnd(total, start, end));
    Held(m.layers[lo..hi],
         if lo == 0 then Some(m.embedding) else None,
         if hi >= total then Some(m.head) else None,
         lo, total)
  }

  /** The slice recorded as loaded is the slice held. */
  ghost predicate NodeLoaded(n: Node) {
    (n.held.Some? && n.loadedRange.Some? ==>
          n.source.Some? && n.held.value == LoadSlice(n.source.value, n.loadedRange.value.0, n.loadedRange.value.1))
  }

  function Ensure(n: Node, start: nat, end: nat): (r: (Result<(), InferError>, Node))
  {
    if n.loadedRange == Some((start, end)) && n.held.Some? then (Ok(()), n)
    else if n.source.None? then (Err(NoSource), n)
    else
      var h := LoadSlice(n.source.value, start, end);
      (Ok(()), BackendState(n.source, Some(h), NoCaches(|h.layers|), Some((start, end)), None))
  }

  /**
   A slice asked for again is kept with its caches; after another slice in between it comes back as it was
   first loaded, without caches and without a received state.
   */
  lemma SwitchingForgets(n: Node, start: nat, end: nat, start': nat, end': nat)
    requires NodeLoaded(n) && n.source.Some?
    ensures var n1 := Ensure(n, start, end).1;
            var back := Ensure(Ensure(n1, start', end').1, start, end).1;
            && n1.held == Some(LoadSlice(n.source.value, start, end)) == back.held
            && n1.loadedRange == Some((start, end)) == back.loadedRange
            && ((start, end) == (start', end') ==> back == n1)
            && ((start, end) != (start', end') ==>
                  && back.state == None
                  && forall i :: 0 <= i < |back.caches| ==> back.caches[i] == None)
  {
  }

  // ---------------------------------------------------------------- the hidden state

  function Flatten(rows: seq<Row>): seq<Word> {
    if rows == [] then [] else rows[0] + Flatten(rows[1..])
  }

  function Unflatten(data: seq<Word>, n: nat, width: nat): (rows: seq<Row>)
    requires |data| == n * width
    ensures |rows| == n
    ensures forall i :: 0 <= i < n ==> |rows[i]| == width
  {
    if n == 0 then [] else
      assert |data| - width == (n - 1) * width;
      [data[..width]] + Unflatten(data[width..], n - 1, width)
  }

  predicate Uniform(rows: seq<Row>, width: nat) {
    forall i :: 0 <= i < |rows| ==> |rows[i]| == width
  }

  lemma {:induction false} FlattenRoundTrip(rows: seq<Row>, width: nat)
    requires Uniform(rows, width)
    ensures |Flatten(rows)| == |rows| * width
    ensures Unflatten(Flatten(rows), |rows|, width) == rows
  {
    if rows != [] {
      FlattenRoundTrip(rows[1..], width);
      assert |Flatten(rows)| == width + (|rows| - 1) * width;
      assert Flatten(rows)[width..] == Flatten(rows[1..]);
    }
  }

  /** A batch of one, of as many positions as rows. */
  function TensorOf(rows: seq<Row>): Tensor {
    Tensor(1, |rows|, if rows == [] then 0 else |rows[0]|, Flatten(rows))
  }

  function RowsOf(t: Tensor): (rows: seq<Row>)
    requires TensorValid(t) && t.d1 == 1
    ensures |rows| == t.d2
  {
    Unflatten(t.data, t.d2, t.d3)
  }

  function SetState(n: Node, bytes: seq<byte>): (r: (Result<(), InferError>, Node))
  {
    if bytes == [] then (Ok(()), n) else
      var decoded := Decode(bytes);
      if decoded.Ok? && TensorValid(decoded.value) then (Ok(()), n.(state := Some(decoded.value)))
      else (Err(Wire), n)
  }

  function GetState(n: Node): seq<byte> {
    if n.state.Some? then Encode(n.state.value) else []
  }

  // ---------------------------------------------------------------- running the held layers

  /** Where a task's hidden state comes from: its tokens at the entry, the received state elsewhere. */
  function Ingest(n: Node, start: nat, tokens: seq<i32>): Result<seq<Row>, InferError>
    requires n.held.Some?
  {
    if start == 0 then
      if n.held.value.embedding.None? then Err(NoEmbeddings)
      else if !TokensKnown(n.held.value.embedding.value.vocab, tokens) then Err(BadToken)
      else Ok(EmbedRows(n.held.value.embedding.value, tokens))
    else
      if n.state.None? then Err(NoUpstreamState)
      else if n.state.value.d1 != 1 || !TensorValid(n.state.value) then Err(Batch)
      else Ok(RowsOf(n.state.value))
  }

  /** Absolute indices [lo, hi) of the layers the loop visits; empty when hi <= lo. */
  function VisitLo(h: Held, start: nat): nat { Max(start, h.offset) }

  function VisitHi(h: Held, end: nat): nat { Min(end, h.offset + |h.layers|) }

  /** The local indices of the layers visited. */
  function Visits(h: Held, start: nat, end: nat): (span: (nat, nat))
    ensures span.0 <= span.1 <= |h.layers|
  {
    var (lo, hi) := (VisitLo(h, start), VisitHi(h, end));
    if hi <= lo then (0, 0) else (lo - h.offset, hi - h.offset)
  }

  /** Runs the visited layers on rows `xs`; the other layers' caches are untouched. */
  function RunVisited(h: Held, caches: seq<Cache>, start: nat, end: nat, xs: seq<Row>, mask: Option<nat>, pos: nat)
    : (r: Outcome)
    requires |caches| == |h.layers| && CachesValid(caches)
    ensures |r.1| == |caches| && CachesValid(r.1)
  {
    var (a, b) := Visits(h, start, end);
    RunSpan(h.layers, caches, a, b, xs, mask, pos)
  }

  /** Keeps the new hidden state for the next node, and projects it if this is the exit. */
  function Conclude(n: Node, end: nat, seqLen: nat, run: Outcome): (r: (Result<seq<Word>, InferError>, Node))
    requires n.held.Some? && |run.1| == |n.held.value.layers| && CachesValid(run.1)
  {
    var h := n.held.value;
    if run.0.Err? then
      (Err(run.0.error), n.(caches := run.1))
    else
      var n' := n.(state := Some(TensorOf(run.0.value)), caches := run.1);
      if end >= h.total then
        (if h.head.None? then Err(NoHead) else Project(h.head.value, run.0.value, seqLen), n')
      else
        (Ok([]), n')
  }

  /** Any node but the entry gives up the state it received, even if the run fails. */
  function GivenUp(n: Node, start: nat): Node {
    n.(state := if start == 0 then n.state else None)
  }

  function RunHeld(n: Node, start: nat, end: nat, tokens: seq<i32>, pos: nat)
    : (r: (Result<seq<Word>, InferError>, Node))
  {
    if n.held.None? then (Ok([]), n) else
      var xs := Ingest(n, start, tokens);
      if xs.Err? then
        (Err(xs.error), GivenUp(n, start))
      else
        Conclude(GivenUp(n, start), end, |tokens|,
          RunVisited(n.held.value, n.caches, start, end, xs.value, MaskFor(|tokens|), pos))
  }

  // ---------------------------------------------------------------- executing a task

  datatype Task = Task(taskId: string, seqId: nat, input: seq<byte>, start: nat, end: nat, tokens: seq<i32>)

  datatype TaskResult = TaskResult(taskId: string, seqId: nat, output: seq<byte>, logits: seq<Word>)

  /** Ensures the slice, then opens and injects the received state; the first error stops. */
  function Receive(env: Envelope, key: Key, n: Node, task: Task): (r: (Result<(), InferError>, Node))
  {
    var (ensured, n1) := Ensure(n, task.start, task.end);
    if ensured.Err? || task.input == [] then (ensured, n1) else
      var received := Unwrap(env, key, task.taskId, task.input);
      if received.Err? then (Err(Wire), n1) else SetState(n1, received.value)
  }

  /** Runs the held layers, extracts the new state and seals it under the task's id. */
  function RunAndSeal(env: Envelope, nonce: nat, key: Key, n: Node, task: Task)
    : (r: (Result<TaskResult, InferError>, Node))
  {
    var (logits, n') := RunHeld(n, task.start, task.end, task.tokens, task.seqId);
    if logits.Err? then (Err(logits.error), n') else
      (Ok(TaskResult(task.taskId, task.seqId, Wrap(env, nonce, key, task.taskId, GetState(n')), logits.value)), n')
  }

  /** One task: receive, run, extract and seal; the first error stops the task. */
  function RunTask(env: Envelope, nonce: nat, key: Key, n: Node, task: Task)
    : (r: (Result<TaskResult, InferError>, Node))
  {
    var (received, n') := Receive(env, key, n, task);
    if received.Err? then (Err(received.error), n') else RunAndSeal(env, nonce, key, n', task)
  }

  /** What executing a task does to a node and what it answers. The number tells one execution from another. */
  type StageRunner = (nat, Node, Task) -> (Result<TaskResult, InferError>, Node)

  /** The executor of the nodes that share `key`; `nonces(i)` is the nonce that execution `i` draws. */
  function TaskRunner(env: Envelope, nonces: nat -> nat, key: Key): StageRunner {
    (i, n, task) => RunTask(env, nonces(i), key, n, task)
  }

  /** Two executions that differ only in what they send. */
  ghost predicate DifferInSeal(
    first: (Result<TaskResult, InferError>, Node), second: (Result<TaskResult, InferError>, Node))
  {
    && first.1 == second.1
    && (first.0.Err? ==> second.0 == first.0)
    && (first.0.Ok? ==> second.0.Ok? && first.0.value.output != second.0.value.output
                        && first.0.value.logits == second.0.value.logits)
  }

  lemma RunsSealedApart(env: Envelope, nonce: nat, nonce': nat, key: Key, n: Node, task: Task)
    requires TellsApart(env, nonce, nonce', key, task.taskId)
    ensures DifferInSeal(RunAndSeal(env, nonce, key, n, task), RunAndSeal(env, nonce', key, n, task))
  {
    var run := RunHeld(n, task.start, task.end, task.tokens, task.seqId);
    NoncesTellApart(env, nonce, nonce', key, task.taskId, GetState(run.1));
  }

  /** As far as the cipher tells nonces apart, two executions of a task differ in what they send, and only there. */
  lemma SealedAfresh(env: Envelope, nonces: nat -> nat, key: Key, n: Node, task: Task, i: nat, j: nat)
    requires TellsApart(env, nonces(i), nonces(j), key, task.taskId)
    ensures DifferInSeal(TaskRunner(env, nonces, key)(i, n, task), TaskRunner(env, nonces, key)(j, n, task))
  {
    RunsSealedApart(env, nonces(i), nonces(j), key, Receive(env, key, n, task).1, task);
  }

  // ---------------------------------------------------------------- the executor's loop

  /** What the executor's loop has sent when it ends, why it ended early, if it did, and the node it leaves. */
  datatype LoopEnd = LoopEnd(results: seq<TaskResult>, error: Option<InferError>, node: Node)

  /** The end of a loop that has sent these results already. */
  function SentBefore(results: seq<TaskResult>, end: LoopEnd): LoopEnd {
    end.(results := results + end.results)
  }

  /** The loop from task `i` on: one task after another, until they are all done or one fails. */
  function RunTasks(run: StageRunner, n: Node, tasks: seq<Task>, i: nat): LoopEnd
    requires i <= |tasks|
    decreases |tasks| - i
  {
    if i == |tasks| then LoopEnd([], None, n) else
      var (res, n') := run(i, n, tasks[i]);
      if res.Err? then LoopEnd([], Some(res.error), n')
      else SentBefore([res.value], RunTasks(run, n', tasks, i + 1))
  }

  /** The loop sends one result for each task up to the first that fails: for all of them exactly if none fails. */
  lemma {:induction false} LoopEndsAtFirstError(run: StageRunner, n: Node, tasks: seq<Task>, i: nat)
    requires i <= |tasks|
    ensures var end := RunTasks(run, n, tasks, i);
            && i + |end.results| <= |tasks|
            && (end.error.None? <==> i + |end.results| == |tasks|)
    decreases |tasks| - i
  {
    if i < |tasks| && run(i, n, tasks[i]).0.Ok? {
      LoopEndsAtFirstError(run, run(i, n, tasks[i]).1, tasks, i + 1);
    }
  }

  lemma TaskStep(run: StageRunner, n: Node, tasks: seq<Task>, i: nat, results: seq<TaskResult>)
    requires i < |tasks|
    ensures var (res, n') := run(i, n, tasks[i]);
            SentBefore(results, RunTasks(run, n, tasks, i))
            == if res.Err? then LoopEnd(results, Some(res.error), n')
               else SentBefore(results + [res.value], RunTasks(run, n', tasks, i + 1))
  {
    var (res, n') := run(i, n, tasks[i]);
    if res.Ok? {
      var rest := RunTasks(run, n', tasks, i + 1);
      assert results + ([res.value] + rest.results) == results + [res.value] + rest.results;
    } else {
      assert results + [] == results;
    }
  }

  // ---------------------------------------------------------------- loading and running agree

  /**
   Whatever range is asked for, in order or not: the slice loaded for it is the clamped range, the loop visits
   every held layer once and in order, and the parts that the range needs are there.
   */
  lemma LoadedSliceRuns(
    m: Weights, start: nat, end: nat, caches: seq<Cache>, xs: seq<Row>, mask: Option<nat>, pos: nat)
    requires |caches| == |LoadSlice(m, start, end).layers| && CachesValid(caches)
    ensures var h := LoadSlice(m, start, end);
            && h.layers == m.layers[ClampStart(|m.layers|, start)..ClampEnd(|m.layers|, start, end)]
            && Visits(h, start, end) == (0, |h.layers|)
            && RunVisited(h, caches, start, end, xs, mask, pos) == RunLayers(h.layers, caches, xs, mask, pos)
            && (start == 0 ==> h.embedding == Some(m.embedding))
            && (end >= h.total ==> h.head == Some(m.head))
  {
    var h := LoadSlice(m, start, end);
    assert Visits(h, start, end) == (0, |h.layers|);
    WholeSpan(h.layers, caches, xs, mask, pos);
  }

  /** A node holds the embeddings exactly if its slice starts the model, and norm and head exactly if it ends it. */
  lemma PartsLoaded(m: Weights, start: nat, end: nat)
    ensures var h := LoadSlice(m, start, end);
            && h.embedding == (if start == 0 || m.layers == [] then Some(m.embedding) else None)
            && h.head == (if end >= |m.layers| || start >= |m.layers| then Some(m.head) else None)
  {
  }

  /**
   A node asked for any range, in order or not, past the end or not: once the slice is loaded, the run is that of the
   clamped slice of the model, and logits come exactly from ranges that reach the end.
   */
  lemma AnyRangeRuns(n: Node, m: Weights, start: nat, end: nat, tokens: seq<i32>, xs: seq<Row>, pos: nat)
    requires n.held == Some(LoadSlice(m, start, end)) && Ingest(n, start, tokens) == Ok(xs)
    ensures var slice := m.layers[ClampStart(|m.layers|, start)..ClampEnd(|m.layers|, start, end)];
            && |n.caches| == |slice|
            && var (logits, n') := RunHeld(n, start, end, tokens, pos);
               var r := RunLayers(slice, n.caches, xs, MaskFor(|tokens|), pos);
               && n'.caches == r.1
               && logits == (if r.0.Err? then Err(r.0.error)
                             else if end >= |m.layers| then Project(m.head, r.0.value, |tokens|) else Ok([]))
               && n'.state == (if r.0.Ok? then Some(TensorOf(r.0.value)) else if start == 0 then n.state else None)
  {
    LoadedSliceRuns(m, start, end, n.caches, xs, MaskFor(|tokens|), pos);
  }

  /** Without a source nothing can be loaded: every task for a slice that is not resident fails and changes nothing. */
  lemma NothingWithoutSource(env: Envelope, nonce: nat, key: Key, n: Node, task: Task)
    requires n.source.None? && (n.held.None? || n.loadedRange != Some((task.start, task.end)))
    ensures RunTask(env, nonce, key, n, task) == (Err(NoSource), n)
  {
  }

  /** What is received replaces the state if it decodes; otherwise, or if it is empty, the node is as it was. */
  lemma ReceptionReplaces(n: Node, bytes: seq<byte>)
    ensures var (r, n') := SetState(n, bytes);
            && (r.Err? <==> bytes != [] && !(Decode(bytes).Ok? && TensorValid(Decode(bytes).value)))
            && n' == (if bytes == [] || r.Err? then n else n.(state := Some(Decode(bytes).value)))
  {
  }

  /**
   Away from the entry a failed run uses up the received state: the next run of that slice finds none, and fails
   without touching the caches.
   */
  lemma FailedRunUsesUp(n: Node, start: nat, end: nat, tokens: seq<i32>, pos: nat, tokens': seq<i32>, pos': nat)
    requires n.held.Some? && start > 0 && n.state.Some? && n.state.value.d1 == 1 && TensorValid(n.state.value)
    requires RunVisited(n.held.value, n.caches, start, end, RowsOf(n.state.value), MaskFor(|tokens|), pos).0.Err?
    ensures var n' := RunHeld(n, start, end, tokens, pos).1;
            RunHeld(n', start, end, tokens', pos') == (Err(NoUpstreamState), n')
  {
  }

  /** Layer boundaries that cut [0, total) into non-empty consecutive slices. */
  predicate Cuts(cuts: seq<nat>, total: nat) {
    && |cuts| >= 2 && cuts[0] == 0 && cuts[|cuts| - 1] == total
    && forall i, j :: 0 <= i < j < |cuts| ==> cuts[i] < cuts[j]
  }

  function SlicesFrom(m: Weights, cuts: seq<nat>, i: nat): seq<LayerOps>
    requires i < |cuts|
    decreases |cuts| - i
  {
    if i + 1 == |cuts| then [] else LoadSlice(m, cuts[i], cuts[i + 1]).layers + SlicesFrom(m, cuts, i + 1)
  }

  lemma SlicesConcatenate(m: Weights, cuts: seq<nat>, i: nat)
    requires Cuts(cuts, |m.layers|) && i < |cuts|
    ensures SlicesFrom(m, cuts, i) == m.layers[cuts[i]..]
    decreases |cuts| - i
  {
    if i + 1 < |cuts| {
      SlicesConcatenate(m, cuts, i + 1);
      var (lo, hi) := (cuts[i], cuts[i + 1]);
      assert lo < hi <= |m.layers| by {
        assert i + 1 == |cuts| - 1 || cuts[i + 1] < cuts[|cuts| - 1];
      }
      assert LoadSlice(m, lo, hi).layers == m.layers[lo..hi];
      assert m.layers[lo..hi] + m.layers[hi..] == m.layers[lo..];
    }
  }

  /** The slices loaded for a tiling make up the model, with one entry, the first, and one exit, the last. */
  lemma TilingLoadsModel(m: Weights, cuts: seq<nat>)
    requires Cuts(cuts, |m.layers|)
    ensures SlicesFrom(m, cuts, 0) == m.layers
    ensures forall i :: 0 <= i < |cuts| - 1 ==>
              var h := LoadSlice(m, cuts[i], cuts[i + 1]);
              && h.offset == cuts[i] && |h.layers| == cuts[i + 1] - cuts[i]
              && (h.embedding.Some? <==> i == 0)
              && (h.head.Some? <==> i == |cuts| - 2)
  {
    SlicesConcatenate(m, cuts, 0);
    assert m.layers[0..] == m.layers;
    forall i | 0 <= i < |cuts| - 1
      ensures var h := LoadSlice(m, cuts[i], cuts[i + 1]);
              && h.offset == cuts[i] && |h.layers| == cuts[i + 1] - cuts[i]
              && (h.embedding.Some? <==> i == 0)
              && (h.head.Some? <==> i == |cuts| - 2)
    {
      assert i > 0 ==> cuts[0] < cuts[i];
      assert i + 1 < |cuts| - 1 ==> cuts[i + 1] < cuts[|cuts| - 1];
    }
  }
}
