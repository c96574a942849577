/**
 A model cut into consecutive slices on several nodes computes what the undivided model computes, through
 the real hand-off: every stage seals its hidden state and the next one opens it.
 */
module SplitModel {
  import opened Wrappers
  import opened Transformer
  import opened HandOff
  import opened Backend
  import CacheCoherence

  /** A node that can serve slices of `m`, whatever slice it holds now, if any. */
  ghost predicate Ready(n: Node, m: Weights) {
    NodeLoaded(n) && n.source == Some(m)
  }

  /** The caches a node will work with when asked for [lo, hi): its own if that slice is resident, else none. */
  function CachesAt(n: Node, lo: nat, hi: nat): seq<Cache>
  {
    Ensure(n, lo, hi).1.caches
  }

  /** Every embedding row has width `d`, a machine size. */
  ghost predicate EmbedsTo(m: Weights, d: nat) {
    d < U64_LIMIT && forall t: nat :: |m.embedding.embed(t)| == d
  }

  /** Hidden states of `n` positions and width `d` fit a tensor and the decompression cap. */
  predicate HandOffFits(n: nat, d: nat) {
    n < U64_LIMIT && d < U64_LIMIT && HEADER + 4 * (n * d) <= DECOMPRESS_CAP
  }

  /** What a node accepts as received state: nothing, or what opens to nothing or to some tensor. */
  predicate Receivable(env: Envelope, key: Key, taskId: string, input: seq<byte>) {
    input == [] ||
    var raw := Unwrap(env, key, taskId, input);
    raw.Ok? && (raw.value == [] || (Decode(raw.value).Ok? && TensorValid(Decode(raw.value).value)))
  }

  /** The task brings the rows `xs` to its stage: as known tokens at the entry, sealed elsewhere. */
  ghost predicate Carries(env: Envelope, key: Key, m: Weights, task: Task, xs: seq<Row>) {
    if task.start == 0 then
      && Receivable(env, key, task.taskId, task.input)
      && TokensKnown(m.embedding.vocab, task.tokens)
      && xs == EmbedRows(m.embedding, task.tokens)
    else
      && task.input != []
      && Unwrap(env, key, task.taskId, task.input) == Ok(Encode(TensorOf(xs)))
  }

  lemma UniformTensor(xs: seq<Row>, d: nat)
    requires xs != [] && Uniform(xs, d) && HandOffFits(|xs|, d)
    ensures TensorValid(TensorOf(xs)) && RowsOf(TensorOf(xs)) == xs
    ensures |Encode(TensorOf(xs))| <= DECOMPRESS_CAP
  {
    FlattenRoundTrip(xs, d);
  }

  lemma SealedStateOpens(env: Envelope, nonce: nat, key: Key, taskId: string, xs: seq<Row>, d: nat)
    requires Ideal(env) && xs != [] && Uniform(xs, d) && HandOffFits(|xs|, d)
    ensures TensorValid(TensorOf(xs))
    ensures var sealed := Wrap(env, nonce, key, taskId, Encode(TensorOf(xs)));
            sealed != [] && Unwrap(env, key, taskId, sealed) == Ok(Encode(TensorOf(xs)))
  {
    UniformTensor(xs, d);
    var raw := Encode(TensorOf(xs));
    assert env.open(key, taskId, env.seal(nonce, key, taskId, env.compress(raw))) == Some(env.compress(raw));
    assert env.decompress(env.compress(raw)) == Some(raw);
  }

  /** A sealed hidden state that does not fit cannot be received. */
  lemma SealedStateLost(env: Envelope, nonce: nat, key: Key, taskId: string, xs: seq<Row>, d: nat)
    requires Ideal(env) && xs != [] && Uniform(xs, d) && |xs| < U64_LIMIT && d < U64_LIMIT && !HandOffFits(|xs|, d)
    ensures var sealed := Wrap(env, nonce, key, taskId, Encode(TensorOf(xs)));
            sealed != [] && !Receivable(env, key, taskId, sealed)
  {
    FlattenRoundTrip(xs, d);
    var raw := Encode(TensorOf(xs));
    assert env.open(key, taskId, env.seal(nonce, key, taskId, env.compress(raw))) == Some(env.compress(raw));
    assert env.decompress(env.compress(raw)) == None;
  }

  // ---------------------------------------------------------------- one stage

  /** The node holds the slice [lo, hi) of `m`. */
  ghost predicate Resident(n: Node, m: Weights, lo: nat, hi: nat) {
    Ready(n, m) && n.held == Some(LoadSlice(m, lo, hi)) && n.loadedRange == Some((lo, hi))
  }

  /** Receiving a task loads its slice and makes its rows available, without touching the caches. */
  lemma StageReceives(env: Envelope, key: Key, m: Weights, n: Node, task: Task, xs: seq<Row>, d: nat)
    requires Ready(n, m) && TaskFits(env, key, m, task, xs, d)
    ensures var (received, n1) := Receive(env, key, n, task);
            && received.Ok?
            && Resident(n1, m, task.start, task.end)
            && n1.caches == CachesAt(n, task.start, task.end)
            && Ingest(n1, task.start, task.tokens) == Ok(xs)
  {
    if task.start != 0 {
      UniformTensor(xs, d);
      CodecRoundTrip(TensorOf(xs));
    }
  }

  /** A resident slice runs on its rows exactly as those layers of the model. */
  lemma ResidentRuns(m: Weights, n: Node, lo: nat, hi: nat, tokens: seq<i32>, xs: seq<Row>, pos: nat)
    requires Resident(n, m, lo, hi) && lo < hi <= |m.layers| && tokens != [] && |xs| == |tokens|
    requires Ingest(n, lo, tokens) == Ok(xs)
    ensures |n.caches| == hi - lo
    ensures var (logits, n') := RunHeld(n, lo, hi, tokens, pos);
            var r := RunLayers(m.layers[lo..hi], n.caches, xs, MaskFor(|tokens|), pos);
            && Resident(n', m, lo, hi) && n'.caches == r.1
            && (r.0.Err? ==> logits == Err(r.0.error))
            && (r.0.Ok? ==>
                  && n'.state == Some(TensorOf(r.0.value))
                  && logits == if hi == |m.layers| then Project(m.head, r.0.value, |tokens|) else Ok([]))
  {
    LoadedSliceRuns(m, lo, hi, n.caches, xs, MaskFor(|tokens|), pos);
  }

  /**
   A node keeps its last output as its state. A task without input for a later slice that is resident is not refused:
   its layers run on what they put out last.
   */
  lemma EmptyInputRerunsOutput(
    env: Envelope, nonce: nat, key: Key, n: Node, task: Task, ys: seq<Row>, d: nat, again: Task)
    requires task.start > 0 && n.held.Some? && RunHeld(n, task.start, task.end, task.tokens, task.seqId).0.Ok?
    requires RunHeld(n, task.start, task.end, task.tokens, task.seqId).1.state == Some(TensorOf(ys))
    requires ys != [] && Uniform(ys, d) && HandOffFits(|ys|, d)
    requires n.loadedRange == Some((task.start, task.end))
    requires again.start == task.start && again.end == task.end && again.input == []
    ensures var n' := RunHeld(n, task.start, task.end, task.tokens, task.seqId).1;
            && Receive(env, key, n', again) == (Ok(()), n')
            && Ingest(n', again.start, again.tokens) == Ok(ys)
            && RunTask(env, nonce, key, n', again) == RunAndSeal(env, nonce, key, n', again)
  {
    UniformTensor(ys, d);
  }

  /**
   What running a stage on caches `cs` owes: it runs exactly its slice on the rows its task carries. A layer's
   error is the task's error; otherwise the output opens to the slice's result if that fits the wire, and cannot
   be received if it does not, and at the exit the logits are the model's.
   */
  ghost predicate StageYields(
    env: Envelope, key: Key, m: Weights, cs: seq<Cache>, task: Task, xs: seq<Row>, d: nat,
    res: Result<TaskResult, InferError>, cs': seq<Cache>)
    requires task.start < task.end <= |m.layers|
  {
    && |cs| == task.end - task.start && CachesValid(cs)
    && var r := RunLayers(m.layers[task.start..task.end], cs, xs, MaskFor(|task.tokens|), task.seqId);
       && cs' == r.1
       && (r.0.Err? ==> res == Err(r.0.error))
       && (r.0.Ok? ==>
             && res.Ok?
             && res.value.taskId == task.taskId && res.value.seqId == task.seqId
             && Hands(env, key, task.taskId, res.value.output, r.0.value, d)
             && (task.end == |m.layers| ==> Project(m.head, r.0.value, |task.tokens|) == Ok(res.value.logits)))
  }

  /** The output hands the rows over, unless they do not fit: then nobody can receive it. */
  ghost predicate Hands(env: Envelope, key: Key, taskId: string, output: seq<byte>, ys: seq<Row>, d: nat) {
    && output != []
    && (if HandOffFits(|ys|, d) then Unwrap(env, key, taskId, output) == Ok(Encode(TensorOf(ys)))
        else !Receivable(env, key, taskId, output))
  }

  /** What one execution owes on a ready node, whichever slice the node held before. */
  ghost predicate StageMeets(
    env: Envelope, key: Key, m: Weights, n: Node, task: Task, xs: seq<Row>, d: nat,
    res: Result<TaskResult, InferError>, n': Node)
    requires task.start < task.end <= |m.layers|
  {
    && Ready(n, m) && Ready(n', m)
    && StageYields(env, key, m, CachesAt(n, task.start, task.end), task, xs, d,
                   res, CachesAt(n', task.start, task.end))
  }

  /** Tasks for a slice of the model that bring rows of width `d`; rows that come over the wire fit it. */
  ghost predicate TaskFits(env: Envelope, key: Key, m: Weights, task: Task, xs: seq<Row>, d: nat) {
    && task.start < task.end <= |m.layers|
    && |xs| == |task.tokens| > 0 && Uniform(xs, d) && d < U64_LIMIT
    && (task.start != 0 ==> HandOffFits(|xs|, d))
    && Carries(env, key, m, task, xs)
  }

  /** The task must fail, and with which error: its input cannot be received, or its tokens are not known. */
  function MustRefuse(env: Envelope, key: Key, m: Weights, task: Task): Option<InferError> {
    if !(task.start < task.end <= |m.layers|) then None
    else if !Receivable(env, key, task.taskId, task.input) then Some(Wire)
    else if task.start == 0 && !TokensKnown(m.embedding.vocab, task.tokens) then Some(BadToken)
    else None
  }

  /** What a refusal owes: the error, and no change of the caches. */
  ghost predicate Refuses(
    m: Weights, n: Node, task: Task, e: InferError, res: Result<TaskResult, InferError>, n': Node)
  {
    && res == Err(e) && Ready(n', m)
    && CachesAt(n', task.start, task.end) == CachesAt(n, task.start, task.end)
  }

  /** A runner that meets its duty on every ready node: on every fitting task, and on every task it must refuse. */
  ghost predicate RunnerMeets(run: StageRunner, env: Envelope, key: Key, m: Weights, d: nat) {
    && (forall i, n, task, xs {:trigger run(i, n, task), TaskFits(env, key, m, task, xs, d)} ::
          Ready(n, m) && TaskFits(env, key, m, task, xs, d) ==>
          StageMeets(env, key, m, n, task, xs, d, run(i, n, task).0, run(i, n, task).1))
    && (forall i, n, task {:trigger run(i, n, task)} ::
          Ready(n, m) && MustRefuse(env, key, m, task).Some? ==>
          Refuses(m, n, task, MustRefuse(env, key, m, task).value, run(i, n, task).0, run(i, n, task).1))
  }

  lemma {:induction false} RowsBounded(ws: seq<LayerOps>, cs: seq<Cache>, xs: seq<Row>, mask: Option<nat>, pos: nat)
    requires ws != [] && |ws| == |cs| && CachesValid(cs) && RunLayers(ws, cs, xs, mask, pos).0.Ok?
    ensures pos + |xs| <= MAX_SEQ_LEN
  {
  }

  /** What a stage seals can be opened exactly when it fits. */
  lemma SealedHands(env: Envelope, nonce: nat, key: Key, taskId: string, ys: seq<Row>, d: nat)
    requires Ideal(env) && ys != [] && Uniform(ys, d) && |ys| < U64_LIMIT && d < U64_LIMIT
    ensures Hands(env, key, taskId, Wrap(env, nonce, key, taskId, Encode(TensorOf(ys))), ys, d)
  {
    if HandOffFits(|ys|, d) {
      SealedStateOpens(env, nonce, key, taskId, ys, d);
    } else {
      SealedStateLost(env, nonce, key, taskId, ys, d);
    }
  }

  lemma StageHands(
    env: Envelope, nonce: nat, key: Key, taskId: string, ws: seq<LayerOps>, cs: seq<Cache>,
    xs: seq<Row>, mask: Option<nat>, pos: nat, d: nat)
    requires Ideal(env) && ws != [] && |ws| == |cs| && CachesValid(cs) && xs != [] && Uniform(xs, d) && d < U64_LIMIT
    ensures var r := RunLayers(ws, cs, xs, mask, pos);
            r.0.Ok? ==>
              Hands(env, key, taskId, Wrap(env, nonce, key, taskId, Encode(TensorOf(r.0.value))), r.0.value, d)
  {
    var r := RunLayers(ws, cs, xs, mask, pos);
    if r.0.Ok? {
      RowsBounded(ws, cs, xs, mask, pos);
      SealedHands(env, nonce, key, taskId, r.0.value, d);
    }
  }

  /** A resident slice with its rows at hand runs and seals what its task asks for. */
  lemma SealsStage(env: Envelope, nonce: nat, key: Key, m: Weights, n: Node, task: Task, xs: seq<Row>, d: nat)
    requires Ideal(env) && TaskFits(env, key, m, task, xs, d)
    requires Resident(n, m, task.start, task.end) && Ingest(n, task.start, task.tokens) == Ok(xs)
    ensures var (res, n') := RunAndSeal(env, nonce, key, n, task);
            Resident(n', m, task.start, task.end) && StageYields(env, key, m, n.caches, task, xs, d, res, n'.caches)
  {
    ResidentRuns(m, n, task.start, task.end, task.tokens, xs, task.seqId);
    StageHands(env, nonce, key, task.taskId, m.layers[task.start..task.end], n.caches, xs,
               MaskFor(|task.tokens|), task.seqId, d);
  }

  lemma ExecutesStage(env: Envelope, nonce: nat, key: Key, m: Weights, n: Node, task: Task, xs: seq<Row>, d: nat)
    requires Ideal(env) && Ready(n, m) && TaskFits(env, key, m, task, xs, d)
    ensures var (res, n') := RunTask(env, nonce, key, n, task);
            StageMeets(env, key, m, n, task, xs, d, res, n')
  {
    StageReceives(env, key, m, n, task, xs, d);
    SealsStage(env, nonce, key, m, Receive(env, key, n, task).1, task, xs, d);
  }

  lemma RefusesInput(env: Envelope, nonce: nat, key: Key, m: Weights, n: Node, task: Task)
    requires Ready(n, m) && !Receivable(env, key, task.taskId, task.input)
    ensures var (res, n') := RunTask(env, nonce, key, n, task);
            Refuses(m, n, task, Wire, res, n')
  {
  }

  lemma RefusesTokens(env: Envelope, nonce: nat, key: Key, m: Weights, n: Node, task: Task)
    requires Ready(n, m) && Receivable(env, key, task.taskId, task.input)
    requires 0 == task.start < task.end <= |m.layers| && !TokensKnown(m.embedding.vocab, task.tokens)
    ensures var (res, n') := RunTask(env, nonce, key, n, task);
            Refuses(m, n, task, BadToken, res, n')
  {
  }

  /** An input that cannot be received, and a token the model does not know, are refused before any layer runs. */
  lemma ExecutorRefuses(env: Envelope, nonce: nat, key: Key, m: Weights, n: Node, task: Task)
    requires Ready(n, m) && MustRefuse(env, key, m, task).Some?
    ensures Refuses(m, n, task, MustRefuse(env, key, m, task).value,
                    RunTask(env, nonce, key, n, task).0, RunTask(env, nonce, key, n, task).1)
  {
    if !Receivable(env, key, task.taskId, task.input) {
      RefusesInput(env, nonce, key, m, n, task);
    } else {
      RefusesTokens(env, nonce, key, m, n, task);
    }
  }

  /** The executor meets its duty: it runs the slice it is asked for, and hands over what the next stage needs. */
  lemma ExecutorMeets(env: Envelope, nonces: nat -> nat, key: Key, m: Weights, d: nat)
    requires Ideal(env)
    ensures RunnerMeets(TaskRunner(env, nonces, key), env, key, m, d)
  {
    var run := TaskRunner(env, nonces, key);
    forall i, n, task, xs | Ready(n, m) && TaskFits(env, key, m, task, xs, d)
      ensures StageMeets(env, key, m, n, task, xs, d, run(i, n, task).0, run(i, n, task).1)
    {
      ExecutesStage(env, nonces(i), key, m, n, task, xs, d);
    }
    forall i, n, task | Ready(n, m) && MustRefuse(env, key, m, task).Some?
      ensures Refuses(m, n, task, MustRefuse(env, key, m, task).value, run(i, n, task).0, run(i, n, task).1)
    {
      ExecutorRefuses(env, nonces(i), key, m, n, task);
    }
  }

  // ---------------------------------------------------------------- a chain of stages

  /**
   One call passed along consecutive nodes: each stage executes its task, and its sealed output becomes the
   next stage's input.
   */
  function Chain(run: StageRunner, i: nat, nodes: seq<Node>, cuts: seq<nat>, task: Task)
    : (r: (Result<seq<Word>, InferError>, seq<Node>))
    requires |cuts| == |nodes| + 1 >= 2
    ensures |r.1| == |nodes|
    decreases |nodes|
  {
    var (res, n) := run(i, nodes[0], task);
    if res.Err? then (Err(res.error), [n] + nodes[1..])
    else if |nodes| == 1 then (Ok(res.value.logits), [n])
    else
      var (out, rest) := Chain(run, i + 1, nodes[1..], cuts[1..], NextTask(task, res.value, cuts[1], cuts[2]));
      (out, [n] + rest)
  }

  function NextTask(task: Task, res: TaskResult, start: nat, end: nat): Task {
    Task(res.taskId, res.seqId, res.output, start, end, task.tokens)
  }

  /** The caches of consecutive stages, end to end. */
  function AllCaches(nodes: seq<Node>, cuts: seq<nat>): seq<Cache>
    requires |cuts| == |nodes| + 1
  {
    if nodes == [] then [] else CachesAt(nodes[0], cuts[0], cuts[1]) + AllCaches(nodes[1..], cuts[1..])
  }

  ghost predicate AllReady(nodes: seq<Node>, m: Weights) {
    forall i :: 0 <= i < |nodes| ==> Ready(nodes[i], m)
  }

  /** Boundaries of non-empty consecutive slices up to the end of the model. */
  predicate CutsTo(cuts: seq<nat>, total: nat) {
    && |cuts| >= 1 && cuts[|cuts| - 1] == total
    && forall i, j :: 0 <= i < j < |cuts| ==> cuts[i] < cuts[j]
  }

  /** Nodes ready to serve the last stages of a model, those that `cuts` describes. */
  ghost predicate Swarm(nodes: seq<Node>, m: Weights, cuts: seq<nat>) {
    AllReady(nodes, m) && CutsTo(cuts, |m.layers|) && |cuts| == |nodes| + 1
  }

  lemma SwarmTail(nodes: seq<Node>, m: Weights, cuts: seq<nat>)
    requires Swarm(nodes, m, cuts) && nodes != []
    ensures Swarm(nodes[1..], m, cuts[1..])
    ensures cuts[0] < cuts[1] <= |m.layers| && (cuts[1] == |m.layers| <==> |nodes| == 1)
  {
    assert |nodes| > 1 ==> cuts[1] < cuts[|cuts| - 1];
  }

  lemma AllCachesValid(nodes: seq<Node>, m: Weights, cuts: seq<nat>)
    requires Swarm(nodes, m, cuts)
    ensures cuts[0] <= |m.layers|
    ensures |AllCaches(nodes, cuts)| == |m.layers| - cuts[0] && CachesValid(AllCaches(nodes, cuts))
  {
    if nodes != [] {
      SwarmTail(nodes, m, cuts);
      AllCachesValid(nodes[1..], m, cuts[1..]);
    }
  }

  /** What the undivided model makes of rows entering layer `lo`. */
  function RestOfModel(m: Weights, lo: nat, caches: seq<Cache>, xs: seq<Row>, seqLen: nat, pos: nat)
    : (Result<seq<Word>, InferError>, seq<Cache>)
    requires lo <= |m.layers| && |caches| == |m.layers| - lo && CachesValid(caches)
  {
    var r := RunLayers(m.layers[lo..], caches, xs, MaskFor(seqLen), pos);
    (if r.0.Err? then Err(r.0.error) else Project(m.head, r.0.value, seqLen), r.1)
  }

  /** The rest of the model is the next slice, and then what remains. */
  lemma RestSplits(m: Weights, lo: nat, mid: nat, cs: seq<Cache>, cs': seq<Cache>, xs: seq<Row>, seqLen: nat, pos: nat)
    requires lo <= mid <= |m.layers| && |cs| == mid - lo && |cs'| == |m.layers| - mid
    requires CachesValid(cs) && CachesValid(cs')
    ensures var r := RunLayers(m.layers[lo..mid], cs, xs, MaskFor(seqLen), pos);
            RestOfModel(m, lo, cs + cs', xs, seqLen, pos) ==
            if r.0.Err? then (Err(r.0.error), r.1 + cs')
            else var rest := RestOfModel(m, mid, cs', r.0.value, seqLen, pos); (rest.0, r.1 + rest.1)
  {
    assert m.layers[lo..] == m.layers[lo..mid] + m.layers[mid..];
    RunLayersAppend(m.layers[lo..mid], m.layers[mid..], cs, cs', xs, MaskFor(seqLen), pos);
  }

  lemma LastStage(m: Weights, ys: seq<Row>, seqLen: nat, pos: nat)
    ensures RestOfModel(m, |m.layers|, [], ys, seqLen, pos) == (Project(m.head, ys, seqLen), [])
  {
  }

  /** A task for the first of the stages, bringing the rows `xs` of its tokens. */
  ghost predicate Arrives(env: Envelope, key: Key, m: Weights, cuts: seq<nat>, task: Task, xs: seq<Row>, d: nat) {
    && |cuts| >= 2 && task.start == cuts[0] && task.end == cuts[1]
    && TaskFits(env, key, m, task, xs, d)
  }

  /** The chain from `nodes` answers as the rest of the model, and leaves its caches. */
  ghost predicate ChainAgrees(
    run: StageRunner, i: nat, m: Weights, nodes: seq<Node>, cuts: seq<nat>, task: Task, xs: seq<Row>)
    requires Swarm(nodes, m, cuts) && nodes != []
  {
    AllCachesValid(nodes, m, cuts);
    var (out, nodes') := Chain(run, i, nodes, cuts, task);
    && AllReady(nodes', m)
    && (out, AllCaches(nodes', cuts)) == RestOfModel(m, cuts[0], AllCaches(nodes, cuts), xs, |xs|, task.seqId)
  }

  /** The rest of the model, in terms of the first stage's outcome and the later stages. */
  lemma FirstStage(
    run: StageRunner, i: nat, env: Envelope, key: Key, m: Weights, nodes: seq<Node>, cuts: seq<nat>,
    task: Task, xs: seq<Row>, d: nat)
    returns (r: Outcome)
    requires RunnerMeets(run, env, key, m, d)
    requires Swarm(nodes, m, cuts) && nodes != [] && Arrives(env, key, m, cuts, task, xs, d)
    ensures Swarm(nodes[1..], m, cuts[1..]) && cuts[0] < cuts[1] <= |m.layers|
    ensures var later := AllCaches(nodes[1..], cuts[1..]);
            var all := AllCaches(nodes, cuts);
            && |later| == |m.layers| - cuts[1] && CachesValid(later)
            && |all| == |m.layers| - cuts[0] && CachesValid(all)
            && RestOfModel(m, cuts[0], all, xs, |xs|, task.seqId) ==
               if r.0.Err? then (Err(r.0.error), r.1 + later)
               else var rest := RestOfModel(m, cuts[1], later, r.0.value, |xs|, task.seqId); (rest.0, r.1 + rest.1)
    ensures var (res, n) := run(i, nodes[0], task);
            && Ready(n, m) && CachesAt(n, cuts[0], cuts[1]) == r.1
            && (r.0.Err? ==> res == Err(r.0.error))
            && (r.0.Ok? ==>
                  && res.Ok? && |r.0.value| == |xs|
                  && (|nodes| == 1 ==>
                        cuts[1] == |m.layers| && Project(m.head, r.0.value, |xs|) == Ok(res.value.logits))
                  && (|nodes| > 1 && HandOffFits(|xs|, d) ==>
                        var next := NextTask(task, res.value, cuts[1], cuts[2]);
                        next.seqId == task.seqId && Arrives(env, key, m, cuts[1..], next, r.0.value, d)))
  {
    AllCachesValid(nodes, m, cuts);
    SwarmTail(nodes, m, cuts);
    AllCachesValid(nodes[1..], m, cuts[1..]);
    assert StageMeets(env, key, m, nodes[0], task, xs, d, run(i, nodes[0], task).0, run(i, nodes[0], task).1);
    var mine := CachesAt(nodes[0], cuts[0], cuts[1]);
    r := RunLayers(m.layers[cuts[0]..cuts[1]], mine, xs, MaskFor(|xs|), task.seqId);
    RestSplits(m, cuts[0], cuts[1], mine, AllCaches(nodes[1..], cuts[1..]), xs, |xs|, task.seqId);
    if |nodes| > 1 {
      SwarmTail(nodes[1..], m, cuts[1..]);
    }
  }

  /** From any stage on, the chain computes what the rest of the undivided model computes, if the states fit. */
  lemma {:induction false} ChainIsRest(
    run: StageRunner, i: nat, env: Envelope, key: Key, m: Weights, nodes: seq<Node>, cuts: seq<nat>,
    task: Task, xs: seq<Row>, d: nat)
    requires RunnerMeets(run, env, key, m, d)
    requires Swarm(nodes, m, cuts) && nodes != [] && Arrives(env, key, m, cuts, task, xs, d)
    requires |nodes| > 1 ==> HandOffFits(|xs|, d)
    ensures ChainAgrees(run, i, m, nodes, cuts, task, xs)
    decreases |nodes|
  {
    var r := FirstStage(run, i, env, key, m, nodes, cuts, task, xs, d);
    var (res, n) := run(i, nodes[0], task);
    if r.0.Err? {
      ConsCaches(m, n, nodes[1..], cuts);
    } else if |nodes| == 1 {
      LastStage(m, r.0.value, |xs|, task.seqId);
      ConsCaches(m, n, [], cuts);
    } else {
      var next := NextTask(task, res.value, cuts[1], cuts[2]);
      ChainIsRest(run, i + 1, env, key, m, nodes[1..], cuts[1..], next, r.0.value, d);
      ConsCaches(m, n, Chain(run, i + 1, nodes[1..], cuts[1..], next).1, cuts);
    }
  }

  // ---------------------------------------------------------------- states that do not fit

  /** A task that the first stage must refuse ends the chain and changes no cache. */
  lemma RefusalStops(
    run: StageRunner, i: nat, env: Envelope, key: Key, m: Weights, nodes: seq<Node>, cuts: seq<nat>, task: Task, d: nat)
    requires RunnerMeets(run, env, key, m, d) && Swarm(nodes, m, cuts) && nodes != []
    requires MustRefuse(env, key, m, task).Some? && task.start == cuts[0] && task.end == cuts[1]
    ensures var (out, nodes') := Chain(run, i, nodes, cuts, task);
            && out == Err(MustRefuse(env, key, m, task).value)
            && Swarm(nodes', m, cuts) && AllCaches(nodes', cuts) == AllCaches(nodes, cuts)
  {
    ConsCaches(m, run(i, nodes[0], task).1, nodes[1..], cuts);
  }

  /** The first stage of several, when its hidden state does not fit: its own error, or the next stage's refusal. */
  lemma LostAfterFirst(
    run: StageRunner, i: nat, env: Envelope, key: Key, m: Weights, nodes: seq<Node>, cuts: seq<nat>,
    task: Task, xs: seq<Row>, d: nat)
    requires RunnerMeets(run, env, key, m, d)
    requires Swarm(nodes, m, cuts) && |nodes| > 1 && Arrives(env, key, m, cuts, task, xs, d) && !HandOffFits(|xs|, d)
    ensures var (out, nodes') := Chain(run, i, nodes, cuts, task);
            var mine := CachesAt(nodes[0], cuts[0], cuts[1]);
            && cuts[0] < cuts[1] <= |m.layers| && |mine| == cuts[1] - cuts[0] && CachesValid(mine)
            && var r := RunLayers(m.layers[cuts[0]..cuts[1]], mine, xs, MaskFor(|xs|), task.seqId);
               && out == Err(if r.0.Err? then r.0.error else Wire)
               && Swarm(nodes', m, cuts)
               && AllCaches(nodes', cuts) == r.1 + AllCaches(nodes[1..], cuts[1..])
  {
    SwarmTail(nodes, m, cuts);
    var (res, n) := run(i, nodes[0], task);
    assert StageMeets(env, key, m, nodes[0], task, xs, d, res, n);
    if res.Err? {
      ConsCaches(m, n, nodes[1..], cuts);
    } else {
      SwarmTail(nodes[1..], m, cuts[1..]);
      var next := NextTask(task, res.value, cuts[1], cuts[2]);
      RefusalStops(run, i + 1, env, key, m, nodes[1..], cuts[1..], next, d);
      ConsCaches(m, n, Chain(run, i + 1, nodes[1..], cuts[1..], next).1, cuts);
    }
  }

  lemma ConsCaches(m: Weights, n: Node, rest: seq<Node>, cuts: seq<nat>)
    requires |cuts| == |rest| + 2 && Ready(n, m) && AllReady(rest, m)
    ensures AllReady([n] + rest, m)
    ensures AllCaches([n] + rest, cuts) == CachesAt(n, cuts[0], cuts[1]) + AllCaches(rest, cuts[1..])
  {
    assert ([n] + rest)[1..] == rest;
  }

  // ---------------------------------------------------------------- what a call comes to on a split model

  /** A call as it reaches the entry stage: whether the initial state that comes with it can be received. */
  datatype Offer = Offer(receivable: bool, call: CacheCoherence.Call)

  /** A cut of the model into at least one slice. */
  predicate Slicing(cuts: seq<nat>, m: Weights) {
    |cuts| >= 2 && cuts[0] == 0 && CutsTo(cuts, |m.layers|)
  }

  lemma FirstCut(cuts: seq<nat>, m: Weights)
    requires Slicing(cuts, m)
    ensures 0 < cuts[1] <= |m.layers|
  {
    assert |cuts| > 2 ==> cuts[1] < cuts[|cuts| - 1];
  }

  /** Hidden states of `n` positions get from stage to stage: there is only one, or they fit the wire. */
  predicate PassesOn(cuts: seq<nat>, n: nat, d: nat) {
    |cuts| == 2 || HandOffFits(n, d)
  }

  /**
   The answer and the caches of a model cut at `cuts`: those of the undivided model, unless the initial state
   cannot be received, or the hidden state of the call does not get past the first stage. Then the call fails,
   and only the first slice's caches may have moved on.
   */
  function SplitCall(m: Weights, cuts: seq<nat>, d: nat, caches: seq<Cache>, offer: Offer)
    : (r: (Result<seq<Word>, InferError>, seq<Cache>))
    requires Slicing(cuts, m) && |caches| == |m.layers| && CachesValid(caches)
    ensures |r.1| == |caches| && CachesValid(r.1)
  {
    var call := offer.call;
    if !offer.receivable then (Err(Wire), caches)
    else if PassesOn(cuts, |call.tokens|, d) then Forward(m, caches, call.tokens, call.pos)
    else if !TokensKnown(m.embedding.vocab, call.tokens) then (Err(BadToken), caches)
    else
      FirstCut(cuts, m);
      var (mine, later) := (caches[..cuts[1]], caches[cuts[1]..]);
      var xs := EmbedRows(m.embedding, call.tokens);
      var r := RunLayers(m.layers[..cuts[1]], mine, xs, MaskFor(|xs|), call.pos);
      (Err(if r.0.Err? then r.0.error else Wire), r.1 + later)
  }

  /** The caches after a run of calls. */
  function SplitCalls(m: Weights, cuts: seq<nat>, d: nat, caches: seq<Cache>, offers: seq<Offer>): (cs: seq<Cache>)
    requires Slicing(cuts, m) && |caches| == |m.layers| && CachesValid(caches)
    ensures |cs| == |caches| && CachesValid(cs)
  {
    if offers == [] then caches else
      SplitCall(m, cuts, d, SplitCalls(m, cuts, d, caches, offers[..|offers| - 1]), offers[|offers| - 1]).1
  }

  predicate Delivered(cuts: seq<nat>, d: nat, offer: Offer) {
    offer.receivable && PassesOn(cuts, |offer.call.tokens|, d)
  }

  // ---------------------------------------------------------------- calls and runs

  /** A client's call, with the identity and the (ignored) initial state it travels under. */
  datatype Request = Request(taskId: string, input: seq<byte>, call: CacheCoherence.Call)

  function EntryTask(req: Request, cuts: seq<nat>): Task
    requires |cuts| >= 2
  {
    Task(req.taskId, req.call.pos, req.input, cuts[0], cuts[1], req.call.tokens)
  }

  function OfferOf(env: Envelope, key: Key, req: Request): Offer {
    Offer(Receivable(env, key, req.taskId, req.input), req.call)
  }

  /** Nodes ready to serve the whole model, cut into non-empty consecutive slices. */
  ghost predicate WholeSwarm(nodes: seq<Node>, m: Weights, cuts: seq<nat>) {
    nodes != [] && Swarm(nodes, m, cuts) && cuts[0] == 0
  }

  /** The chain has ended with this answer and these caches, and its nodes are ready for the next call. */
  ghost predicate EndsWith(
    chain: (Result<seq<Word>, InferError>, seq<Node>), m: Weights, cuts: seq<nat>,
    r: (Result<seq<Word>, InferError>, seq<Cache>))
  {
    WholeSwarm(chain.1, m, cuts) && (chain.0, AllCaches(chain.1, cuts)) == r
  }

  lemma FirstCaches(nodes: seq<Node>, m: Weights, cuts: seq<nat>)
    requires WholeSwarm(nodes, m, cuts)
    ensures Slicing(cuts, m)
    ensures var all := AllCaches(nodes, cuts);
            && |all| == |m.layers| && CachesValid(all)
            && cuts[1] <= |m.layers|
            && all[..cuts[1]] == CachesAt(nodes[0], cuts[0], cuts[1])
            && all[cuts[1]..] == AllCaches(nodes[1..], cuts[1..])
  {
    AllCachesValid(nodes, m, cuts);
    SwarmTail(nodes, m, cuts);
    AllCachesValid(nodes[1..], m, cuts[1..]);
  }

  /** A call that the first stage refuses. */
  lemma SplitRefused(
    run: StageRunner, env: Envelope, key: Key, m: Weights, nodes: seq<Node>, cuts: seq<nat>, req: Request, d: nat)
    requires RunnerMeets(run, env, key, m, d) && WholeSwarm(nodes, m, cuts)
    requires !Receivable(env, key, req.taskId, req.input) || !TokensKnown(m.embedding.vocab, req.call.tokens)
    ensures Slicing(cuts, m) && |AllCaches(nodes, cuts)| == |m.layers| && CachesValid(AllCaches(nodes, cuts))
    ensures EndsWith(Chain(run, 0, nodes, cuts, EntryTask(req, cuts)), m, cuts,
                     SplitCall(m, cuts, d, AllCaches(nodes, cuts), OfferOf(env, key, req)))
  {
    FirstCaches(nodes, m, cuts);
    FirstCut(cuts, m);
    RefusalStops(run, 0, env, key, m, nodes, cuts, EntryTask(req, cuts), d);
  }

  /** A call whose hidden state does not get past the first stage. */
  lemma SplitLost(
    run: StageRunner, env: Envelope, key: Key, m: Weights, nodes: seq<Node>, cuts: seq<nat>, req: Request, d: nat)
    requires RunnerMeets(run, env, key, m, d) && WholeSwarm(nodes, m, cuts) && EmbedsTo(m, d) && req.call.tokens != []
    requires Receivable(env, key, req.taskId, req.input) && TokensKnown(m.embedding.vocab, req.call.tokens)
    requires !PassesOn(cuts, |req.call.tokens|, d)
    ensures Slicing(cuts, m) && |AllCaches(nodes, cuts)| == |m.layers| && CachesValid(AllCaches(nodes, cuts))
    ensures EndsWith(Chain(run, 0, nodes, cuts, EntryTask(req, cuts)), m, cuts,
                     SplitCall(m, cuts, d, AllCaches(nodes, cuts), OfferOf(env, key, req)))
  {
    FirstCaches(nodes, m, cuts);
    FirstCut(cuts, m);
    LostAfterFirst(run, 0, env, key, m, nodes, cuts, EntryTask(req, cuts), EmbedRows(m.embedding, req.call.tokens), d);
    assert m.layers[0..cuts[1]] == m.layers[..cuts[1]];
  }

  /** A call that gets through. */
  lemma SplitDelivered(
    run: StageRunner, env: Envelope, key: Key, m: Weights, nodes: seq<Node>, cuts: seq<nat>, req: Request, d: nat)
    requires RunnerMeets(run, env, key, m, d) && WholeSwarm(nodes, m, cuts) && EmbedsTo(m, d) && req.call.tokens != []
    requires Receivable(env, key, req.taskId, req.input) && TokensKnown(m.embedding.vocab, req.call.tokens)
    requires PassesOn(cuts, |req.call.tokens|, d)
    ensures Slicing(cuts, m) && |AllCaches(nodes, cuts)| == |m.layers| && CachesValid(AllCaches(nodes, cuts))
    ensures EndsWith(Chain(run, 0, nodes, cuts, EntryTask(req, cuts)), m, cuts,
                     Forward(m, AllCaches(nodes, cuts), req.call.tokens, req.call.pos))
  {
    FirstCaches(nodes, m, cuts);
    FirstCut(cuts, m);
    assert m.layers[0..] == m.layers;
    ChainIsRest(run, 0, env, key, m, nodes, cuts, EntryTask(req, cuts), EmbedRows(m.embedding, req.call.tokens), d);
  }

  /**
   For every cut of the model into non-empty slices, every node state, and every call: the nodes' answer and
   their caches, end to end, are those of the undivided model exactly as far as the wire allows. The call
   succeeds if and only if the undivided model's does, its initial state can be received, and its hidden states
   get from stage to stage; when it gets through, errors and caches are the undivided model's as well.
   */
  lemma SplitIsWhole(
    run: StageRunner, env: Envelope, key: Key, m: Weights, nodes: seq<Node>, cuts: seq<nat>, req: Request, d: nat)
    requires RunnerMeets(run, env, key, m, d)
    requires WholeSwarm(nodes, m, cuts) && EmbedsTo(m, d) && req.call.tokens != []
    ensures Slicing(cuts, m) && |AllCaches(nodes, cuts)| == |m.layers| && CachesValid(AllCaches(nodes, cuts))
    ensures var (caches, offer) := (AllCaches(nodes, cuts), OfferOf(env, key, req));
            var chain := Chain(run, 0, nodes, cuts, EntryTask(req, cuts));
            var whole := Forward(m, caches, req.call.tokens, req.call.pos);
            && EndsWith(chain, m, cuts, SplitCall(m, cuts, d, caches, offer))
            && (chain.0.Ok? <==> Delivered(cuts, d, offer) && whole.0.Ok?)
            && (Delivered(cuts, d, offer) ==> EndsWith(chain, m, cuts, whole))
  {
    if !Receivable(env, key, req.taskId, req.input) || !TokensKnown(m.embedding.vocab, req.call.tokens) {
      SplitRefused(run, env, key, m, nodes, cuts, req, d);
    } else if PassesOn(cuts, |req.call.tokens|, d) {
      SplitDelivered(run, env, key, m, nodes, cuts, req, d);
    } else {
      SplitLost(run, env, key, m, nodes, cuts, req, d);
    }
  }

  /** The nodes after a run of requests; round `k` is executed by `runs(k)`. */
  function RunRequests(runs: nat -> StageRunner, nodes: seq<Node>, cuts: seq<nat>, reqs: seq<Request>)
    : (nodes': seq<Node>)
    requires |cuts| == |nodes| + 1 >= 2
    ensures |nodes'| == |nodes|
  {
    if reqs == [] then nodes else
      var last := |reqs| - 1;
      Chain(runs(last), 0, RunRequests(runs, nodes, cuts, reqs[..last]), cuts, EntryTask(reqs[last], cuts)).1
  }

  function OffersOf(env: Envelope, key: Key, reqs: seq<Request>): (offers: seq<Offer>)
    ensures |offers| == |reqs|
  {
    seq(|reqs|, i requires 0 <= i < |reqs| => OfferOf(env, key, reqs[i]))
  }

  function CallsOf(offers: seq<Offer>): (calls: seq<CacheCoherence.Call>)
    ensures |calls| == |offers|
  {
    seq(|offers|, i requires 0 <= i < |offers| => offers[i].call)
  }

  predicate AllAsk(offers: seq<Offer>) {
    forall i :: 0 <= i < |offers| ==> offers[i].call.tokens != []
  }

  ghost predicate RunnersMeet(runs: nat -> StageRunner, env: Envelope, key: Key, m: Weights, d: nat) {
    forall k: nat :: RunnerMeets(runs(k), env, key, m, d)
  }

  /** After every run the nodes' caches, end to end, are those of the split model after the same calls. */
  lemma {:induction false} SplitRunKeepsCaches(
    runs: nat -> StageRunner, env: Envelope, key: Key, m: Weights, nodes: seq<Node>, cuts: seq<nat>,
    reqs: seq<Request>, d: nat)
    requires RunnersMeet(runs, env, key, m, d)
    requires WholeSwarm(nodes, m, cuts) && EmbedsTo(m, d) && AllAsk(OffersOf(env, key, reqs))
    ensures Slicing(cuts, m) && |AllCaches(nodes, cuts)| == |m.layers| && CachesValid(AllCaches(nodes, cuts))
    ensures WholeSwarm(RunRequests(runs, nodes, cuts, reqs), m, cuts)
    ensures AllCaches(RunRequests(runs, nodes, cuts, reqs), cuts)
         == SplitCalls(m, cuts, d, AllCaches(nodes, cuts), OffersOf(env, key, reqs))
  {
    FirstCaches(nodes, m, cuts);
    if reqs != [] {
      var last := |reqs| - 1;
      assert OffersOf(env, key, reqs)[..last] == OffersOf(env, key, reqs[..last]);
      SplitRunKeepsCaches(runs, env, key, m, nodes, cuts, reqs[..last], d);
      assert OffersOf(env, key, reqs)[last].call.tokens != [];
      SplitIsWhole(runs(last), env, key, m, RunRequests(runs, nodes, cuts, reqs[..last]), cuts, reqs[last], d);
    }
  }

  /** When all calls get through, those are the caches of the undivided model after the same calls. */
  lemma {:induction false} DeliveredCallsAreWhole(
    m: Weights, cuts: seq<nat>, d: nat, caches: seq<Cache>, offers: seq<Offer>)
    requires Slicing(cuts, m) && |caches| == |m.layers| && CachesValid(caches)
    requires forall i :: 0 <= i < |offers| ==> Delivered(cuts, d, offers[i])
    ensures SplitCalls(m, cuts, d, caches, offers) == CacheCoherence.RunCalls(m, caches, CallsOf(offers))
  {
    if offers != [] {
      DeliveredCallsAreWhole(m, cuts, d, caches, offers[..|offers| - 1]);
      assert CallsOf(offers)[..|offers| - 1] == CallsOf(offers[..|offers| - 1]);
    }
  }

  // ---------------------------------------------------------------- contexts of a split model

  /**
   The sequence whose state the slices hold after a call. A call refused at the entry leaves it as it was; one
   that is lost behind the first stage leaves nothing to build on, until a call restarts.
   */
  function SplitContextAfter(m: Weights, cuts: seq<nat>, d: nat, context: seq<i32>, offer: Offer): seq<i32> {
    if !offer.receivable || !CacheCoherence.Servable(m, offer.call) then context
    else if PassesOn(cuts, |offer.call.tokens|, d) then CacheCoherence.ContextAfter(m, context, offer.call)
    else []
  }

  function SplitContextOf(m: Weights, cuts: seq<nat>, d: nat, offers: seq<Offer>): seq<i32> {
    if offers == [] then [] else
      SplitContextAfter(m, cuts, d, SplitContextOf(m, cuts, d, offers[..|offers| - 1]), offers[|offers| - 1])
  }

  /** Every call restarts or appends one token to what the slices hold. */
  predicate WellFormedOffers(m: Weights, cuts: seq<nat>, d: nat, offers: seq<Offer>) {
    forall i :: 0 <= i < |offers| ==>
      CacheCoherence.Follows(offers[i].call, SplitContextOf(m, cuts, d, offers[..i]))
  }

  /** When all calls get through, the context is that of the undivided model. */
  lemma {:induction false} DeliveredContext(m: Weights, cuts: seq<nat>, d: nat, offers: seq<Offer>)
    requires forall i :: 0 <= i < |offers| ==> Delivered(cuts, d, offers[i])
    ensures SplitContextOf(m, cuts, d, offers) == CacheCoherence.ContextOf(m, CallsOf(offers))
  {
    if offers != [] {
      DeliveredContext(m, cuts, d, offers[..|offers| - 1]);
      assert CallsOf(offers)[..|offers| - 1] == CallsOf(offers[..|offers| - 1]);
    }
  }

  /** Past the rotary tables the first slice refuses as well, and changes nothing. */
  lemma TooLongForSlice(ws: seq<LayerOps>, cs: seq<Cache>, xs: seq<Row>, mask: Option<nat>, pos: nat)
    requires ws != [] && |ws| == |cs| && CachesValid(cs) && pos + |xs| > MAX_SEQ_LEN
    ensures RunLayers(ws, cs, xs, mask, pos) == (Err(PositionOutOfRange), cs)
  {
    assert [cs[0]] + cs[1..] == cs;
  }

  /** One call keeps the slices' caches in step with the context, and answers as a recomputation would. */
  lemma SplitCallHolds(m: Weights, cuts: seq<nat>, d: nat, cs: seq<Cache>, context: seq<i32>, offer: Offer)
    requires Slicing(cuts, m) && CacheCoherence.LayersLawful(m.layers)
    requires CacheCoherence.Holds(m, cs, context) && CacheCoherence.Follows(offer.call, context)
    ensures var (out, cs') := SplitCall(m, cuts, d, cs, offer);
            var context' := SplitContextAfter(m, cuts, d, context, offer);
            && CacheCoherence.Holds(m, cs', context')
            && (out.Ok? <==> Delivered(cuts, d, offer) && CacheCoherence.Servable(m, offer.call))
            && (out.Ok? ==> out == CacheCoherence.Recompute(m, context'))
  {
    var call := offer.call;
    FirstCut(cuts, m);
    if offer.receivable {
      if PassesOn(cuts, |call.tokens|, d) {
        CacheCoherence.CallHolds(m, cs, context, call);
      } else if TokensKnown(m.embedding.vocab, call.tokens) && !CacheCoherence.Servable(m, call) {
        TooLongForSlice(m.layers[..cuts[1]], cs[..cuts[1]], EmbedRows(m.embedding, call.tokens),
                        MaskFor(|call.tokens|), call.pos);
        assert cs[..cuts[1]] + cs[cuts[1]..] == cs;
      }
    }
  }

  lemma {:induction false} SplitCallsHold(
    m: Weights, cuts: seq<nat>, d: nat, cs: seq<Cache>, offers: seq<Offer>)
    requires Slicing(cuts, m) && CacheCoherence.LayersLawful(m.layers) && |cs| == |m.layers| && CachesValid(cs)
    requires WellFormedOffers(m, cuts, d, offers)
    ensures CacheCoherence.Holds(m, SplitCalls(m, cuts, d, cs, offers), SplitContextOf(m, cuts, d, offers))
  {
    if offers != [] {
      var (front, last) := (offers[..|offers| - 1], offers[|offers| - 1]);
      forall i | 0 <= i < |front|
        ensures CacheCoherence.Follows(front[i].call, SplitContextOf(m, cuts, d, front[..i]))
      {
        assert offers[..i] == front[..i];
      }
      SplitCallsHold(m, cuts, d, cs, front);
      SplitCallHolds(m, cuts, d, SplitCalls(m, cuts, d, cs, front), SplitContextOf(m, cuts, d, front), last);
    }
  }

  /** The call follows what the slices hold after the offers. */
  lemma LastFollows(m: Weights, cuts: seq<nat>, d: nat, offers: seq<Offer>, last: Offer)
    requires WellFormedOffers(m, cuts, d, offers + [last])
    ensures WellFormedOffers(m, cuts, d, offers)
    ensures CacheCoherence.Follows(last.call, SplitContextOf(m, cuts, d, offers))
    ensures SplitContextOf(m, cuts, d, offers + [last])
         == SplitContextAfter(m, cuts, d, SplitContextOf(m, cuts, d, offers), last)
  {
    var all := offers + [last];
    assert all[..|offers|] == offers && all[|offers|] == last;
    forall i | 0 <= i < |offers|
      ensures CacheCoherence.Follows(offers[i].call, SplitContextOf(m, cuts, d, offers[..i]))
    {
      assert all[i] == offers[i] && all[..i] == offers[..i];
    }
  }

  lemma FollowersAsk(m: Weights, cuts: seq<nat>, d: nat, offers: seq<Offer>)
    requires WellFormedOffers(m, cuts, d, offers)
    ensures AllAsk(offers)
  {
  }

  /**
   A generation over the split model: after any run of well-formed requests, received or not, delivered or lost,
   the next one succeeds exactly when the undivided model can serve it and it gets through, and then returns the
   logits of one causally masked pass of the undivided model over the whole prefix.
   */
  lemma SplitRunIsRecomputation(
    runs: nat -> StageRunner, env: Envelope, key: Key, m: Weights, nodes: seq<Node>, cuts: seq<nat>,
    reqs: seq<Request>, req: Request, d: nat)
    requires RunnersMeet(runs, env, key, m, d)
    requires WholeSwarm(nodes, m, cuts) && EmbedsTo(m, d) && CacheCoherence.LayersLawful(m.layers)
    requires WellFormedOffers(m, cuts, d, OffersOf(env, key, reqs) + [OfferOf(env, key, req)])
    ensures var (offers, offer) := (OffersOf(env, key, reqs), OfferOf(env, key, req));
            var out := Chain(runs(|reqs|), 0, RunRequests(runs, nodes, cuts, reqs), cuts, EntryTask(req, cuts)).0;
            && (out.Ok? <==> Delivered(cuts, d, offer) && CacheCoherence.Servable(m, req.call))
            && (out.Ok? ==> out == CacheCoherence.Recompute(m, SplitContextOf(m, cuts, d, offers + [offer])))
  {
    var (offers, offer) := (OffersOf(env, key, reqs), OfferOf(env, key, req));
    LastFollows(m, cuts, d, offers, offer);
    FollowersAsk(m, cuts, d, offers);
    SplitRunKeepsCaches(runs, env, key, m, nodes, cuts, reqs, d);
    SplitIsWhole(runs(|reqs|), env, key, m, RunRequests(runs, nodes, cuts, reqs), cuts, req, d);
    SplitCallsHold(m, cuts, d, AllCaches(nodes, cuts), offers);
    SplitCallHolds(m, cuts, d, SplitCalls(m, cuts, d, AllCaches(nodes, cuts), offers),
                   SplitContextOf(m, cuts, d, offers), offer);
  }

  // ---------------------------------------------------------------- a prompt above the cap

  /** 4096 positions of width 16384 are 36 bytes above the cap; one position less fits. */
  lemma CapExample()
    ensures !HandOffFits(4096, 16384) && HandOffFits(4095, 16384)
    ensures HEADER + 4 * (4096 * 16384) == DECOMPRESS_CAP + 36
  {
  }

  /** A prompt of 4096 known tokens at width 16384 is served by the undivided model, and lost by any split of it. */
  lemma PromptAboveCapIsLost(
    run: StageRunner, env: Envelope, key: Key, m: Weights, nodes: seq<Node>, cuts: seq<nat>, req: Request)
    requires RunnerMeets(run, env, key, m, 16384)
    requires WholeSwarm(nodes, m, cuts) && |nodes| > 1 && EmbedsTo(m, 16384)
    requires Receivable(env, key, req.taskId, req.input)
    requires |req.call.tokens| == 4096 && req.call.pos == 0 && TokensKnown(m.embedding.vocab, req.call.tokens)
    ensures |AllCaches(nodes, cuts)| == |m.layers| && CachesValid(AllCaches(nodes, cuts))
    ensures Forward(m, AllCaches(nodes, cuts), req.call.tokens, 0).0.Ok?
    ensures Chain(run, 0, nodes, cuts, EntryTask(req, cuts)).0 == Err(Wire)
  {
    CapExample();
    FirstCaches(nodes, m, cuts);
    FirstCut(cuts, m);
    SplitIsWhole(run, env, key, m, nodes, cuts, req, 16384);
    CacheCoherence.LateBatchRefused(m, AllCaches(nodes, cuts), req.call);
    CacheCoherence.RestartStackSucceeds(
      m.layers[..cuts[1]], AllCaches(nodes, cuts)[..cuts[1]], EmbedRows(m.embedding, req.call.tokens));
  }
}
