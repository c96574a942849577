/**
 The backend object of a node and the executor that drives it (src/candle_backend.rs, src/executor.rs).
 Every method is proved against the functions on values of module Backend.
 */
module CandleBackend {
  import opened Wrappers
  import opened Transformer
  import opened HandOff
  import opened Backend
  import LlamaModel

  class CandleBackend {
    var source: Option<Weights>
    var model: LlamaModel.ModelWeights?
    var loadedRange: Option<(nat, nat)>
    var intermediateState: Option<Tensor>

    ghost function Repr(): set<object>
      reads this
    {
      if model == null then {this} else {this} + model.Repr()
    }

    ghost predicate Valid()
      reads this, Repr()
    {
      model != null ==> model.Valid()
    }

    ghost function View(): (n: Node)
      reads this, Repr()
      requires Valid()
    {
      BackendState(
        source,
        if model == null then None else Some(model.HeldView()),
        if model == null then [] else model.Caches(),
        loadedRange,
        intermediateState)
    }

    constructor ()
      ensures Valid() && fresh(Repr()) && View() == BackendState(None, None, [], None, None)
    {
      source, model, loadedRange, intermediateState := None, null, None, None;
    }

    /** Registers a model without loading any layer. */
    method SetModelSource(m: Weights)
      requires Valid()
      modifies this
      ensures Valid() && fresh(Repr() - old(Repr()))
      ensures View() == BackendState(Some(m), None, [], None, old(intermediateState))
    {
      source, model, loadedRange := Some(m), null, None;
    }

    /** Makes the slice [start, end) the resident one, reloading it with empty caches if it is not. */
    method EnsureLayers(start: nat, end: nat) returns (r: Result<(), InferError>)
      requires Valid()
      modifies this
      ensures Valid() && fresh(Repr() - old(Repr()))
      ensures (r, View()) == Ensure(old(View()), start, end)
    {
      if loadedRange == Some((start, end)) && model != null {
        return Ok(());
      }
      if source.None? {
        return Err(NoSource);
      }
      model := new LlamaModel.ModelWeights(source.value, start, end);
      loadedRange := Some((start, end));
      intermediateState := None;
      return Ok(());
    }

    method SetState(bytes: seq<byte>) returns (r: Result<(), InferError>)
      requires Valid()
      modifies this`intermediateState
      ensures Valid() && Repr() == old(Repr())
      ensures (r, View()) == Backend.SetState(old(View()), bytes)
    {
      if bytes == [] {
        return Ok(());
      }
      var decoded := Decode(bytes);
      if decoded.Err? || !TensorValid(decoded.value) {
        return Err(Wire);
      }
      intermediateState := Some(decoded.value);
      return Ok(());
    }

    method GetState() returns (bytes: seq<byte>)
      requires Valid()
      ensures bytes == Backend.GetState(View())
    {
      if intermediateState.Some? {
        return Encode(intermediateState.value);
      }
      return [];
    }

    /** Embeds the tokens at the entry; takes the received state elsewhere. */
    method TakeInput(start: nat, tokens: seq<i32>) returns (xs: Result<seq<Row>, InferError>)
      requires Valid() && model != null
      modifies this`intermediateState
      ensures Valid() && Repr() == old(Repr()) && model == old(model)
      ensures xs == Ingest(old(View()), start, tokens) && View() == GivenUp(old(View()), start)
    {
      if start == 0 {
        if model.embedding.None? {
          return Err(NoEmbeddings);
        }
        var e := model.embedding.value;
        return if TokensKnown(e.vocab, tokens) then Ok(EmbedRows(e, tokens)) else Err(BadToken);
      }
      if intermediateState.None? {
        return Err(NoUpstreamState);
      }
      var state := intermediateState.value;
      intermediateState := None;
      return if state.d1 != 1 || !TensorValid(state) then Err(Batch) else Ok(RowsOf(state));
    }

    /** The layer loop; `run` is what it comes to. */
    method RunLoop(start: nat, end: nat, xs: seq<Row>, seqLen: nat, pos: nat)
      returns (r: Result<seq<Row>, InferError>, ghost run: Outcome)
      requires Valid() && model != null
      modifies model, model.layers
      ensures Valid() && Repr() == old(Repr()) && model == old(model)
      ensures run == RunVisited(old(model.HeldView()), old(model.Caches()), start, end, xs, MaskFor(seqLen), pos)
      ensures r == run.0 && View() == old(View()).(caches := run.1)
    {
      var mask := model.MaskArgument(seqLen);
      ghost var p, whole := model.EnteringVisit(start, end, xs, MaskFor(seqLen), pos);
      r := model.RunHeldLayers(start, end, xs, mask, pos, p, whole);
      run := whole;
    }

    /** Keeps the new hidden state, and projects it at the exit. */
    method KeepOutput(end: nat, seqLen: nat, ys: seq<Row>) returns (r: Result<seq<Word>, InferError>)
      requires Valid() && model != null
      modifies this`intermediateState
      ensures Valid() && Repr() == old(Repr())
      ensures (r, View()) == Conclude(old(View()), end, seqLen, (Ok(ys), old(model.Caches())))
    {
      intermediateState := Some(TensorOf(ys));
      if end >= model.totalLayers {
        if model.head.None? {
          return Err(NoHead);
        }
        return Project(model.head.value, ys, seqLen);
      }
      return Ok([]);
    }

    /** Runs the held layers of [start, end); `sequenceId` is the position. */
    method RunLayers(start: nat, end: nat, tokens: seq<i32>, sequenceId: nat)
      returns (r: Result<seq<Word>, InferError>)
      requires Valid()
      modifies Repr()
      ensures Valid() && fresh(Repr() - old(Repr()))
      ensures (r, View()) == RunHeld(old(View()), start, end, tokens, sequenceId)
    {
      if model == null {
        return Ok([]);
      }
      var layerIn := TakeInput(start, tokens);
      if layerIn.Err? {
        return Err(layerIn.error);
      }
      var out, run := RunLoop(start, end, layerIn.value, |tokens|, sequenceId);
      if out.Err? {
        return Err(out.error);
      }
      r := KeepOutput(end, |tokens|, out.value);
    }
  }

  class Executor {
    const deviceId: string
    const clusterKey: Key

    constructor (id: string, key: Key)
      ensures deviceId == id && clusterKey == key
    {
      deviceId, clusterKey := id, key;
    }

    /** Ensures the slice, then opens and injects the received state. */
    method Receive(backend: CandleBackend, env: Envelope, task: Task) returns (r: Result<(), InferError>)
      requires backend.Valid()
      modifies backend
      ensures backend.Valid() && fresh(backend.Repr() - old(backend.Repr()))
      ensures (r, backend.View()) == Backend.Receive(env, clusterKey, old(backend.View()), task)
    {
      r := backend.EnsureLayers(task.start, task.end);
      if r.Err? || task.input == [] {
        return r;
      }
      var received := Unwrap(env, clusterKey, task.taskId, task.input);
      if received.Err? {
        return Err(Wire);
      }
      r := backend.SetState(received.value);
    }

    /** Runs the layers, extracts the new state and seals it. */
    method RunAndSeal(backend: CandleBackend, env: Envelope, nonce: nat, task: Task)
      returns (r: Result<TaskResult, InferError>)
      requires backend.Valid()
      modifies backend.Repr()
      ensures backend.Valid() && fresh(backend.Repr() - old(backend.Repr()))
      ensures (r, backend.View()) == Backend.RunAndSeal(env, nonce, clusterKey, old(backend.View()), task)
    {
      var logits := backend.RunLayers(task.start, task.end, task.tokens, task.seqId);
      if logits.Err? {
        return Err(logits.error);
      }
      var output := backend.GetState();
      return Ok(TaskResult(
        task.taskId, task.seqId, Wrap(env, nonce, clusterKey, task.taskId, output), logits.value));
    }

    /** One task, with the nonce drawn for its output; the first error stops it. */
    method RunTask(backend: CandleBackend, env: Envelope, nonce: nat, task: Task)
      returns (r: Result<TaskResult, InferError>)
      requires backend.Valid()
      modifies backend.Repr()
      ensures backend.Valid() && fresh(backend.Repr() - old(backend.Repr()))
      ensures (r, backend.View()) == Backend.RunTask(env, nonce, clusterKey, old(backend.View()), task)
    {
      var received := Receive(backend, env, task);
      if received.Err? {
        return Err(received.error);
      }
      r := RunAndSeal(backend, env, nonce, task);
    }

    /** `run` is what this executor does. */
    ghost predicate RunsAs(run: StageRunner, env: Envelope, nonces: nat -> nat) {
      forall i: nat, n: Node, task: Task {:trigger Backend.RunTask(env, nonces(i), clusterKey, n, task)} ::
        run(i, n, task) == Backend.RunTask(env, nonces(i), clusterKey, n, task)
    }

    /** In the loop, before task `i`: what is left to do completes `whole`. */
    ghost predicate InLoop(
      backend: CandleBackend, run: StageRunner, tasks: seq<Task>, i: nat, results: seq<TaskResult>, whole: LoopEnd)
      reads backend, backend.Repr()
    {
      backend.Valid() && i <= |tasks| && whole == SentBefore(results, RunTasks(run, backend.View(), tasks, i))
    }

    ghost predicate Ended(
      backend: CandleBackend, results: seq<TaskResult>, error: Option<InferError>, whole: LoopEnd)
      reads backend, backend.Repr()
    {
      backend.Valid() && whole == LoopEnd(results, error, backend.View())
    }

    /** One task of the loop. */
    method RunNext(
      backend: CandleBackend, env: Envelope, nonces: nat -> nat, tasks: seq<Task>, i: nat,
      ghost run: StageRunner, ghost results: seq<TaskResult>, ghost whole: LoopEnd)
      returns (res: Result<TaskResult, InferError>)
      requires RunsAs(run, env, nonces) && i < |tasks|
      requires InLoop(backend, run, tasks, i, results, whole)
      modifies backend.Repr()
      ensures fresh(backend.Repr() - old(backend.Repr()))
      ensures if res.Ok? then InLoop(backend, run, tasks, i + 1, results + [res.value], whole)
              else Ended(backend, results, Some(res.error), whole)
    {
      TaskStep(run, backend.View(), tasks, i, results);
      res := RunTask(backend, env, nonces(i), tasks[i]);
    }

    lemma LoopLeaves(
      backend: CandleBackend, run: StageRunner, tasks: seq<Task>, results: seq<TaskResult>, whole: LoopEnd)
      requires InLoop(backend, run, tasks, |tasks|, results, whole)
      ensures Ended(backend, results, None, whole)
    {
      assert results + [] == results;
    }

    /** The loop; `whole` is what it comes to. */
    method RunThrough(
      backend: CandleBackend, env: Envelope, nonces: nat -> nat, tasks: seq<Task>,
      ghost run: StageRunner, ghost whole: LoopEnd)
      returns (results: seq<TaskResult>, error: Option<InferError>)
      requires RunsAs(run, env, nonces) && InLoop(backend, run, tasks, 0, [], whole)
      modifies backend.Repr()
      ensures fresh(backend.Repr() - old(backend.Repr())) && Ended(backend, results, error, whole)
    {
      results := [];
      for i := 0 to |tasks|
        invariant fresh(backend.Repr() - old(backend.Repr()))
        invariant InLoop(backend, run, tasks, i, results, whole)
      {
        ghost var before := backend.Repr();
        var res := RunNext(backend, env, nonces, tasks, i, run, results, whole);
        assert backend.Repr() - old(backend.Repr()) <= (backend.Repr() - before) + (before - old(backend.Repr()));
        if res.Err? {
          return results, Some(res.error);
        }
        results := results + [res.value];
      }
      LoopLeaves(backend, run, tasks, results, whole);
      return results, None;
    }

    /** Serves tasks as they come in, and ends at the first that fails. */
    method RunLoop(backend: CandleBackend, env: Envelope, nonces: nat -> nat, tasks: seq<Task>)
      returns (results: seq<TaskResult>, error: Option<InferError>)
      requires backend.Valid()
      modifies backend.Repr()
      ensures backend.Valid() && fresh(backend.Repr() - old(backend.Repr()))
      ensures LoopEnd(results, error, backend.View())
           == RunTasks(TaskRunner(env, nonces, clusterKey), old(backend.View()), tasks, 0)
    {
      ghost var run := TaskRunner(env, nonces, clusterKey);
      ghost var whole := RunTasks(run, backend.View(), tasks, 0);
      assert [] + whole.results == whole.results;
      results, error := RunThrough(backend, env, nonces, tasks, run, whole);
    }
  }
}
