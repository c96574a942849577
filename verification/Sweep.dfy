/**
 The whole swarm at work: the orchestrator starts a sequence, nodes execute tasks, results come back and the
 next task goes out, until the logits arrive (src/orchestrator.rs, src/pipeline.rs, src/executor.rs).
 */
module Sweep {
  import opened Wrappers
  import opened Transformer
  import opened HandOff
  import opened Backend
  import opened SplitModel
  import opened Registry
  import opened Allocation
  import CacheCoherence
  import Orchestrator
  import Pipeline
  import Reference

  type World = map<Id, Node>

  datatype Outcome = Logits(logits: seq<Word>) | TaskFailed(error: InferError) | Lost

  /** A task as it went out: to which node, for which layers, with which tokens. */
  datatype Hop = Hop(to: Id, start: nat, end: nat, tokens: seq<i32>)

  datatype Swept = Swept(outcome: Outcome, state: Orchestrator.State, world: World, hops: seq<Hop>)

  function StagesLeft(s: Orchestrator.State, taskId: string): nat {
    if taskId in s.pipeline.active then Max(|s.pipeline.stages| - s.pipeline.active[taskId].index, 0) else 0
  }

  lemma ResultUsesStage(s: Orchestrator.State, result: TaskResult)
    ensures var (out, s') := Orchestrator.ResultArrives(s, result);
            out.Some? && out.value.NextStage? ==> StagesLeft(s', result.taskId) < StagesLeft(s, result.taskId)
  {
  }

  /** Delivers a task, executes it, returns the result, and goes on with the task that follows from it. */
  function SweepFrom(s: Orchestrator.State, world: World, run: StageRunner, i: nat, to: Id, task: Task): (r: Swept)
    ensures r.state.nodes == s.nodes && r.state.pipeline.stages == s.pipeline.stages
    ensures r.world.Keys == world.Keys
    decreases StagesLeft(s, task.taskId)
  {
    var hop := Hop(to, task.start, task.end, task.tokens);
    if to !in world then Swept(Lost, s, world, [hop]) else
      var (res, n) := run(i, world[to], task);
      var world' := world[to := n];
      if res.Err? then Swept(TaskFailed(res.error), s, world', [hop])
      else if res.value.taskId != task.taskId then Swept(Lost, s, world', [hop])
      else
        var (out, s') := Orchestrator.ResultArrives(s, res.value);
        ResultUsesStage(s, res.value);
        if out.None? then Swept(Lost, s', world', [hop])
        else if out.value.Finished? then Swept(Logits(out.value.logits), s', world', [hop])
        else
          var rest := SweepFrom(s', world', run, i + 1, out.value.peer, out.value.message.task);
          rest.(hops := [hop] + rest.hops)
  }

  // ---------------------------------------------------------------- an aligned swarm

  /** Stages are distinct registered nodes that own the consecutive slices described by `cuts`. */
  ghost predicate Aligned(s: Orchestrator.State, cuts: seq<nat>) {
    var stages := s.pipeline.stages;
    && stages != [] && |cuts| == |stages| + 1 && cuts[0] == 0
    && Orchestrator.Distinct(stages)
    && (forall i :: 0 <= i < |stages| ==> stages[i] in s.nodes)
    && (forall i, j :: 0 <= i < j < |cuts| ==> cuts[i] < cuts[j])
    && (forall i :: 0 <= i < |stages| ==> s.nodes[stages[i]].assignedLayers == Orchestrator.Range(cuts[i], cuts[i + 1]))
  }

  /** Results name the task and the sequence they answer. */
  ghost predicate Echoes(run: StageRunner) {
    forall i, n, task :: run(i, n, task).0.Ok? ==>
      run(i, n, task).0.value.taskId == task.taskId && run(i, n, task).0.value.seqId == task.seqId
  }

  lemma ExecutorEchoes(env: Envelope, nonces: nat -> nat, key: Key)
    ensures Echoes(TaskRunner(env, nonces, key))
  {
    forall i, n, task | RunTask(env, nonces(i), key, n, task).0.Ok?
      ensures RunTask(env, nonces(i), key, n, task).0.value.taskId == task.taskId
      ensures RunTask(env, nonces(i), key, n, task).0.value.seqId == task.seqId
    {
      RunTaskEchoes(env, nonces(i), key, n, task);
    }
  }

  lemma RunTaskEchoes(env: Envelope, nonce: nat, key: Key, n: Node, task: Task)
    ensures var res := RunTask(env, nonce, key, n, task).0;
            res.Ok? ==> res.value.taskId == task.taskId && res.value.seqId == task.seqId
  {
  }

  function NodesOf(world: World, stages: seq<Id>): (nodes: seq<Node>)
    requires forall i :: 0 <= i < |stages| ==> stages[i] in world
    ensures |nodes| == |stages|
  {
    seq(|stages|, i requires 0 <= i < |stages| => world[stages[i]])
  }

  /** The hops of a complete sweep over the stages: each stage once, in order, for its slice. */
  function HopsOf(stages: seq<Id>, cuts: seq<nat>, tokens: seq<i32>): seq<Hop>
    requires |cuts| == |stages| + 1
  {
    seq(|stages|, i requires 0 <= i < |stages| => Hop(stages[i], cuts[i], cuts[i + 1], tokens))
  }

  /** The task of stage `i` is on its way. */
  predicate OnItsWay(s: Orchestrator.State, cuts: seq<nat>, i: nat, to: Id, task: Task) {
    && i < |s.pipeline.stages| && |cuts| == |s.pipeline.stages| + 1
    && to == s.pipeline.stages[i] && task.start == cuts[i] && task.end == cuts[i + 1]
    && task.taskId in s.pipeline.active
    && s.pipeline.active[task.taskId] == Pipeline.SequenceState(task.seqId, task.taskId, task.tokens, i)
  }

  /** The next task goes to the next stage, for its slice, with the same tokens and what the last stage sealed. */
  lemma NextOnItsWay(s: Orchestrator.State, cuts: seq<nat>, i: nat, to: Id, task: Task, res: TaskResult)
    requires Aligned(s, cuts) && OnItsWay(s, cuts, i, to, task)
    requires res.taskId == task.taskId && res.seqId == task.seqId
    ensures var (out, s') := Orchestrator.ResultArrives(s, res);
            && out.Some?
            && s'.nodes == s.nodes && s'.pipeline.stages == s.pipeline.stages
            && (if i + 1 < |s.pipeline.stages| then
                  && out.value.NextStage?
                  && out.value.message.task == NextTask(task, res, cuts[i + 1], cuts[i + 2])
                  && OnItsWay(s', cuts, i + 1, out.value.peer, out.value.message.task)
                else
                  out.value == Pipeline.Finished(res.logits) && task.taskId !in s'.pipeline.active)
  {
    if i + 1 < |s.pipeline.stages| {
      Orchestrator.RangeSpan(cuts[i + 1], cuts[i + 2]);
    }
  }

  lemma AlignedKept(s: Orchestrator.State, s': Orchestrator.State, cuts: seq<nat>)
    requires Aligned(s, cuts) && s'.nodes == s.nodes && s'.pipeline.stages == s.pipeline.stages
    ensures Aligned(s', cuts)
  {
  }

  /** From stage `i` on the nodes are as listed; all other nodes are as they were. */
  ghost predicate NodesAre(stages: seq<Id>, i: nat, world: World, world': World, nodes: seq<Node>)
    requires i <= |stages|
  {
    && |nodes| == |stages| - i
    && (forall j :: i <= j < |stages| ==> stages[j] in world' && world'[stages[j]] == nodes[j - i])
    && (forall id :: id in world && id !in stages[i..] ==> id in world' && world'[id] == world[id])
  }

  /** A sweep from stage `i` on has ended as the chain of those stages does, and left the nodes as it does. */
  ghost predicate Matches(
    stages: seq<Id>, cuts: seq<nat>, i: nat, world: World, task: Task, r: Swept,
    out: Result<seq<Word>, InferError>, nodes: seq<Node>)
    requires |cuts| == |stages| + 1 && i <= |stages|
  {
    && NodesAre(stages, i, world, r.world, nodes)
    && r.outcome == (if out.Ok? then Logits(out.value) else TaskFailed(out.error))
    && (out.Ok? ==> r.hops == HopsOf(stages[i..], cuts[i..], task.tokens) && task.taskId !in r.state.pipeline.active)
    && r.hops <= HopsOf(stages[i..], cuts[i..], task.tokens)
  }

  /** The sweep from stage `i` agrees with the chain of the stages from `i` on. */
  ghost predicate SweepAgrees(
    s: Orchestrator.State, world: World, run: StageRunner, cuts: seq<nat>, i: nat, to: Id, task: Task)
    requires |cuts| == |s.pipeline.stages| + 1 && i < |s.pipeline.stages|
    requires forall j :: 0 <= j < |s.pipeline.stages| ==> s.pipeline.stages[j] in world
  {
    var chain := Chain(run, i, NodesOf(world, s.pipeline.stages[i..]), cuts[i..], task);
    Matches(s.pipeline.stages, cuts, i, world, task, SweepFrom(s, world, run, i, to, task), chain.0, chain.1)
  }

  lemma NodesAfter(world: World, n: Node, stages: seq<Id>, i: nat)
    requires Orchestrator.Distinct(stages) && i < |stages|
    requires forall j :: 0 <= j < |stages| ==> stages[j] in world
    ensures NodesOf(world, stages[i..])[0] == world[stages[i]]
    ensures NodesOf(world[stages[i] := n], stages[i + 1..]) == NodesOf(world, stages[i..])[1..]
  {
    var (later, nodes, nodes') :=
      (stages[i + 1..], NodesOf(world, stages[i..]), NodesOf(world[stages[i] := n], stages[i + 1..]));
    forall j | 0 <= j < |later|
      ensures nodes'[j] == nodes[1..][j]
    {
      assert later[j] == stages[i + 1 + j] != stages[i];
    }
  }

  lemma HopsSplit(stages: seq<Id>, cuts: seq<nat>, tokens: seq<i32>, i: nat)
    requires |cuts| == |stages| + 1 && i < |stages|
    ensures HopsOf(stages[i..], cuts[i..], tokens)
         == [Hop(stages[i], cuts[i], cuts[i + 1], tokens)] + HopsOf(stages[i + 1..], cuts[i + 1..], tokens)
  {
  }

  /** The stage that a sweep stops at: its node is new, the later ones are as they were. */
  lemma NodesStopped(stages: seq<Id>, i: nat, world: World, n: Node)
    requires i < |stages| && Orchestrator.Distinct(stages)
    requires forall j :: 0 <= j < |stages| ==> stages[j] in world
    ensures NodesAre(stages, i, world, world[stages[i] := n], [n] + NodesOf(world, stages[i..])[1..])
  {
    assert stages[i..][0] == stages[i];
    forall j | i < j < |stages|
      ensures world[stages[i] := n][stages[j]] == ([n] + NodesOf(world, stages[i..])[1..])[j - i]
    {
      assert stages[j] != stages[i];
      assert stages[i..][j - i] == stages[j];
    }
  }

  lemma SweepStops(s: Orchestrator.State, world: World, run: StageRunner, cuts: seq<nat>, i: nat, to: Id, task: Task)
    requires Aligned(s, cuts) && OnItsWay(s, cuts, i, to, task) && Echoes(run)
    requires forall j :: 0 <= j < |s.pipeline.stages| ==> s.pipeline.stages[j] in world
    requires run(i, world[to], task).0.Err? || i + 1 == |s.pipeline.stages|
    ensures SweepAgrees(s, world, run, cuts, i, to, task)
  {
    var stages := s.pipeline.stages;
    var (res, n) := run(i, world[to], task);
    NodesStopped(stages, i, world, n);
    NodesAfter(world, n, stages, i);
    HopsSplit(stages, cuts, task.tokens, i);
    if res.Ok? {
      NextOnItsWay(s, cuts, i, to, task, res.value);
      assert [n] + NodesOf(world, stages[i..])[1..] == [n];
    }
  }

  lemma SweepGoesOn(s: Orchestrator.State, world: World, run: StageRunner, cuts: seq<nat>, i: nat, to: Id, task: Task)
    returns (s': Orchestrator.State, n: Node, to': Id, task': Task)
    requires Aligned(s, cuts) && OnItsWay(s, cuts, i, to, task) && Echoes(run)
    requires forall j :: 0 <= j < |s.pipeline.stages| ==> s.pipeline.stages[j] in world
    requires run(i, world[to], task).0.Ok? && i + 1 < |s.pipeline.stages|
    ensures s'.nodes == s.nodes && s'.pipeline.stages == s.pipeline.stages
    ensures n == run(i, world[to], task).1
    ensures task' == NextTask(task, run(i, world[to], task).0.value, cuts[i + 1], cuts[i + 2])
    ensures OnItsWay(s', cuts, i + 1, to', task')
    ensures var (r, rest) :=
              (SweepFrom(s, world, run, i, to, task), SweepFrom(s', world[to := n], run, i + 1, to', task'));
            r == rest.(hops := [Hop(to, task.start, task.end, task.tokens)] + rest.hops)
  {
    var res := run(i, world[to], task).0.value;
    n := run(i, world[to], task).1;
    NextOnItsWay(s, cuts, i, to, task, res);
    var (out, s1) := Orchestrator.ResultArrives(s, res);
    s', to', task' := s1, out.value.peer, out.value.message.task;
  }

  lemma ChainGoesOn(run: StageRunner, i: nat, nodes: seq<Node>, cuts: seq<nat>, task: Task)
    requires |cuts| == |nodes| + 1 && |nodes| > 1 && run(i, nodes[0], task).0.Ok?
    ensures var next := NextTask(task, run(i, nodes[0], task).0.value, cuts[1], cuts[2]);
            var rest := Chain(run, i + 1, nodes[1..], cuts[1..], next);
            Chain(run, i, nodes, cuts, task) == (rest.0, [run(i, nodes[0], task).1] + rest.1)
  {
  }

  /**
   Whatever stage a task has reached, the sweep of an aligned swarm visits the remaining stages in order, each
   for exactly its slice and with the task's own tokens, and ends as the chain of those stages does.
   */
  lemma {:induction false} SweepIsChain(
    s: Orchestrator.State, world: World, run: StageRunner, cuts: seq<nat>, i: nat, to: Id, task: Task)
    requires Aligned(s, cuts) && OnItsWay(s, cuts, i, to, task) && Echoes(run)
    requires forall j :: 0 <= j < |s.pipeline.stages| ==> s.pipeline.stages[j] in world
    ensures SweepAgrees(s, world, run, cuts, i, to, task)
    decreases |s.pipeline.stages| - i
  {
    if run(i, world[to], task).0.Err? || i + 1 == |s.pipeline.stages| {
      SweepStops(s, world, run, cuts, i, to, task);
    } else {
      var s', n, to', task' := SweepGoesOn(s, world, run, cuts, i, to, task);
      AlignedKept(s, s', cuts);
      SweepIsChain(s', world[to := n], run, cuts, i + 1, to', task');
      SweepCombines(s, world, run, cuts, i, to, task, s', n, to', task');
    }
  }

  lemma NodesOneMore(stages: seq<Id>, i: nat, world: World, n: Node, world': World, nodes: seq<Node>)
    requires i < |stages| && Orchestrator.Distinct(stages) && stages[i] in world
    requires NodesAre(stages, i + 1, world[stages[i] := n], world', nodes)
    ensures NodesAre(stages, i, world, world', [n] + nodes)
  {
    assert stages[i..] == [stages[i]] + stages[i + 1..];
    assert stages[i] !in stages[i + 1..];
    var world1 := world[stages[i] := n];
    assert world'[stages[i]] == world1[stages[i]] == n;
    forall j | i < j < |stages|
      ensures stages[j] in world' && world'[stages[j]] == ([n] + nodes)[j - i]
    {
      assert ([n] + nodes)[j - i] == nodes[j - (i + 1)];
    }
  }

  /** One more stage in front of a matching rest. */
  lemma MatchesOneMore(
    stages: seq<Id>, cuts: seq<nat>, i: nat, world: World, task: Task, task': Task, rest: Swept,
    out: Result<seq<Word>, InferError>, n: Node, nodes: seq<Node>)
    requires |cuts| == |stages| + 1 && i < |stages| && Orchestrator.Distinct(stages) && stages[i] in world
    requires task'.tokens == task.tokens && task'.taskId == task.taskId
    requires task.start == cuts[i] && task.end == cuts[i + 1]
    requires Matches(stages, cuts, i + 1, world[stages[i] := n], task', rest, out, nodes)
    ensures Matches(stages, cuts, i, world, task,
                    rest.(hops := [Hop(stages[i], task.start, task.end, task.tokens)] + rest.hops), out, [n] + nodes)
  {
    NodesOneMore(stages, i, world, n, rest.world, nodes);
    HopsSplit(stages, cuts, task.tokens, i);
  }

  lemma SweepCombines(
    s: Orchestrator.State, world: World, run: StageRunner, cuts: seq<nat>, i: nat, to: Id, task: Task,
    s': Orchestrator.State, n: Node, to': Id, task': Task)
    requires Aligned(s, cuts) && OnItsWay(s, cuts, i, to, task) && i + 1 < |s.pipeline.stages|
    requires forall j :: 0 <= j < |s.pipeline.stages| ==> s.pipeline.stages[j] in world
    requires run(i, world[to], task).0.Ok? && n == run(i, world[to], task).1
    requires task' == NextTask(task, run(i, world[to], task).0.value, cuts[i + 1], cuts[i + 2])
    requires task'.taskId == task.taskId
    requires s'.pipeline.stages == s.pipeline.stages
    requires var rest := SweepFrom(s', world[to := n], run, i + 1, to', task');
             SweepFrom(s, world, run, i, to, task)
             == rest.(hops := [Hop(to, task.start, task.end, task.tokens)] + rest.hops)
    requires SweepAgrees(s', world[to := n], run, cuts, i + 1, to', task')
    ensures SweepAgrees(s, world, run, cuts, i, to, task)
  {
    var stages := s.pipeline.stages;
    NodesAfter(world, n, stages, i);
    ChainGoesOn(run, i, NodesOf(world, stages[i..]), cuts[i..], task);
    assert cuts[i..][1..] == cuts[i + 1..];
    var rest := SweepFrom(s', world[to := n], run, i + 1, to', task');
    var chain := Chain(run, i + 1, NodesOf(world[to := n], stages[i + 1..]), cuts[i + 1..], task');
    MatchesOneMore(stages, cuts, i, world, task, task', rest, chain.0, n, chain.1);
  }

  // ---------------------------------------------------------------- from the registry to an aligned swarm

  /** Where the slices of an order begin and end. */
  function CutsOf(nodes: Nodes, order: seq<Id>): (cuts: seq<nat>)
    requires forall id :: id in order ==> id in nodes
    ensures |cuts| == |order| + 1
  {
    seq(|order| + 1, i requires 0 <= i <= |order| => |Orchestrator.LayersOf(nodes, order[..i])|)
  }

  lemma {:induction false} LayersPrefix(nodes: Nodes, order: seq<Id>, i: nat)
    requires i <= |order| && forall id :: id in order ==> id in nodes
    ensures Orchestrator.LayersOf(nodes, order[..i]) <= Orchestrator.LayersOf(nodes, order)
  {
    if i < |order| {
      var front := order[..|order| - 1];
      LayersPrefix(nodes, front, i);
      assert front[..i] == order[..i];
    } else {
      assert order[..i] == order;
    }
  }

  /** When the layers of an order tile the model, each node's layers are the range between two boundaries. */
  lemma TilingSlices(nodes: Nodes, order: seq<Id>, total: nat, i: nat)
    requires i < |order| && forall id :: id in order ==> id in nodes
    requires Orchestrator.LayersOf(nodes, order) == Orchestrator.Range(0, total)
    ensures var cuts := CutsOf(nodes, order);
            && nodes[order[i]].assignedLayers == Orchestrator.Range(cuts[i], cuts[i + 1])
            && cuts[i + 1] == cuts[i] + |nodes[order[i]].assignedLayers|
  {
    LayersPrefix(nodes, order, i + 1);
    assert order[..i + 1] == order[..i] + [order[i]];
    Orchestrator.LayersSnoc(nodes, order[..i], order[i]);
    var (before, mine) := (Orchestrator.LayersOf(nodes, order[..i]), nodes[order[i]].assignedLayers);
    RangeMiddle(before, mine, total);
  }

  lemma RangeMiddle(before: seq<nat>, mine: seq<nat>, total: nat)
    requires before + mine <= Orchestrator.Range(0, total)
    ensures mine == Orchestrator.Range(|before|, |before| + |mine|)
  {
    forall k | 0 <= k < |mine|
      ensures mine[k] == |before| + k
    {
      assert mine[k] == (before + mine)[|before| + k] == Orchestrator.Range(0, total)[|before| + k];
    }
  }

  lemma {:induction false} CutsIncrease(nodes: Nodes, order: seq<Id>, total: nat, i: nat, j: nat)
    requires i < j <= |order| && forall id :: id in order ==> id in nodes
    requires Orchestrator.LayersOf(nodes, order) == Orchestrator.Range(0, total)
    requires forall k :: 0 <= k < |order| ==> nodes[order[k]].assignedLayers != []
    ensures CutsOf(nodes, order)[i] < CutsOf(nodes, order)[j]
  {
    TilingSlices(nodes, order, total, j - 1);
    if i < j - 1 {
      CutsIncrease(nodes, order, total, i, j - 1);
    }
  }

  /** Distinct registered stages that each hold some layer, and together tile the model, are aligned. */
  lemma TilingAligns(s: Orchestrator.State, total: nat)
    requires s.pipeline.stages != [] && Orchestrator.Distinct(s.pipeline.stages)
    requires forall id :: id in s.pipeline.stages ==> id in s.nodes
    requires Orchestrator.LayersOf(s.nodes, s.pipeline.stages) == Orchestrator.Range(0, total)
    requires forall id :: id in s.pipeline.stages ==> s.nodes[id].assignedLayers != []
    ensures Aligned(s, CutsOf(s.nodes, s.pipeline.stages))
    ensures CutsTo(CutsOf(s.nodes, s.pipeline.stages), total)
  {
    var stages := s.pipeline.stages;
    var cuts := CutsOf(s.nodes, stages);
    forall i, j | 0 <= i < j < |cuts|
      ensures cuts[i] < cuts[j]
    {
      CutsIncrease(s.nodes, stages, total, i, j);
    }
    forall i | 0 <= i < |stages|
      ensures s.nodes[stages[i]].assignedLayers == Orchestrator.Range(cuts[i], cuts[i + 1])
    {
      TilingSlices(s.nodes, stages, total, i);
    }
    assert stages[..|stages|] == stages && stages[..0] == [];
  }

  predicate AsksForSlice(nodes: Nodes, order: seq<Id>, i: nat)
    requires i < |order| && forall id :: id in order ==> id in nodes
  {
    var cuts := CutsOf(nodes, order);
    Orchestrator.SpanOf(nodes[order[i]].assignedLayers) == (cuts[i], cuts[i + 1])
  }

  /**
   The range that a task asks of a node is the slice the node owns exactly when the node holds some layer; a
   node without layers is asked for layer zero.
   */
  lemma SpanIsSlice(nodes: Nodes, order: seq<Id>, total: nat, i: nat)
    requires i < |order| && forall id :: id in order ==> id in nodes
    requires Orchestrator.LayersOf(nodes, order) == Orchestrator.Range(0, total)
    ensures AsksForSlice(nodes, order, i) <==> nodes[order[i]].assignedLayers != []
    ensures nodes[order[i]].assignedLayers == [] ==> Orchestrator.SpanOf(nodes[order[i]].assignedLayers) == (0, 1)
  {
    TilingSlices(nodes, order, total, i);
    var cuts := CutsOf(nodes, order);
    if cuts[i] < cuts[i + 1] {
      Orchestrator.RangeSpan(cuts[i], cuts[i + 1]);
    }
  }

  // ---------------------------------------------------------------- starting

  /** The node that ranks first now is a peer and the first stage. */
  ghost predicate HeadIsFirstStage(cfg: Orchestrator.Config, s: Orchestrator.State) {
    s.pipeline.stages != [] && Order(s.nodes) != [] && Order(s.nodes)[0] == s.pipeline.stages[0]
    && cfg.isPeer(Order(s.nodes)[0])
  }

  /**
   A started sequence goes to the first stage, for that stage's slice, exactly when the node that ranks first
   at that moment is still the first stage of the last rebalance.
   */
  lemma StartsAtFirstStage(
    cfg: Orchestrator.Config, env: Envelope, nonce: nat, key: Key, s: Orchestrator.State, cuts: seq<nat>,
    taskId: string, call: CacheCoherence.Call, initial: seq<byte>)
    requires Aligned(s, cuts)
    ensures var (r, s') := Orchestrator.StartRequest(cfg, env, nonce, key, s, call.pos, taskId, call.tokens, initial);
            && s'.nodes == s.nodes && s'.pipeline.stages == s.pipeline.stages
            && (r.Ok? && r.value.Some? && OnItsWay(s', cuts, 0, r.value.value.0, r.value.value.1.task)
                <==> HeadIsFirstStage(cfg, s))
            && (HeadIsFirstStage(cfg, s) ==>
                  r.value.value.1.task
                  == Task(taskId, call.pos, Wrap(env, nonce, key, taskId, initial), cuts[0], cuts[1], call.tokens))
  {
    Orchestrator.RangeSpan(cuts[0], cuts[1]);
  }

  /** Right after a rebalance the head of the order is the first stage, if it is a peer. */
  lemma HeadAfterRebalance(cfg: Orchestrator.Config, s: Orchestrator.State)
    requires Order(s.nodes) != [] && forall id :: id in Order(s.nodes) ==> cfg.isPeer(id)
    ensures HeadIsFirstStage(cfg, Orchestrator.Rebalance(cfg, s))
  {
    Orchestrator.OrderAfterRebalance(cfg, s);
    Orchestrator.RebalanceTiles(cfg, s);
    Orchestrator.PeersWithin(cfg, Order(s.nodes));
  }

  // ---------------------------------------------------------------- end to end

  /** A client's request: the identity, the initial state, and the call. */
  datatype ClientRequest = ClientRequest(taskId: string, initial: seq<byte>, call: CacheCoherence.Call)

  /** Starts a request and sweeps it through the swarm. */
  ghost function Serve(
    cfg: Orchestrator.Config, env: Envelope, nonce: nat, key: Key, s: Orchestrator.State, world: World,
    run: StageRunner, req: ClientRequest): (r: Swept)
    ensures r.state.nodes == s.nodes && r.state.pipeline.stages == s.pipeline.stages
    ensures r.world.Keys == world.Keys
  {
    var (started, s') :=
      Orchestrator.StartRequest(cfg, env, nonce, key, s, req.call.pos, req.taskId, req.call.tokens, req.initial);
    if started.Ok? && started.value.Some? then
      SweepFrom(s', world, run, 0, started.value.value.0, started.value.value.1.task)
    else Swept(Lost, s', world, [])
  }

  /** The initial state is empty, or the encoding of some tensor, and fits the wire. */
  predicate InitialFits(initial: seq<byte>) {
    initial == [] ||
    (|initial| <= DECOMPRESS_CAP && Decode(initial).Ok? && TensorValid(Decode(initial).value))
  }

  /** The request as the first stage receives it. */
  function Sealed(env: Envelope, nonce: nat, key: Key, req: ClientRequest): Request {
    Request(req.taskId, Wrap(env, nonce, key, req.taskId, req.initial), req.call)
  }

  /** What a request offers the swarm: its call, and whether its initial state can be received. */
  function Offered(req: ClientRequest): Offer {
    Offer(InitialFits(req.initial), req.call)
  }

  /** The first stage can receive the sealed initial state exactly if it is empty or fits and decodes. */
  lemma SealedOffers(env: Envelope, nonce: nat, key: Key, req: ClientRequest)
    requires Ideal(env)
    ensures OfferOf(env, key, Sealed(env, nonce, key, req)) == Offered(req)
  {
    var compressed := env.compress(req.initial);
    assert env.open(key, req.taskId, env.seal(nonce, key, req.taskId, compressed)) == Some(compressed);
    assert env.decompress(compressed) == if |req.initial| <= DECOMPRESS_CAP then Some(req.initial) else None;
  }

  /** Every stage has a node in the world that can serve slices of `m`. */
  ghost predicate Staffed(world: World, stages: seq<Id>, m: Weights) {
    forall i :: 0 <= i < |stages| ==> stages[i] in world && Ready(world[stages[i]], m)
  }

  /** An aligned and staffed swarm for the model, whose head is its first stage. */
  ghost predicate InService(cfg: Orchestrator.Config, s: Orchestrator.State, world: World, m: Weights, cuts: seq<nat>) {
    Aligned(s, cuts) && CutsTo(cuts, |m.layers|) && Staffed(world, s.pipeline.stages, m) && HeadIsFirstStage(cfg, s)
  }

  lemma StagesAreSwarm(cfg: Orchestrator.Config, s: Orchestrator.State, world: World, m: Weights, cuts: seq<nat>)
    requires InService(cfg, s, world, m, cuts)
    ensures WholeSwarm(NodesOf(world, s.pipeline.stages), m, cuts)
  {
  }

  /** Serving is the chain of the stages' nodes, started with the sealed request. */
  lemma ServeIsChain(
    cfg: Orchestrator.Config, env: Envelope, nonce: nat, key: Key, s: Orchestrator.State, world: World,
    run: StageRunner, req: ClientRequest, m: Weights, cuts: seq<nat>)
    requires InService(cfg, s, world, m, cuts) && Echoes(run)
    ensures var stages := s.pipeline.stages;
            var r := Serve(cfg, env, nonce, key, s, world, run, req);
            var chain := Chain(run, 0, NodesOf(world, stages), cuts, EntryTask(Sealed(env, nonce, key, req), cuts));
            && r.outcome == (if chain.0.Ok? then Logits(chain.0.value) else TaskFailed(chain.0.error))
            && (forall i :: 0 <= i < |stages| ==> stages[i] in r.world)
            && NodesOf(r.world, stages) == chain.1
            && (chain.0.Ok? ==> r.hops == HopsOf(stages, cuts, req.call.tokens))
            && r.hops <= HopsOf(stages, cuts, req.call.tokens)
  {
    var stages := s.pipeline.stages;
    StartsAtFirstStage(cfg, env, nonce, key, s, cuts, req.taskId, req.call, req.initial);
    var (started, s') :=
      Orchestrator.StartRequest(cfg, env, nonce, key, s, req.call.pos, req.taskId, req.call.tokens, req.initial);
    var (to, task) := (started.value.value.0, started.value.value.1.task);
    AlignedKept(s, s', cuts);
    SweepIsChain(s', world, run, cuts, 0, to, task);
    assert stages[0..] == stages && cuts[0..] == cuts;
    assert task == EntryTask(Sealed(env, nonce, key, req), cuts);
  }

  /** What serving a request gives: the outcome and the caches `r` of the split model, and a swarm still in service. */
  ghost predicate ServedAs(
    cfg: Orchestrator.Config, stages: seq<Id>, m: Weights, cuts: seq<nat>, swept: Swept,
    r: (Result<seq<Word>, InferError>, seq<Cache>))
  {
    && swept.state.pipeline.stages == stages && InService(cfg, swept.state, swept.world, m, cuts)
    && swept.outcome == (if r.0.Ok? then Logits(r.0.value) else TaskFailed(r.0.error))
    && AllCaches(NodesOf(swept.world, stages), cuts) == r.1
  }

  /**
   End to end: a request served by the swarm, from the orchestrator's first message to its last, gives the answer
   of the split model, and leaves the nodes with its caches. Logits come back if and only if the undivided model
   answers the call, the initial state can be received, and the hidden states get from stage to stage; then the
   tasks that went out cover the model's layers in order, each at the node that owns them and with the client's
   tokens. When the request gets through, errors and caches are the undivided model's as well.
   */
  lemma ServeIsWhole(
    cfg: Orchestrator.Config, env: Envelope, nonce: nat, key: Key, s: Orchestrator.State, world: World,
    run: StageRunner, req: ClientRequest, m: Weights, cuts: seq<nat>, d: nat)
    requires InService(cfg, s, world, m, cuts) && Echoes(run) && Ideal(env) && RunnerMeets(run, env, key, m, d)
    requires EmbedsTo(m, d) && req.call.tokens != []
    ensures var stages := s.pipeline.stages;
            var caches := AllCaches(NodesOf(world, stages), cuts);
            var r := Serve(cfg, env, nonce, key, s, world, run, req);
            && Slicing(cuts, m) && |caches| == |m.layers| && CachesValid(caches)
            && var whole := Forward(m, caches, req.call.tokens, req.call.pos);
               && ServedAs(cfg, stages, m, cuts, r, SplitCall(m, cuts, d, caches, Offered(req)))
               && (r.outcome.Logits? <==> Delivered(cuts, d, Offered(req)) && whole.0.Ok?)
               && (r.outcome.Logits? ==> r.hops == HopsOf(stages, cuts, req.call.tokens))
               && (Delivered(cuts, d, Offered(req)) ==> ServedAs(cfg, stages, m, cuts, r, whole))
  {
    StagesAreSwarm(cfg, s, world, m, cuts);
    SealedOffers(env, nonce, key, req);
    SplitIsWhole(run, env, key, m, NodesOf(world, s.pipeline.stages), cuts, Sealed(env, nonce, key, req), d);
    ServeIsChain(cfg, env, nonce, key, s, world, run, req, m, cuts);
    ServiceKept(cfg, s, world, m, cuts, Serve(cfg, env, nonce, key, s, world, run, req));
  }

  lemma ServiceKept(
    cfg: Orchestrator.Config, s: Orchestrator.State, world: World, m: Weights, cuts: seq<nat>, r: Swept)
    requires InService(cfg, s, world, m, cuts)
    requires r.state.nodes == s.nodes && r.state.pipeline.stages == s.pipeline.stages
    requires forall i :: 0 <= i < |s.pipeline.stages| ==> s.pipeline.stages[i] in r.world
    requires WholeSwarm(NodesOf(r.world, s.pipeline.stages), m, cuts)
    ensures InService(cfg, r.state, r.world, m, cuts)
  {
    forall i | 0 <= i < |s.pipeline.stages|
      ensures Ready(r.world[s.pipeline.stages[i]], m)
    {
      assert NodesOf(r.world, s.pipeline.stages)[i] == r.world[s.pipeline.stages[i]];
    }
  }

  // ---------------------------------------------------------------- whole generations

  /** The swarm after serving requests one after another; the k-th is executed by `runs(k)`. */
  ghost function ServeAll(
    cfg: Orchestrator.Config, env: Envelope, nonces: nat -> nat, key: Key, s: Orchestrator.State, world: World,
    runs: nat -> StageRunner, reqs: seq<ClientRequest>): (Orchestrator.State, World)
  {
    if reqs == [] then (s, world) else
      var last := |reqs| - 1;
      var (s1, world1) := ServeAll(cfg, env, nonces, key, s, world, runs, reqs[..last]);
      var r := Serve(cfg, env, nonces(last), key, s1, world1, runs(last), reqs[last]);
      (r.state, r.world)
  }

  function SealedAll(env: Envelope, nonces: nat -> nat, key: Key, reqs: seq<ClientRequest>): (sealed: seq<Request>)
    ensures |sealed| == |reqs|
  {
    seq(|reqs|, i requires 0 <= i < |reqs| => Sealed(env, nonces(i), key, reqs[i]))
  }

  /** Executors that meet their duty in every round. */
  ghost predicate Dutiful(runs: nat -> StageRunner, env: Envelope, key: Key, m: Weights, d: nat) {
    forall k: nat :: RunnerMeets(runs(k), env, key, m, d) && Echoes(runs(k))
  }

  function OfferedAll(reqs: seq<ClientRequest>): (offers: seq<Offer>)
    ensures |offers| == |reqs|
  {
    seq(|reqs|, i requires 0 <= i < |reqs| => Offered(reqs[i]))
  }

  lemma AskSplits(reqs: seq<ClientRequest>)
    requires reqs != [] && AllAsk(OfferedAll(reqs))
    ensures AllAsk(OfferedAll(reqs[..|reqs| - 1])) && reqs[|reqs| - 1].call.tokens != []
  {
    var last := |reqs| - 1;
    assert OfferedAll(reqs)[..last] == OfferedAll(reqs[..last]) && OfferedAll(reqs)[last] == Offered(reqs[last]);
  }

  lemma SealedAllOffer(env: Envelope, nonces: nat -> nat, key: Key, reqs: seq<ClientRequest>)
    requires Ideal(env)
    ensures OffersOf(env, key, SealedAll(env, nonces, key, reqs)) == OfferedAll(reqs)
  {
    var offers := OffersOf(env, key, SealedAll(env, nonces, key, reqs));
    forall i | 0 <= i < |reqs|
      ensures offers[i] == OfferedAll(reqs)[i]
    {
      SealedOffers(env, nonces(i), key, reqs[i]);
    }
  }

  lemma ServeStep(
    cfg: Orchestrator.Config, env: Envelope, nonce: nat, key: Key, s: Orchestrator.State, world: World,
    run: StageRunner, req: ClientRequest, m: Weights, cuts: seq<nat>, d: nat)
    requires InService(cfg, s, world, m, cuts) && Echoes(run) && Ideal(env) && RunnerMeets(run, env, key, m, d)
    requires EmbedsTo(m, d) && req.call.tokens != []
    ensures var r := Serve(cfg, env, nonce, key, s, world, run, req);
            && InService(cfg, r.state, r.world, m, cuts)
            && NodesOf(r.world, s.pipeline.stages)
            == Chain(run, 0, NodesOf(world, s.pipeline.stages), cuts, EntryTask(Sealed(env, nonce, key, req), cuts)).1
  {
    ServeIsWhole(cfg, env, nonce, key, s, world, run, req, m, cuts, d);
    ServeIsChain(cfg, env, nonce, key, s, world, run, req, m, cuts);
  }

  /** The swarm is in service, with the nodes of its stages as given. */
  ghost predicate ServingWith(
    cfg: Orchestrator.Config, s: Orchestrator.State, world: World, m: Weights, cuts: seq<nat>, stages: seq<Id>,
    nodes: seq<Node>)
  {
    s.pipeline.stages == stages && InService(cfg, s, world, m, cuts) && NodesOf(world, stages) == nodes
  }

  lemma ServeAllSnoc(
    cfg: Orchestrator.Config, env: Envelope, nonces: nat -> nat, key: Key, s: Orchestrator.State, world: World,
    runs: nat -> StageRunner, reqs: seq<ClientRequest>)
    requires reqs != []
    ensures var last := |reqs| - 1;
            var (s1, world1) := ServeAll(cfg, env, nonces, key, s, world, runs, reqs[..last]);
            var r := Serve(cfg, env, nonces(last), key, s1, world1, runs(last), reqs[last]);
            ServeAll(cfg, env, nonces, key, s, world, runs, reqs) == (r.state, r.world)
  {
  }

  lemma RunRequestsSnoc(
    env: Envelope, nonces: nat -> nat, key: Key, runs: nat -> StageRunner, nodes: seq<Node>, cuts: seq<nat>,
    reqs: seq<ClientRequest>)
    requires reqs != [] && |cuts| == |nodes| + 1 >= 2
    ensures var last := |reqs| - 1;
            RunRequests(runs, nodes, cuts, SealedAll(env, nonces, key, reqs))
            == Chain(runs(last), 0, RunRequests(runs, nodes, cuts, SealedAll(env, nonces, key, reqs[..last])), cuts,
                     EntryTask(Sealed(env, nonces(last), key, reqs[last]), cuts)).1
  {
    assert SealedAll(env, nonces, key, reqs)[..|reqs| - 1] == SealedAll(env, nonces, key, reqs[..|reqs| - 1]);
  }

  /** Serving a run of requests keeps the swarm in service and takes its nodes through the run of the split model. */
  lemma {:induction false} ServeAllIsRun(
    cfg: Orchestrator.Config, env: Envelope, nonces: nat -> nat, key: Key, s: Orchestrator.State, world: World,
    runs: nat -> StageRunner, reqs: seq<ClientRequest>, m: Weights, cuts: seq<nat>, d: nat)
    requires InService(cfg, s, world, m, cuts) && Ideal(env) && Dutiful(runs, env, key, m, d)
    requires EmbedsTo(m, d) && AllAsk(OfferedAll(reqs))
    ensures var (s', world') := ServeAll(cfg, env, nonces, key, s, world, runs, reqs);
            ServingWith(cfg, s', world', m, cuts, s.pipeline.stages,
              RunRequests(runs, NodesOf(world, s.pipeline.stages), cuts, SealedAll(env, nonces, key, reqs)))
  {
    if reqs != [] {
      var last := |reqs| - 1;
      AskSplits(reqs);
      ServeAllIsRun(cfg, env, nonces, key, s, world, runs, reqs[..last], m, cuts, d);
      var (s1, world1) := ServeAll(cfg, env, nonces, key, s, world, runs, reqs[..last]);
      ServeStep(cfg, env, nonces(last), key, s1, world1, runs(last), reqs[last], m, cuts, d);
      ServeAllSnoc(cfg, env, nonces, key, s, world, runs, reqs);
      RunRequestsSnoc(env, nonces, key, runs, NodesOf(world, s.pipeline.stages), cuts, reqs);
    }
  }

  /**
   A generation on the swarm: after any run of requests that restart or append one token, received or not,
   delivered or lost, the next request is answered with logits exactly when the undivided model can serve its call
   and it gets through, and they are the logits of one causally masked pass of the undivided model over the whole
   prefix, which are those written out from the weights in `Reference`.
   */
  lemma SwarmGenerates(
    cfg: Orchestrator.Config, env: Envelope, nonces: nat -> nat, key: Key, s: Orchestrator.State, world: World,
    runs: nat -> StageRunner, reqs: seq<ClientRequest>, req: ClientRequest, m: Weights, cuts: seq<nat>, d: nat)
    requires InService(cfg, s, world, m, cuts) && Ideal(env) && Dutiful(runs, env, key, m, d)
    requires EmbedsTo(m, d) && CacheCoherence.LayersLawful(m.layers)
    requires WellFormedOffers(m, cuts, d, OfferedAll(reqs) + [Offered(req)])
    ensures var (s', world') := ServeAll(cfg, env, nonces, key, s, world, runs, reqs);
            var r := Serve(cfg, env, nonces(|reqs|), key, s', world', runs(|reqs|), req);
            var prefix := SplitContextOf(m, cuts, d, OfferedAll(reqs) + [Offered(req)]);
            && (r.outcome.Logits? <==> Delivered(cuts, d, Offered(req)) && CacheCoherence.Servable(m, req.call))
            && (r.outcome.Logits? ==>
                  && CacheCoherence.Recompute(m, prefix) == Ok(r.outcome.logits)
                  && prefix != [] && r.outcome.logits == Reference.Logits(m, prefix)
                  && r.hops == HopsOf(s.pipeline.stages, cuts, req.call.tokens))
  {
    var (s', world') := ServeAll(cfg, env, nonces, key, s, world, runs, reqs);
    LastFollows(m, cuts, d, OfferedAll(reqs), Offered(req));
    FollowersAsk(m, cuts, d, OfferedAll(reqs));
    ServeAllIsRun(cfg, env, nonces, key, s, world, runs, reqs, m, cuts, d);
    ServeIsChain(cfg, env, nonces(|reqs|), key, s', world', runs(|reqs|), req, m, cuts);
    StagesAreSwarm(cfg, s, world, m, cuts);
    SealedAllOffer(env, nonces, key, reqs);
    SealedOffers(env, nonces(|reqs|), key, req);
    SplitRunIsRecomputation(runs, env, key, m, NodesOf(world, s.pipeline.stages), cuts,
                            SealedAll(env, nonces, key, reqs), Sealed(env, nonces(|reqs|), key, req), d);
    if Serve(cfg, env, nonces(|reqs|), key, s', world', runs(|reqs|), req).outcome.Logits? {
      Reference.AnsweredIsReference(m, SplitContextOf(m, cuts, d, OfferedAll(reqs) + [Offered(req)]));
    }
  }

  /** Distinct stages that tile the model make a swarm in service exactly when the head leads and each holds a layer. */
  lemma TilingInService(
    cfg: Orchestrator.Config, s: Orchestrator.State, world: World, m: Weights)
    requires Orchestrator.Distinct(s.pipeline.stages) && s.pipeline.stages != []
    requires forall id :: id in s.pipeline.stages ==> id in s.nodes
    requires Orchestrator.LayersOf(s.nodes, s.pipeline.stages) == Orchestrator.Range(0, |m.layers|)
    requires Staffed(world, s.pipeline.stages, m)
    ensures InService(cfg, s, world, m, CutsOf(s.nodes, s.pipeline.stages))
       <==> HeadIsFirstStage(cfg, s) && forall id :: id in s.pipeline.stages ==> s.nodes[id].assignedLayers != []
  {
    var (stages, cuts) := (s.pipeline.stages, CutsOf(s.nodes, s.pipeline.stages));
    if forall id :: id in stages ==> s.nodes[id].assignedLayers != [] {
      TilingAligns(s, |m.layers|);
    } else {
      var id :| id in stages && s.nodes[id].assignedLayers == [];
      var i :| 0 <= i < |stages| && stages[i] == id;
      TilingSlices(s.nodes, stages, |m.layers|, i);
      assert cuts[i + 1] == cuts[i];
    }
  }

  /**
   When a swarm is in service. After any run of orchestrator operations in which all registered ids are peer
   ids and the stages' nodes have access to the model, it is exactly when the head of the order is still the
   first stage, and the scores of the last rebalance left no node without layers.
   */
  lemma RunIsInService(cfg: Orchestrator.Config, ops: seq<Orchestrator.Op>, world: World, m: Weights)
    requires var s := Orchestrator.Run(cfg, ops);
             && s.nodes != map[] && (forall id :: id in s.nodes ==> cfg.isPeer(id))
             && Staffed(world, s.pipeline.stages, m) && cfg.total == |m.layers|
    ensures var s := Orchestrator.Run(cfg, ops);
            && s.pipeline.stages == Orchestrator.LastOrder(cfg, ops)
            && (forall id :: id in s.pipeline.stages ==> id in s.nodes)
            && (InService(cfg, s, world, m, CutsOf(s.nodes, s.pipeline.stages))
                <==> HeadIsFirstStage(cfg, s) && LeavesNoneOut(Orchestrator.LastScores(cfg, ops), cfg.total))
  {
    var (s, order) := (Orchestrator.Run(cfg, ops), Orchestrator.LastOrder(cfg, ops));
    Orchestrator.StagesTileModel(cfg, ops);
    Orchestrator.PeersWithin(cfg, order);
    if s.pipeline.stages != [] {
      Orchestrator.PeerStagesTileModel(cfg, ops);
      Orchestrator.RunServesAll(cfg, ops);
      TilingInService(cfg, s, world, m);
    }
  }
}
