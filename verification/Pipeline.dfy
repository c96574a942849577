/**
 The pipeline state machine (src/pipeline.rs): many tasks in flight over one list of stages, with results
 arriving in any interleaving.
 */
module Pipeline {
  import opened Wrappers
  import opened Transformer
  import opened Backend

  type Peer = string

  type TaskId = string

  datatype RouteTicket = RouteTicket(taskId: TaskId, seqId: nat, nodes: seq<Peer>, currentIndex: nat)

  /** The peer after the one now processing. */
  function NextPeer(t: RouteTicket): Option<Peer> {
    if t.currentIndex + 1 < |t.nodes| then Some(t.nodes[t.currentIndex + 1]) else None
  }

  datatype SequenceState = SequenceState(seqId: nat, taskId: TaskId, tokens: seq<i32>, index: nat)

  /** A task message: what to compute, and the route it travels. */
  datatype ProcessTask = ProcessTask(task: Task, route: RouteTicket)

  datatype PipelineResult = NextStage(peer: Peer, message: ProcessTask) | Finished(logits: seq<Word>)

  datatype State = State(stages: seq<Peer>, active: map<TaskId, SequenceState>)

  function StartSequence(p: State, seqId: nat, taskId: TaskId, tokens: seq<i32>, input: seq<byte>, layers: (nat, nat))
    : (Option<(Peer, ProcessTask)>, State)
  {
    if p.stages == [] then (None, p) else
      (Some((p.stages[0],
             ProcessTask(Task(taskId, seqId, input, layers.0, layers.1, tokens),
                         RouteTicket(taskId, seqId, p.stages, 0)))),
       p.(active := p.active[taskId := SequenceState(seqId, taskId, tokens, 0)]))
  }

  function GetNextPeer(p: State, taskId: TaskId): Option<Peer> {
    if taskId in p.active && p.active[taskId].index + 1 < |p.stages| then
      Some(p.stages[p.active[taskId].index + 1])
    else None
  }

  function HandleTaskResult(p: State, result: TaskResult, layers: (nat, nat)): (Option<PipelineResult>, State) {
    if result.taskId !in p.active || p.active[result.taskId].seqId != result.seqId then (None, p) else
      var s := p.active[result.taskId];
      var i := s.index + 1;
      if i < |p.stages| then
        (Some(NextStage(p.stages[i],
                        ProcessTask(Task(result.taskId, result.seqId, result.output, layers.0, layers.1, s.tokens),
                                    RouteTicket(result.taskId, result.seqId, p.stages, i)))),
         p.(active := p.active[result.taskId := s.(index := i)]))
      else
        (Some(Finished(result.logits)), p.(active := p.active - {result.taskId}))
  }

  // ---------------------------------------------------------------- events and runs

  datatype Event =
    | Start(seqId: nat, taskId: TaskId, tokens: seq<i32>, input: seq<byte>, layers: (nat, nat))
    | Result(result: TaskResult, layers: (nat, nat))

  datatype Reply = Started(peer: Peer, message: ProcessTask) | Continued(outcome: PipelineResult) | NoReply

  function TaskOf(e: Event): TaskId {
    if e.Start? then e.taskId else e.result.taskId
  }

  function Step(p: State, e: Event): (Reply, State) {
    if e.Start? then
      var (out, p') := StartSequence(p, e.seqId, e.taskId, e.tokens, e.input, e.layers);
      (if out.Some? then Started(out.value.0, out.value.1) else NoReply, p')
    else
      var (out, p') := HandleTaskResult(p, e.result, e.layers);
      (if out.Some? then Continued(out.value) else NoReply, p')
  }

  function Run(p: State, es: seq<Event>): State {
    if es == [] then p else Step(Run(p, es[..|es| - 1]), es[|es| - 1]).1
  }

  /** The events that concern one task, in order. */
  function Own(es: seq<Event>, t: TaskId): seq<Event> {
    if es == [] then [] else
      Own(es[..|es| - 1], t) + (if TaskOf(es[|es| - 1]) == t then [es[|es| - 1]] else [])
  }

  /** The replies to the events that concern one task, in order. */
  function OwnReplies(p: State, es: seq<Event>, t: TaskId): seq<Reply> {
    if es == [] then [] else
      var (front, last) := (es[..|es| - 1], es[|es| - 1]);
      OwnReplies(p, front, t) + (if TaskOf(last) == t then [Step(Run(p, front), last).0] else [])
  }

  /** A result is accepted when it moves its task on. */
  predicate Accepted(p: State, e: Event) {
    e.Result? && Step(p, e).0 != NoReply
  }

  // ---------------------------------------------------------------- independence

  /** Two pipelines look the same to a task: same stages, same record of the task. */
  predicate SameFor(p: State, q: State, t: TaskId) {
    && p.stages == q.stages
    && (t in p.active <==> t in q.active)
    && (t in p.active ==> p.active[t] == q.active[t])
  }

  lemma StepLocal(p: State, q: State, e: Event, t: TaskId)
    requires SameFor(p, q, t)
    ensures TaskOf(e) == t ==> Step(p, e).0 == Step(q, e).0 && SameFor(Step(p, e).1, Step(q, e).1, t)
    ensures TaskOf(e) != t ==> SameFor(Step(p, e).1, q, t)
  {
  }

  /**
   Over a fixed list of stages, whatever the interleaving with other tasks, the replies a task gets and the
   record kept of it are those of a run with its own events only.
   */
  lemma {:induction false} Independence(p: State, es: seq<Event>, t: TaskId)
    ensures SameFor(Run(p, es), Run(p, Own(es, t)), t)
    ensures OwnReplies(p, es, t) == OwnReplies(p, Own(es, t), t)
  {
    if es != [] {
      var (front, last) := (es[..|es| - 1], es[|es| - 1]);
      Independence(p, front, t);
      StepLocal(Run(p, front), Run(p, Own(front, t)), last, t);
      if TaskOf(last) == t {
        var own := Own(es, t);
        assert own == Own(front, t) + [last];
        assert own[..|own| - 1] == Own(front, t);
      } else {
        assert Own(es, t) == Own(front, t);
      }
    }
  }

  /** Two interleavings with the same events of a task give it the same replies. */
  lemma InterleavingsAgree(p: State, es: seq<Event>, es': seq<Event>, t: TaskId)
    requires Own(es, t) == Own(es', t)
    ensures OwnReplies(p, es, t) == OwnReplies(p, es', t)
    ensures SameFor(Run(p, es), Run(p, es'), t)
  {
    Independence(p, es, t);
    Independence(p, es', t);
  }

  /** A result is accepted exactly when its task is in flight under that sequence number; the rest change nothing. */
  lemma RejectedChangesNothing(p: State, result: TaskResult, layers: (nat, nat))
    ensures var e := Result(result, layers);
            && (Accepted(p, e) <==> result.taskId in p.active && p.active[result.taskId].seqId == result.seqId)
            && (!Accepted(p, e) ==> Step(p, e) == (NoReply, p))
  {
  }

  /**
   A result does not say which stage it comes from. The same result handled a second time is taken for the next
   stage's, as long as there is one: that stage is skipped, and the stage after it gets the output of the one
   before; or the task finishes with the logits of the last stage but one.
   */
  lemma DuplicateIsNextResult(p: State, result: TaskResult, layers: (nat, nat), layers': (nat, nat))
    requires Accepted(p, Result(result, layers))
    ensures var i := p.active[result.taskId].index;
            var p' := Step(p, Result(result, layers)).1;
            var again := Result(result, layers');
            && (Accepted(p', again) <==> i + 1 < |p.stages|)
            && (i + 2 < |p.stages| ==>
                  ContinuesTo(p.stages, p.active[result.taskId].tokens, again, i + 2, Step(p', again).0))
            && (i + 2 == |p.stages| ==> Step(p', again).0 == Continued(Finished(result.logits)))
  {
  }

  // ---------------------------------------------------------------- progress

  predicate Bounded(p: State) {
    forall t :: t in p.active ==> p.active[t].index < |p.stages| && p.active[t].taskId == t
  }

  function Left(p: State, t: TaskId): int
    requires t in p.active
  {
    |p.stages| - p.active[t].index
  }

  ghost function SumLeft(p: State, ts: set<TaskId>): int
    requires ts <= p.active.Keys
  {
    if ts == {} then 0 else
      var t :| t in ts;
      Left(p, t) + SumLeft(p, ts - {t})
  }

  lemma {:induction false} SumLeftPick(p: State, ts: set<TaskId>, t: TaskId)
    requires ts <= p.active.Keys && t in ts
    ensures SumLeft(p, ts) == Left(p, t) + SumLeft(p, ts - {t})
    decreases |ts|
  {
    var u :| u in ts && SumLeft(p, ts) == Left(p, u) + SumLeft(p, ts - {u});
    if u != t {
      SumLeftPick(p, ts - {u}, t);
      SumLeftPick(p, ts - {t}, u);
      assert ts - {u} - {t} == ts - {t} - {u};
    }
  }

  lemma {:induction false} SumLeftSame(p: State, q: State, ts: set<TaskId>)
    requires p.stages == q.stages && ts <= p.active.Keys && ts <= q.active.Keys
    requires forall t :: t in ts ==> p.active[t] == q.active[t]
    ensures SumLeft(p, ts) == SumLeft(q, ts)
    decreases |ts|
  {
    if ts != {} {
      var t :| t in ts;
      SumLeftSame(p, q, ts - {t});
      SumLeftPick(p, ts, t);
      SumLeftPick(q, ts, t);
    }
  }

  /** The stages that the tasks in flight still have before them. */
  ghost function TotalLeft(p: State): int {
    SumLeft(p, p.active.Keys)
  }

  lemma {:induction false} SumLeftNonNegative(p: State, ts: set<TaskId>)
    requires Bounded(p) && ts <= p.active.Keys
    ensures SumLeft(p, ts) >= |ts|
    decreases |ts|
  {
    if ts != {} {
      var t :| t in ts;
      SumLeftNonNegative(p, ts - {t});
      SumLeftPick(p, ts, t);
    }
  }

  lemma StepBounded(p: State, e: Event)
    requires Bounded(p)
    ensures Bounded(Step(p, e).1)
  {
  }

  /** Every accepted result uses up exactly one of the stages left, whichever task it belongs to. */
  lemma AcceptedUsesOneStage(p: State, e: Event)
    requires Bounded(p) && Accepted(p, e)
    ensures TotalLeft(Step(p, e).1) == TotalLeft(p) - 1
    ensures Bounded(Step(p, e).1) && 0 <= TotalLeft(Step(p, e).1)
  {
    var (p', t) := (Step(p, e).1, e.result.taskId);
    var others := p.active.Keys - {t};
    StepBounded(p, e);
    SumLeftPick(p, p.active.Keys, t);
    SumLeftSame(p, p', others);
    if t in p'.active {
      SumLeftPick(p', p'.active.Keys, t);
      assert p'.active.Keys - {t} == others;
    } else {
      assert p'.active.Keys == others;
    }
    SumLeftNonNegative(p', p'.active.Keys);
  }

  // ---------------------------------------------------------------- one task from start to finish

  /** A task's own events: its start, then results for it under its sequence number. */
  predicate StartedThenResults(es: seq<Event>, t: TaskId, seqId: nat, tokens: seq<i32>) {
    && es != []
    && es[0].Start? && es[0].taskId == t && es[0].seqId == seqId && es[0].tokens == tokens
    && forall i :: 1 <= i < |es| ==> es[i].Result? && es[i].result.taskId == t && es[i].result.seqId == seqId
  }

  /** Before the last stage every result yields the next task, with the task's own tokens, for the next stage. */
  predicate ContinuesTo(stages: seq<Peer>, tokens: seq<i32>, e: Event, i: nat, reply: Reply)
    requires e.Result? && i < |stages|
  {
    var r := e.result;
    reply == Continued(NextStage(stages[i],
      ProcessTask(Task(r.taskId, r.seqId, r.output, e.layers.0, e.layers.1, tokens),
                  RouteTicket(r.taskId, r.seqId, stages, i))))
  }

  lemma {:induction false} OwnRun(p: State, es: seq<Event>, t: TaskId, seqId: nat, tokens: seq<i32>)
    requires p.stages != [] && StartedThenResults(es, t, seqId, tokens) && |es| <= |p.stages|
    ensures var q := Run(p, es);
            q.stages == p.stages && t in q.active && q.active[t] == SequenceState(seqId, t, tokens, |es| - 1)
    ensures |es| > 1 ==>
              ContinuesTo(p.stages, tokens, es[|es| - 1], |es| - 1, Step(Run(p, es[..|es| - 1]), es[|es| - 1]).0)
  {
    var front := es[..|es| - 1];
    if |es| > 1 {
      OwnRun(p, front, t, seqId, tokens);
    } else {
      assert Run(p, front) == p;
    }
  }

  /**
   With n stages, the n-th result of a task, and no earlier one, finishes it and is answered with its
   logits; the results before it move the task through the stages in order.
   */
  lemma NResultsFinish(p: State, es: seq<Event>, t: TaskId, seqId: nat, tokens: seq<i32>)
    requires p.stages != [] && StartedThenResults(es, t, seqId, tokens) && |es| == |p.stages| + 1
    ensures forall i :: 1 <= i < |p.stages| ==>
              ContinuesTo(p.stages, tokens, es[i], i, Step(Run(p, es[..i]), es[i]).0)
    ensures Step(Run(p, es[..|es| - 1]), es[|es| - 1]).0 == Continued(Finished(es[|es| - 1].result.logits))
    ensures t !in Run(p, es).active
  {
    forall i | 1 <= i < |p.stages|
      ensures ContinuesTo(p.stages, tokens, es[i], i, Step(Run(p, es[..i]), es[i]).0)
    {
      assert es[..i + 1][..i] == es[..i];
      OwnRun(p, es[..i + 1], t, seqId, tokens);
    }
    OwnRun(p, es[..|es| - 1], t, seqId, tokens);
  }

  /** The message of a reply that sends a task out, and where it goes. */
  function Sent(reply: Reply): Option<(Peer, ProcessTask)> {
    if reply.Started? then Some((reply.peer, reply.message))
    else if reply.Continued? && reply.outcome.NextStage? then Some((reply.outcome.peer, reply.outcome.message))
    else None
  }

  /**
   As long as the stages stay, the route ticket that travels with a task and the pipeline agree: a task goes
   to the peer that the pipeline announced, or to the first stage when it starts; its ticket points at that
   peer; and the ticket names the peer after it exactly as the pipeline will.
   */
  lemma TicketAgrees(p: State, e: Event)
    requires Bounded(p)
    ensures var (reply, p') := Step(p, e);
            var sent := Sent(reply);
            sent.Some? ==>
              var (peer, route) := (sent.value.0, sent.value.1.route);
              && route.taskId == TaskOf(e) == sent.value.1.task.taskId
              && route.seqId == sent.value.1.task.seqId
              && route.currentIndex < |route.nodes| && route.nodes[route.currentIndex] == peer
              && (if e.Start? then peer == p.stages[0] else GetNextPeer(p, TaskOf(e)) == Some(peer))
              && NextPeer(route) == GetNextPeer(p', TaskOf(e))
  {
  }

  // ---------------------------------------------------------------- the pipeline object

  class InferencePipeline {
    var activeSequences: map<TaskId, SequenceState>
    var pipelineStages: seq<Peer>

    ghost function View(): State
      reads this
    {
      State(pipelineStages, activeSequences)
    }

    constructor ()
      ensures View() == State([], map[])
    {
      activeSequences, pipelineStages := map[], [];
    }

    method UpdateStages(peers: seq<Peer>)
      modifies this
      ensures View() == old(View()).(stages := peers)
    {
      pipelineStages := peers;
    }

    method DoStartSequence(seqId: nat, taskId: TaskId, tokens: seq<i32>, input: seq<byte>, layers: (nat, nat))
      returns (out: Option<(Peer, ProcessTask)>)
      modifies this
      ensures (out, View()) == StartSequence(old(View()), seqId, taskId, tokens, input, layers)
    {
      if pipelineStages == [] {
        return None;
      }
      activeSequences := activeSequences[taskId := SequenceState(seqId, taskId, tokens, 0)];
      var route := RouteTicket(taskId, seqId, pipelineStages, 0);
      return Some((pipelineStages[0], ProcessTask(Task(taskId, seqId, input, layers.0, layers.1, tokens), route)));
    }

    method DoGetNextPeer(taskId: TaskId) returns (next: Option<Peer>)
      ensures next == GetNextPeer(View(), taskId)
    {
      if taskId in activeSequences {
        var nextIndex := activeSequences[taskId].index + 1;
        if nextIndex < |pipelineStages| {
          return Some(pipelineStages[nextIndex]);
        }
      }
      return None;
    }

    method DoHandleTaskResult(result: TaskResult, layers: (nat, nat)) returns (out: Option<PipelineResult>)
      modifies this
      ensures (out, View()) == HandleTaskResult(old(View()), result, layers)
    {
      if result.taskId in activeSequences {
        var state := activeSequences[result.taskId];
        if state.seqId != result.seqId {
          return None;
        }
        state := state.(index := state.index + 1);
        activeSequences := activeSequences[result.taskId := state];
        if state.index < |pipelineStages| {
          var route := RouteTicket(result.taskId, result.seqId, pipelineStages, state.index);
          var task := Task(result.taskId, result.seqId, result.output, layers.0, layers.1, state.tokens);
          return Some(NextStage(pipelineStages[state.index], ProcessTask(task, route)));
        }
        activeSequences := activeSequences - {result.taskId};
        assert activeSequences == old(activeSequences) - {result.taskId};
        return Some(Finished(result.logits));
      }
      return None;
    }
  }
}
