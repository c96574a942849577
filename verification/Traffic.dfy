/**
 Many tasks in flight over one registry: the orchestrator takes the layer ranges from the registry, and drops a
 result whose next node is not registered (src/orchestrator.rs, `start_sequence` and `handle_task_result`).
 */
module Traffic {
  import opened Wrappers
  import opened Transformer
  import opened HandOff
  import opened Backend
  import opened Registry
  import Orchestrator
  import Pipeline

  /** What stays fixed while tasks are in flight: configuration, libraries and key. */
  datatype Setting = Setting(cfg: Orchestrator.Config, env: Envelope, key: Key)

  datatype Event =
    | Asked(seqId: nat, taskId: string, tokens: seq<i32>, initial: seq<byte>, nonce: nat)
    | Answered(result: TaskResult)

  datatype Reply =
    | Started(first: Result<Option<(Id, Pipeline.ProcessTask)>, Orchestrator.StartError>)
    | Continued(next: Option<Pipeline.PipelineResult>)

  function TaskOf(e: Event): string {
    if e.Asked? then e.taskId else e.result.taskId
  }

  ghost function Step(w: Setting, s: Orchestrator.State, e: Event): (r: (Reply, Orchestrator.State))
    ensures r.1.nodes == s.nodes && r.1.pipeline.stages == s.pipeline.stages
  {
    if e.Asked? then
      var (out, s') :=
        Orchestrator.StartRequest(w.cfg, w.env, e.nonce, w.key, s, e.seqId, e.taskId, e.tokens, e.initial);
      (Started(out), s')
    else
      var (out, s') := Orchestrator.ResultArrives(s, e.result);
      (Continued(out), s')
  }

  ghost function Run(w: Setting, s: Orchestrator.State, es: seq<Event>): (s': Orchestrator.State)
    ensures s'.nodes == s.nodes && s'.pipeline.stages == s.pipeline.stages
  {
    if es == [] then s else Step(w, Run(w, s, es[..|es| - 1]), es[|es| - 1]).1
  }

  /** The events that concern one task, in order. */
  function Own(es: seq<Event>, t: string): seq<Event> {
    if es == [] then [] else
      Own(es[..|es| - 1], t) + (if TaskOf(es[|es| - 1]) == t then [es[|es| - 1]] else [])
  }

  /** The replies to the events that concern one task, in order. */
  ghost function OwnReplies(w: Setting, s: Orchestrator.State, es: seq<Event>, t: string): seq<Reply> {
    if es == [] then [] else
      var (front, last) := (es[..|es| - 1], es[|es| - 1]);
      OwnReplies(w, s, front, t) + (if TaskOf(last) == t then [Step(w, Run(w, s, front), last).0] else [])
  }

  /** Same registry, and pipelines that look the same to a task. */
  predicate SameFor(s: Orchestrator.State, q: Orchestrator.State, t: string) {
    s.nodes == q.nodes && Pipeline.SameFor(s.pipeline, q.pipeline, t)
  }

  lemma StepLocal(w: Setting, s: Orchestrator.State, q: Orchestrator.State, e: Event, t: string)
    requires SameFor(s, q, t)
    ensures TaskOf(e) == t ==> Step(w, s, e).0 == Step(w, q, e).0 && SameFor(Step(w, s, e).1, Step(w, q, e).1, t)
    ensures TaskOf(e) != t ==> SameFor(Step(w, s, e).1, q, t)
  {
  }

  /**
   Over a fixed registry and fixed stages, whatever the interleaving with other tasks, the replies a task gets,
   with their layer ranges, and the record kept of it are those of a run with its own events only.
   */
  lemma {:induction false} Independence(w: Setting, s: Orchestrator.State, es: seq<Event>, t: string)
    ensures SameFor(Run(w, s, es), Run(w, s, Own(es, t)), t)
    ensures OwnReplies(w, s, es, t) == OwnReplies(w, s, Own(es, t), t)
  {
    if es != [] {
      var (front, last) := (es[..|es| - 1], es[|es| - 1]);
      Independence(w, s, front, t);
      StepLocal(w, Run(w, s, front), Run(w, s, Own(front, t)), last, t);
      if TaskOf(last) == t {
        var own := Own(es, t);
        assert own == Own(front, t) + [last];
        assert own[..|own| - 1] == Own(front, t);
      } else {
        assert Own(es, t) == Own(front, t);
      }
    }
  }

  /**
   A result is accepted exactly when its task is in flight under that sequence number and the node of its next
   stage, if there is one, is registered; a result that is not accepted changes nothing. The next task carries
   the range of the layers registered for its node.
   */
  lemma AcceptedWhenRegistered(s: Orchestrator.State, result: TaskResult)
    ensures var (out, s') := Orchestrator.ResultArrives(s, result);
            var (active, i) :=
              (result.taskId in s.pipeline.active && s.pipeline.active[result.taskId].seqId == result.seqId,
               if result.taskId in s.pipeline.active then s.pipeline.active[result.taskId].index + 1 else 0);
            && (out.Some? <==> active && (i < |s.pipeline.stages| ==> s.pipeline.stages[i] in s.nodes))
            && (out.None? ==> s' == s)
            && (out.Some? ==> (out.value.NextStage? <==> i < |s.pipeline.stages|))
            && (out.Some? && out.value.NextStage? ==>
                  && out.value.peer == s.pipeline.stages[i]
                  && (out.value.message.task.start, out.value.message.task.end)
                     == Orchestrator.SpanOf(s.nodes[out.value.peer].assignedLayers))
  {
  }
}
