/**
 Three short runs after which the stages do not say what the registry says. Between rebalances a status report
 may reorder the nodes without being significant, and a sequence started then goes to the wrong node; draining
 the last node leaves it in the list of stages; and a node whose id is no peer id is dealt layers all the same.
 */
module StaleStages {
  import opened Wrappers
  import opened Lifecycle
  import opened Registry
  import HandOff
  import Transformer
  import opened Orchestrator
  import opened TwoNodes

  lemma AfterReport(cfg: Config, s: State, a: Id, b: Id)
    requires a != b && s.nodes.Keys == {a, b} && Serving(s.nodes[a], 0.1) && Serving(s.nodes[b], 0.2)
    ensures var s' := Step(cfg, s, Report(a, Busy(0.25), 0));
            s'.pipeline == s.pipeline && Order(s'.nodes) == [b, a]
  {
    BusyScore(0.1);
    BusyScore(0.2);
    BusyScore(0.25);
    TwoNodeOrder(Step(cfg, s, Report(a, Busy(0.25), 0)).nodes, b, a);
  }

  /** When the better of two nodes reports slightly more processor use, the stages stay and the order turns round. */
  lemma HeadDriftsFromFirstStage(cfg: Config, a: Id, b: Id)
    requires a != b && cfg.isPeer(a) && cfg.isPeer(b)
    ensures var s := Run(cfg, Joins(a, b) + [Report(a, Busy(0.25), 0)]);
            s.pipeline.stages == [a, b] && Order(s.nodes) == [b, a]
  {
    RunSnoc(cfg, Joins(a, b), Report(a, Busy(0.25), 0));
    AfterJoins(cfg, a, b);
    BothPeers(cfg, a, b);
    AfterReport(cfg, Run(cfg, Joins(a, b)), a, b);
  }

  lemma LayersAfterReport(cfg: Config, s: State, a: Id, b: Id)
    requires a != b && s.nodes.Keys == {a, b} && Serving(s.nodes[a], 0.1) && Serving(s.nodes[b], 0.2)
    ensures var s' := Step(cfg, s, Report(a, Busy(0.25), 0));
            && s'.nodes.Keys == {a, b} && s'.nodes[b] == s.nodes[b]
            && s'.nodes[a].state == Active
            && s'.nodes[a].capacity.composite == 0.33 && s'.nodes[b].capacity.composite == 0.36
  {
    BusyScore(0.1);
    BusyScore(0.2);
    BusyScore(0.25);
    SmallReportMovesNothing(cfg, s, a, Busy(0.25), 0);
  }

  /** The second stage leads, and holds the second layer. */
  predicate Drifted(s: State, a: Id, b: Id) {
    s.pipeline.stages == [a, b] && IsBest(s.nodes, b) && s.nodes[b].assignedLayers == [1]
  }

  lemma ReportDrifts(cfg: Config, s: State, a: Id, b: Id)
    requires a != b && s.nodes.Keys == {a, b} && Serving(s.nodes[a], 0.1) && Serving(s.nodes[b], 0.2)
    requires s.pipeline.stages == [a, b] && s.nodes[b].assignedLayers == [1]
    ensures Drifted(Step(cfg, s, Report(a, Busy(0.25), 0)), a, b)
  {
    AfterReport(cfg, s, a, b);
    LayersAfterReport(cfg, s, a, b);
  }

  lemma RunDrifts(cfg: Config, a: Id, b: Id)
    requires a != b && cfg.isPeer(a) && cfg.isPeer(b) && cfg.total == 2
    ensures Drifted(Run(cfg, Joins(a, b) + [Report(a, Busy(0.25), 0)]), a, b)
  {
    RunSnoc(cfg, Joins(a, b), Report(a, Busy(0.25), 0));
    AfterJoins(cfg, a, b);
    BothPeers(cfg, a, b);
    LayersAfterJoins(cfg, a, b);
    ReportDrifts(cfg, Run(cfg, Joins(a, b)), a, b);
  }

  lemma DriftedStart(
    cfg: Config, env: HandOff.Envelope, nonce: nat, key: HandOff.Key, s: State, a: Id, b: Id,
    seqId: nat, taskId: string, tokens: seq<Transformer.i32>, initial: seq<byte>)
    requires Drifted(s, a, b) && cfg.isPeer(b)
    ensures var r := StartRequest(cfg, env, nonce, key, s, seqId, taskId, tokens, initial).0;
            && r.Ok? && r.value.Some? && r.value.value.0 == b
            && r.value.value.1.task.start == 1 && r.value.value.1.task.end == 2
  {
    StartGoesToBest(cfg, env, nonce, key, s, seqId, taskId, tokens, initial, b);
  }

  /** A sequence started then, on a model of two layers, goes to the second stage for the second layer. */
  lemma StartMissesFirstStage(
    cfg: Config, env: HandOff.Envelope, nonce: nat, key: HandOff.Key, a: Id, b: Id,
    seqId: nat, taskId: string, tokens: seq<Transformer.i32>, initial: seq<byte>)
    requires a != b && cfg.isPeer(a) && cfg.isPeer(b) && cfg.total == 2
    ensures var s := Run(cfg, Joins(a, b) + [Report(a, Busy(0.25), 0)]);
            var r := StartRequest(cfg, env, nonce, key, s, seqId, taskId, tokens, initial).0;
            && s.pipeline.stages == [a, b]
            && r.Ok? && r.value.Some? && r.value.value.0 == b
            && r.value.value.1.task.start == 1 && r.value.value.1.task.end == 2
  {
    RunDrifts(cfg, a, b);
    DriftedStart(cfg, env, nonce, key, Run(cfg, Joins(a, b) + [Report(a, Busy(0.25), 0)]), a, b,
                 seqId, taskId, tokens, initial);
  }

  /** Draining the last node skips the rebalance: nobody is registered, and the node is still a stage. */
  lemma LastDrainLeavesStages(cfg: Config, a: Id)
    requires cfg.isPeer(a)
    ensures var s := Run(cfg, [Joins(a, a)[0], Drain(a)]);
            s.nodes == map[] && s.pipeline.stages == [a]
  {
    RunTwo(cfg, Joins(a, a)[0], Drain(a));
    AfterFirstJoin(cfg, a, a);
    PeersWithin(cfg, [a]);
    assert Run(cfg, [Joins(a, a)[0]]).nodes - {a} == map[];
  }

  lemma OnlyFirstIsPeer(cfg: Config, a: Id, b: Id)
    requires cfg.isPeer(a) && !cfg.isPeer(b)
    ensures Peers(cfg, [a, b]) == [a]
  {
    assert [a, b][..1] == [a] && [a][..0] == [];
    assert Peers(cfg, [a]) == [] + [a];
  }

  lemma LayersOfOne(nodes: Nodes, a: Id)
    requires a in nodes
    ensures LayersOf(nodes, [a]) == nodes[a].assignedLayers
  {
    assert [] + [a] == [a];
    LayersSnoc(nodes, [], a);
  }

  /** A node that is no peer serves no stage, yet is dealt a layer, which then no stage holds. */
  lemma NonPeerHoldsLayer(cfg: Config, a: Id, b: Id)
    requires a != b && cfg.isPeer(a) && !cfg.isPeer(b) && cfg.total == 2
    ensures var s := Run(cfg, Joins(a, b));
            && s.pipeline.stages == [a] && s.nodes.Keys == {a, b} && s.nodes[b].assignedLayers == [1]
            && LayersOf(s.nodes, s.pipeline.stages) == [0] != Range(0, cfg.total)
  {
    AfterJoins(cfg, a, b);
    LayersAfterJoins(cfg, a, b);
    OnlyFirstIsPeer(cfg, a, b);
    LayersOfOne(Run(cfg, Joins(a, b)).nodes, a);
  }
}
