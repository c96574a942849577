/** A swarm of two: Desktops without free memory that join one after the other (src/orchestrator.rs). */
module TwoNodes {
  import opened Wrappers
  import opened Capacity
  import opened Lifecycle
  import opened Registry
  import opened Allocation
  import opened Orchestrator

  const DESKTOP := Profile(Desktop, 8, 1)

  /** A node without free memory, with the given processor use. */
  function Busy(cpu: real): Status { Status(cpu, 0, 0, Nominal, None) }

  /** Two nodes join, the better one first. */
  function Joins(a: Id, b: Id): seq<Op> {
    [Join(a, DESKTOP, Busy(0.1), 0), Join(b, DESKTOP, Busy(0.2), 0)]
  }

  lemma BusyScore(cpu: real)
    requires 0.0 <= cpu <= 0.8
    ensures Compute(DESKTOP, Busy(cpu), ForDevice(Desktop)).composite == 0.6 * (0.8 - cpu)
  {
  }

  lemma OneNodeOrder(nodes: Nodes, a: Id)
    requires nodes.Keys == {a} && CanAcceptTasks(nodes[a].state)
    ensures Order(nodes) == [a]
  {
    OrderUnique(nodes, ActiveIds(nodes), Order(nodes), [a]);
  }

  lemma TwoNodeOrder(nodes: Nodes, a: Id, b: Id)
    requires nodes.Keys == {a, b} && a != b
    requires CanAcceptTasks(nodes[a].state) && CanAcceptTasks(nodes[b].state)
    requires nodes[a].capacity.composite > nodes[b].capacity.composite
    ensures Order(nodes) == [a, b]
  {
    var order := [a, b];
    assert Ahead(nodes, order[0], order[1]);
    OrderUnique(nodes, ActiveIds(nodes), Order(nodes), order);
  }

  /** A registered Desktop, active, whose last report was `Busy(cpu)`. */
  predicate Serving(e: Entry, cpu: real) {
    && e.profile == DESKTOP && e.reservation == ForDevice(Desktop) && e.status == Busy(cpu)
    && e.capacity == Compute(DESKTOP, Busy(cpu), ForDevice(Desktop)) && e.state == Active
  }

  // ---------------------------------------------------------------- runs, operation by operation

  lemma RunSnoc(cfg: Config, ops: seq<Op>, op: Op)
    ensures Run(cfg, ops + [op]) == Step(cfg, Run(cfg, ops), op)
  {
    assert (ops + [op])[..|ops|] == ops;
  }

  lemma RunOne(cfg: Config, x: Op)
    ensures Run(cfg, [x]) == Step(cfg, INITIAL, x)
  {
    assert [] + [x] == [x];
    RunSnoc(cfg, [], x);
  }

  lemma RunTwo(cfg: Config, x: Op, y: Op)
    ensures Run(cfg, [x, y]) == Step(cfg, Run(cfg, [x]), y)
  {
    assert [x] + [y] == [x, y];
    RunSnoc(cfg, [x], y);
  }

  // ---------------------------------------------------------------- the joins

  lemma AfterFirstJoin(cfg: Config, a: Id, b: Id)
    ensures var s := Run(cfg, [Joins(a, b)[0]]);
            s.nodes.Keys == {a} && Serving(s.nodes[a], 0.1) && s.pipeline.stages == Peers(cfg, [a])
  {
    var ready := MarkReady(Register(map[], a, DESKTOP, 0), a, Busy(0.1)).value;
    RunOne(cfg, Joins(a, b)[0]);
    OneNodeOrder(ready, a);
    RebalancedEntries(cfg, INITIAL.(nodes := ready));
    RebalanceTiles(cfg, INITIAL.(nodes := ready));
  }

  /** The registry when the second node has become ready. */
  lemma SecondReady(cfg: Config, s: State, a: Id, b: Id) returns (s1: State)
    requires a != b && s.nodes.Keys == {a} && Serving(s.nodes[a], 0.1)
    ensures Step(cfg, s, Joins(a, b)[1]) == Rebalance(cfg, s1)
    ensures s1.nodes.Keys == {a, b} && Order(s1.nodes) == [a, b] && s1.nodes[a] == s.nodes[a]
    ensures s1.nodes[b].state == Ready && s1.nodes[b].profile == DESKTOP && s1.nodes[b].status == Busy(0.2)
    ensures s1.nodes[b].reservation == ForDevice(Desktop)
    ensures s1.nodes[b].capacity == Compute(DESKTOP, Busy(0.2), ForDevice(Desktop))
    ensures s1.nodes[a].capacity.composite == 0.42 && s1.nodes[b].capacity.composite == 0.36
  {
    s1 := s.(nodes := MarkReady(Register(s.nodes, b, DESKTOP, 0), b, Busy(0.2)).value);
    BusyScore(0.1);
    BusyScore(0.2);
    TwoNodeOrder(s1.nodes, a, b);
  }

  lemma AfterJoins(cfg: Config, a: Id, b: Id)
    requires a != b
    ensures var s := Run(cfg, Joins(a, b));
            && s.nodes.Keys == {a, b} && Serving(s.nodes[a], 0.1) && Serving(s.nodes[b], 0.2)
            && s.pipeline.stages == Peers(cfg, [a, b]) && Order(s.nodes) == [a, b]
  {
    AfterFirstJoin(cfg, a, b);
    RunTwo(cfg, Joins(a, b)[0], Joins(a, b)[1]);
    var s1 := SecondReady(cfg, Run(cfg, [Joins(a, b)[0]]), a, b);
    RebalancedEntries(cfg, s1);
    RebalanceTiles(cfg, s1);
    OrderAfterRebalance(cfg, s1);
  }

  lemma BothPeers(cfg: Config, a: Id, b: Id)
    requires cfg.isPeer(a) && cfg.isPeer(b)
    ensures Peers(cfg, [a, b]) == [a, b]
  {
    PeersWithin(cfg, [a, b]);
  }

  // ---------------------------------------------------------------- two layers, one each

  /** With 42 parts against 36, two layers are shared out one each. */
  lemma OneEach(scores: seq<real>)
    requires scores == [0.42, 0.36]
    ensures Boundary(scores, 2, 0) == 0 && Boundary(scores, 2, 1) == 1 && Boundary(scores, 2, 2) == 2
  {
    assert scores[..1] == [0.42] && scores[..1][..0] == [];
    assert Total(scores[..1]) == 0.42 && Total(scores) == 0.78;
    assert IdealShare(scores, 2, 0) == 0.84 / 0.78;
    assert Round(IdealShare(scores, 2, 0)) == 1;
  }

  lemma DealtOneEach(cfg: Config, s: State, a: Id, b: Id)
    requires cfg.total == 2 && a != b && s.nodes.Keys == {a, b} && Order(s.nodes) == [a, b]
    requires s.nodes[a].capacity.composite == 0.42 && s.nodes[b].capacity.composite == 0.36
    ensures var nodes' := Rebalance(cfg, s).nodes;
            nodes'.Keys == {a, b} && nodes'[a].assignedLayers == [0] && nodes'[b].assignedLayers == [1]
  {
    var order := Order(s.nodes);
    var scores := ScoresOf(s.nodes, order);
    assert scores == [0.42, 0.36];
    OneEach(scores);
    OrderFacts(s.nodes);
    AssignedAll(s.nodes, order, scores, cfg.total);
    assert order[0] == a && order[1] == b;
    assert Range(0, 1) == [0] && Range(1, 2) == [1];
  }

  lemma LayersAfterJoins(cfg: Config, a: Id, b: Id)
    requires a != b && cfg.total == 2
    ensures var s := Run(cfg, Joins(a, b));
            s.nodes.Keys == {a, b} && s.nodes[a].assignedLayers == [0] && s.nodes[b].assignedLayers == [1]
  {
    AfterFirstJoin(cfg, a, b);
    RunTwo(cfg, Joins(a, b)[0], Joins(a, b)[1]);
    var s1 := SecondReady(cfg, Run(cfg, [Joins(a, b)[0]]), a, b);
    DealtOneEach(cfg, s1, a, b);
  }
}
