/**
 The orchestrator (src/orchestrator.rs): joining, status reports, draining, pruning and rebalancing over the
 registry and the pipeline's list of stages. Each operation holds the locks throughout, so it is one step.
 */
module Orchestrator {
  import opened Wrappers
  import opened Capacity
  import opened Lifecycle
  import opened Registry
  import opened Allocation
  import Backend
  import HandOff
  import Pipeline
  import Transformer

  /** The model's layer count, and which node ids are peer ids, and so can be stages. */
  datatype Config = Config(total: nat, isPeer: Id -> bool)

  datatype State = State(nodes: Nodes, pipeline: Pipeline.State)

  const INITIAL := State(map[], Pipeline.State([], map[]))

  // ---------------------------------------------------------------- rebalancing

  function Range(lo: nat, hi: nat): (layers: seq<nat>)
    ensures |layers| == if lo <= hi then hi - lo else 0
  {
    if lo <= hi then seq(hi - lo, i requires 0 <= i < hi - lo => lo + i) else []
  }

  function ScoresOf(nodes: Nodes, order: seq<Id>): (scores: seq<real>)
    requires forall id :: id in order ==> id in nodes
    ensures |scores| == |order|
  {
    seq(|order|, i requires 0 <= i < |order| => nodes[order[i]].capacity.composite)
  }

  /** The registry after the first `i` nodes of the order have received their slices. */
  function AssignUpTo(nodes: Nodes, order: seq<Id>, scores: seq<real>, total: nat, i: nat): (nodes': Nodes)
    requires i <= |order| == |scores|
    ensures nodes'.Keys == nodes.Keys
  {
    if i == 0 then nodes else
      AssignLayers(AssignUpTo(nodes, order, scores, total, i - 1), order[i - 1],
                   Range(Boundary(scores, total, i - 1), Boundary(scores, total, i)))
  }

  /** The ids that are peer ids, in order; the others never become stages. */
  function Peers(cfg: Config, order: seq<Id>): seq<Id> {
    if order == [] then [] else
      Peers(cfg, order[..|order| - 1]) + (if cfg.isPeer(order[|order| - 1]) then [order[|order| - 1]] else [])
  }

  function RebalanceTo(cfg: Config, s: State, order: seq<Id>): State
    requires forall id :: id in order ==> id in s.nodes
  {
    State(AssignUpTo(s.nodes, order, ScoresOf(s.nodes, order), cfg.total, |order|),
          s.pipeline.(stages := Peers(cfg, order)))
  }

  /** Stages and layers from the nodes that accept tasks now; the others keep the layers they had. */
  ghost function Rebalance(cfg: Config, s: State): State {
    RebalanceTo(cfg, s, Order(s.nodes))
  }

  // ---------------------------------------------------------------- operations

  ghost function Announce(cfg: Config, s: State, id: Id, profile: Profile, status: Status, now: nat): State {
    var ready := MarkReady(Register(s.nodes, id, profile, now), id, status);
    if ready.Err? then s.(nodes := Register(s.nodes, id, profile, now))
    else Rebalance(cfg, s.(nodes := ready.value))
  }

  /** The reply carries the node's new layers when a significant change moved them. */
  ghost function ReportStatus(cfg: Config, s: State, id: Id, status: Status, now: nat)
    : (Result<Option<seq<nat>>, RegistryError>, State)
  {
    var updated := UpdateStatus(s.nodes, id, status, now);
    if updated.Err? then (Err(updated.error), s)
    else
      var s1 := s.(nodes := updated.value.0);
      if !updated.value.1 then (Ok(None), s1)
      else
        var s2 := Rebalance(cfg, s1);
        var layers := s2.nodes[id].assignedLayers;
        (Ok(if layers != s1.nodes[id].assignedLayers then Some(layers) else None), s2)
  }

  /** Removes nodes, and rebalances over those that are left, if any. */
  ghost function Without(cfg: Config, s: State, ids: set<Id>): State {
    var s1 := s.(nodes := s.nodes - ids);
    if s1.nodes == map[] then s1 else Rebalance(cfg, s1)
  }

  const NANOS_PER_SEC: nat := 1_000_000_000

  /** More than `timeout` whole seconds lie between the two times. */
  predicate TooLong(heard: nat, timeout: nat, now: nat) {
    Max(now - heard, 0) / NANOS_PER_SEC > timeout
  }

  /** Nodes last heard from more than `timeout` whole seconds ago. */
  function Expired(nodes: Nodes, timeout: nat, now: nat): set<Id> {
    set id | id in nodes && TooLong(nodes[id].lastHeartbeat, timeout, now)
  }

  ghost function Prune(cfg: Config, s: State, timeout: nat, now: nat): State {
    var dead := Expired(s.nodes, timeout, now);
    if dead == {} then s else Without(cfg, s, dead)
  }

  datatype Op =
    | Join(id: Id, profile: Profile, status: Status, now: nat)
    | Report(id: Id, status: Status, now: nat)
    | Beat(id: Id, now: nat)
    | Drain(id: Id)
    | PruneDead(timeout: nat, now: nat)
    | Traffic(event: Pipeline.Event)   // starting sequences and handling results

  ghost function Step(cfg: Config, s: State, op: Op): State {
    match op
    case Join(id, profile, status, now) => Announce(cfg, s, id, profile, status, now)
    case Report(id, status, now) => ReportStatus(cfg, s, id, status, now).1
    case Beat(id, now) => s.(nodes := Heartbeat(s.nodes, id, now))
    case Drain(id) => Without(cfg, s, {id})
    case PruneDead(timeout, now) => Prune(cfg, s, timeout, now)
    case Traffic(event) => s.(pipeline := Pipeline.Step(s.pipeline, event).1)
  }

  ghost function Run(cfg: Config, ops: seq<Op>): State {
    if ops == [] then INITIAL else Step(cfg, Run(cfg, ops[..|ops| - 1]), ops[|ops| - 1])
  }

  // ---------------------------------------------------------------- what a rebalance achieves

  /** The layers of the listed nodes, end to end. */
  function LayersOf(nodes: Nodes, order: seq<Id>): seq<nat>
    requires forall id :: id in order ==> id in nodes
  {
    if order == [] then [] else
      LayersOf(nodes, order[..|order| - 1]) + nodes[order[|order| - 1]].assignedLayers
  }

  predicate Distinct(order: seq<Id>) {
    forall i, j :: 0 <= i < j < |order| ==> order[i] != order[j]
  }

  /** Everything about an entry that a rebalance leaves alone. */
  predicate SameButAssignment(e: Entry, e': Entry) {
    e' == e.(assignedLayers := e'.assignedLayers, state := e'.state)
  }

  function Activated(s: NodeState): NodeState {
    if s.Ready? then Active else s
  }

  /** What a rebalance may do to an entry: new layers, and Ready becomes Active. */
  predicate Rebalanced(e: Entry, e': Entry) {
    SameButAssignment(e, e') && e'.state == Activated(e.state)
  }

  /** The entry of a node that has received slice `j`. */
  predicate HasSlice(e: Entry, e': Entry, scores: seq<real>, total: nat, j: nat)
    requires j < |scores|
  {
    && SameButAssignment(e, e')
    && e'.assignedLayers == Range(Boundary(scores, total, j), Boundary(scores, total, j + 1))
    && e'.state == Activated(e.state)
  }

  lemma {:induction false} NotYetAssigned(nodes: Nodes, order: seq<Id>, scores: seq<real>, total: nat, i: nat, id: Id)
    requires i <= |order| == |scores| && id in nodes && id !in order[..i]
    ensures AssignUpTo(nodes, order, scores, total, i)[id] == nodes[id]
  {
    if i > 0 {
      assert order[..i] == order[..i - 1] + [order[i - 1]];
      NotYetAssigned(nodes, order, scores, total, i - 1, id);
    }
  }

  lemma {:induction false} AssignedOnce(nodes: Nodes, order: seq<Id>, scores: seq<real>, total: nat, i: nat, j: nat)
    requires j < i <= |order| == |scores| && Distinct(order) && order[j] in nodes
    ensures HasSlice(nodes[order[j]], AssignUpTo(nodes, order, scores, total, i)[order[j]], scores, total, j)
  {
    if j < i - 1 {
      AssignedOnce(nodes, order, scores, total, i - 1, j);
    } else {
      NotYetAssigned(nodes, order, scores, total, j, order[j]);
    }
  }

  /** What each node holds after the assignments: its slice, if it is in the order, and otherwise what it had. */
  lemma AssignedAll(nodes: Nodes, order: seq<Id>, scores: seq<real>, total: nat)
    requires |order| == |scores| && Distinct(order) && forall id :: id in order ==> id in nodes
    ensures var nodes' := AssignUpTo(nodes, order, scores, total, |order|);
            && (forall j :: 0 <= j < |order| ==> HasSlice(nodes[order[j]], nodes'[order[j]], scores, total, j))
            && (forall id :: id in nodes && id !in order ==> nodes'[id] == nodes[id])
  {
    var nodes' := AssignUpTo(nodes, order, scores, total, |order|);
    forall j | 0 <= j < |order|
      ensures HasSlice(nodes[order[j]], nodes'[order[j]], scores, total, j)
    {
      AssignedOnce(nodes, order, scores, total, |order|, j);
    }
    assert order[..|order|] == order;
    forall id | id in nodes && id !in order
      ensures nodes'[id] == nodes[id]
    {
      NotYetAssigned(nodes, order, scores, total, |order|, id);
    }
  }

  lemma RangesJoin(lo: nat, mid: nat, hi: nat)
    requires lo <= mid <= hi
    ensures Range(lo, mid) + Range(mid, hi) == Range(lo, hi)
  {
  }

  lemma LayersSnoc(nodes: Nodes, front: seq<Id>, last: Id)
    requires (forall id :: id in front ==> id in nodes) && last in nodes
    ensures LayersOf(nodes, front + [last]) == LayersOf(nodes, front) + nodes[last].assignedLayers
  {
    assert (front + [last])[..|front|] == front;
  }

  lemma {:induction false} SlicesJoin(nodes: Nodes, order: seq<Id>, cuts: seq<nat>, i: nat)
    requires i <= |order| && |cuts| == |order| + 1 && cuts[0] == 0
    requires forall id :: id in order ==> id in nodes
    requires forall j :: 0 <= j < |order| ==> 0 <= cuts[j] <= cuts[j + 1]
    requires forall j :: 0 <= j < |order| ==> nodes[order[j]].assignedLayers == Range(cuts[j], cuts[j + 1])
    ensures LayersOf(nodes, order[..i]) == Range(0, cuts[i])
  {
    if i > 0 {
      SlicesJoin(nodes, order, cuts, i - 1);
      assert order[..i] == order[..i - 1] + [order[i - 1]];
      LayersSnoc(nodes, order[..i - 1], order[i - 1]);
      RangesJoin(0, cuts[i - 1], cuts[i]);
    }
  }

  /** The boundaries of all slices. */
  function Boundaries(scores: seq<real>, total: nat): (cuts: seq<nat>)
    ensures |cuts| == |scores| + 1
  {
    seq(|scores| + 1, i requires 0 <= i <= |scores| => Boundary(scores, total, i))
  }

  lemma BoundariesAreCuts(scores: seq<real>, total: nat)
    ensures var cuts := Boundaries(scores, total);
            cuts[0] == 0 && forall j :: 0 <= j < |scores| ==> 0 <= cuts[j] <= cuts[j + 1]
  {
    forall j | 0 <= j < |scores|
      ensures Boundary(scores, total, j) <= Boundary(scores, total, j + 1)
    {
      BoundariesMonotone(scores, total, j);
    }
  }

  lemma OrderFacts(nodes: Nodes)
    ensures Distinct(Order(nodes)) && forall id :: id in Order(nodes) ==> id in nodes
    ensures forall id :: id in nodes ==> (id in Order(nodes) <==> CanAcceptTasks(nodes[id].state))
  {
    RankedDistinct(nodes, Order(nodes));
  }

  /** A rebalance changes entries only in their layers, and from Ready to Active. */
  lemma RebalancedEntries(cfg: Config, s: State)
    ensures Rebalance(cfg, s).nodes.Keys == s.nodes.Keys
    ensures forall id :: id in s.nodes ==> Rebalanced(s.nodes[id], Rebalance(cfg, s).nodes[id])
  {
    var order := Order(s.nodes);
    OrderFacts(s.nodes);
    AssignedAll(s.nodes, order, ScoresOf(s.nodes, order), cfg.total);
    var nodes' := Rebalance(cfg, s).nodes;
    forall id | id in s.nodes
      ensures Rebalanced(s.nodes[id], nodes'[id])
    {
      if id in order {
        var j :| 0 <= j < |order| && order[j] == id;
      }
    }
  }

  lemma AssignedTiles(nodes: Nodes, order: seq<Id>, scores: seq<real>, total: nat)
    requires |order| == |scores| > 0 && Distinct(order) && forall id :: id in order ==> id in nodes
    ensures LayersOf(AssignUpTo(nodes, order, scores, total, |order|), order) == Range(0, total)
  {
    AssignedAll(nodes, order, scores, total);
    BoundariesAreCuts(scores, total);
    assert order[..|order|] == order;
    SlicesJoin(AssignUpTo(nodes, order, scores, total, |order|), order, Boundaries(scores, total), |order|);
  }

  /** After a rebalance the serving nodes' layers, in order, are exactly the model's, each once. */
  lemma RebalanceTiles(cfg: Config, s: State)
    ensures var (order, s') := (Order(s.nodes), Rebalance(cfg, s));
            && s'.nodes.Keys == s.nodes.Keys
            && s'.pipeline == s.pipeline.(stages := Peers(cfg, order))
            && (order != [] ==> LayersOf(s'.nodes, order) == Range(0, cfg.total))
  {
    OrderFacts(s.nodes);
    if Order(s.nodes) != [] {
      AssignedTiles(s.nodes, Order(s.nodes), ScoresOf(s.nodes, Order(s.nodes)), cfg.total);
    }
  }

  /** A rebalance does not change the serving order. */
  lemma OrderAfterRebalance(cfg: Config, s: State)
    ensures Order(Rebalance(cfg, s).nodes) == Order(s.nodes)
  {
    var (order, nodes') := (Order(s.nodes), Rebalance(cfg, s).nodes);
    RebalancedEntries(cfg, s);
    OrderFacts(s.nodes);
    forall i, j | 0 <= i < j < |order|
      ensures Ahead(nodes', order[i], order[j])
    {
      assert Ahead(s.nodes, order[i], order[j]);
      assert Rebalanced(s.nodes[order[i]], nodes'[order[i]]) && Rebalanced(s.nodes[order[j]], nodes'[order[j]]);
    }
    forall id
      ensures id in ActiveIds(nodes') <==> id in order
    {
      if id in s.nodes {
        assert Rebalanced(s.nodes[id], nodes'[id]);
      }
    }
    OrderUnique(nodes', ActiveIds(nodes'), Order(nodes'), order);
  }

  // ---------------------------------------------------------------- the run invariant

  /** Derived data is up to date: capacities and reservations follow from profile and status. */
  predicate Derived(e: Entry) {
    && e.capacity == Compute(e.profile, e.status, e.reservation)
    && e.reservation == ForDevice(e.profile.deviceType)
  }

  /** Between operations a node is Active or Degraded, and a degraded one scores below the recovery threshold. */
  predicate Settled(e: Entry) {
    && Derived(e)
    && (e.state.Active? || e.state.Degraded?)
    && (e.state.Degraded? ==> e.capacity.composite < RECOVER_FROM)
  }

  predicate AllSettled(nodes: Nodes) {
    forall id :: id in nodes ==> Settled(nodes[id])
  }

  /** The stages come from an order of distinct registered nodes whose layers tile the model. */
  ghost predicate StagesFrom(cfg: Config, s: State, order: seq<Id>) {
    && Distinct(order)
    && (forall id :: id in order ==> id in s.nodes)
    && s.pipeline.stages == Peers(cfg, order)
    && (order != [] ==> LayersOf(s.nodes, order) == Range(0, cfg.total))
  }

  /** What every operation keeps. Draining the last node leaves the stage list as it was, with no node behind it. */
  ghost predicate Inv(cfg: Config, s: State) {
    && AllSettled(s.nodes)
    && (s.nodes == map[] || exists order :: StagesFrom(cfg, s, order))
  }

  /** Settled nodes, except that one may have just become ready. */
  predicate AlmostSettled(nodes: Nodes) {
    forall id :: id in nodes ==> Settled(nodes[id]) || (Derived(nodes[id]) && nodes[id].state.Ready?)
  }

  lemma RebalanceSettles(cfg: Config, s: State)
    requires AlmostSettled(s.nodes)
    ensures AllSettled(Rebalance(cfg, s).nodes)
  {
    RebalancedEntries(cfg, s);
    var nodes' := Rebalance(cfg, s).nodes;
    forall id | id in nodes'
      ensures Settled(nodes'[id])
    {
      assert Rebalanced(s.nodes[id], nodes'[id]);
    }
  }

  lemma RebalanceEstablishes(cfg: Config, s: State)
    requires AlmostSettled(s.nodes)
    ensures Inv(cfg, Rebalance(cfg, s))
  {
    RebalanceSettles(cfg, s);
    RebalanceTiles(cfg, s);
    OrderFacts(s.nodes);
    assert StagesFrom(cfg, Rebalance(cfg, s), Order(s.nodes));
  }

  /** Changes that leave the registered nodes and their layers alone keep the stages in place. */
  lemma StagesKept(cfg: Config, s: State, s': State)
    requires Inv(cfg, s) && s'.nodes.Keys == s.nodes.Keys && s'.pipeline.stages == s.pipeline.stages
    requires forall id :: id in s.nodes ==> s'.nodes[id].assignedLayers == s.nodes[id].assignedLayers
    requires AllSettled(s'.nodes)
    ensures Inv(cfg, s')
  {
    if s.nodes != map[] {
      var order :| StagesFrom(cfg, s, order);
      LayersKept(s.nodes, s'.nodes, order);
      assert StagesFrom(cfg, s', order);
    } else {
      assert s'.nodes == map[];
    }
  }

  lemma {:induction false} LayersKept(nodes: Nodes, nodes': Nodes, order: seq<Id>)
    requires forall id :: id in order ==> id in nodes && id in nodes'
    requires forall id :: id in order ==> nodes'[id].assignedLayers == nodes[id].assignedLayers
    ensures LayersOf(nodes', order) == LayersOf(nodes, order)
  {
    if order != [] {
      LayersKept(nodes, nodes', order[..|order| - 1]);
    }
  }

  lemma JoinKeeps(cfg: Config, s: State, id: Id, profile: Profile, status: Status, now: nat)
    requires Inv(cfg, s)
    ensures Inv(cfg, Announce(cfg, s, id, profile, status, now))
  {
    var nodes := MarkReady(Register(s.nodes, id, profile, now), id, status).value;
    RebalanceEstablishes(cfg, s.(nodes := nodes));
  }

  lemma ReportSettles(nodes: Nodes, id: Id, status: Status, now: nat)
    requires AllSettled(nodes) && id in nodes
    ensures AllSettled(nodes[id := Reported(nodes[id], status, now)])
  {
  }

  lemma ReportKeeps(cfg: Config, s: State, id: Id, status: Status, now: nat)
    requires Inv(cfg, s)
    ensures Inv(cfg, ReportStatus(cfg, s, id, status, now).1)
  {
    if id in s.nodes {
      ReportSettles(s.nodes, id, status, now);
      var e := Reported(s.nodes[id], status, now);
      var s1 := s.(nodes := s.nodes[id := e]);
      if Significant(s.nodes[id], e) {
        RebalanceEstablishes(cfg, s1);
      } else {
        StagesKept(cfg, s, s1);
      }
    }
  }

  lemma WithoutKeeps(cfg: Config, s: State, ids: set<Id>)
    requires Inv(cfg, s)
    ensures Inv(cfg, Without(cfg, s, ids))
  {
    RebalanceEstablishes(cfg, s.(nodes := s.nodes - ids));
  }

  lemma StepKeeps(cfg: Config, s: State, op: Op)
    requires Inv(cfg, s)
    ensures Inv(cfg, Step(cfg, s, op))
  {
    match op {
      case Join(id, profile, status, now) => JoinKeeps(cfg, s, id, profile, status, now);
      case Report(id, status, now) => ReportKeeps(cfg, s, id, status, now);
      case Beat(id, now) => StagesKept(cfg, s, Step(cfg, s, op));
      case Drain(id) => WithoutKeeps(cfg, s, {id});
      case PruneDead(timeout, now) => WithoutKeeps(cfg, s, Expired(s.nodes, timeout, now));
      case Traffic(event) => StagesKept(cfg, s, Step(cfg, s, op));
    }
  }

  /** The invariant holds after every run of operations, in any order. */
  lemma {:induction false} RunKeeps(cfg: Config, ops: seq<Op>)
    ensures Inv(cfg, Run(cfg, ops))
  {
    if ops != [] {
      RunKeeps(cfg, ops[..|ops| - 1]);
      StepKeeps(cfg, Run(cfg, ops[..|ops| - 1]), ops[|ops| - 1]);
    }
  }

  // ---------------------------------------------------------------- the last rebalance

  function Remaining(s: State, ids: set<Id>): Option<State> {
    var s' := s.(nodes := s.nodes - ids);
    if s'.nodes == map[] then None else Some(s')
  }

  /** The state that an operation rebalances, if it does: with the registry whose scores decide the slices. */
  function Balanced(s: State, op: Op): Option<State> {
    match op
    case Join(id, profile, status, now) =>
      var ready := MarkReady(Register(s.nodes, id, profile, now), id, status);
      if ready.Ok? then Some(s.(nodes := ready.value)) else None
    case Report(id, status, now) =>
      var updated := UpdateStatus(s.nodes, id, status, now);
      if updated.Ok? && updated.value.1 then Some(s.(nodes := updated.value.0)) else None
    case Drain(id) => Remaining(s, {id})
    case PruneDead(timeout, now) =>
      if Expired(s.nodes, timeout, now) == {} then None else Remaining(s, Expired(s.nodes, timeout, now))
    case Beat(_, _) => None
    case Traffic(_) => None
  }

  lemma StepRebalances(cfg: Config, s: State, op: Op)
    ensures Balanced(s, op).Some? ==> Step(cfg, s, op) == Rebalance(cfg, Balanced(s, op).value)
  {
  }

  /** What the last rebalance of a run worked on; the empty state if there was none. */
  ghost function LastBalanced(cfg: Config, ops: seq<Op>): State {
    if ops == [] then INITIAL else
      var front := ops[..|ops| - 1];
      var b := Balanced(Run(cfg, front), ops[|ops| - 1]);
      if b.Some? then b.value else LastBalanced(cfg, front)
  }

  /** The order in which the last rebalance of a run dealt out the layers, and its scores. */
  ghost function LastOrder(cfg: Config, ops: seq<Op>): seq<Id> {
    Order(LastBalanced(cfg, ops).nodes)
  }

  ghost function LastScores(cfg: Config, ops: seq<Op>): seq<real> {
    ScoresOf(LastBalanced(cfg, ops).nodes, LastOrder(cfg, ops))
  }

  /** `s` has the nodes, the stages and the layers of a rebalance of `b`. */
  ghost predicate FollowsFrom(cfg: Config, s: State, b: State) {
    && AlmostSettled(b.nodes)
    && s.nodes.Keys == b.nodes.Keys == Rebalance(cfg, b).nodes.Keys
    && s.pipeline.stages == Peers(cfg, Order(b.nodes))
    && forall id :: id in s.nodes ==> s.nodes[id].assignedLayers == Rebalance(cfg, b).nodes[id].assignedLayers
  }

  lemma RebalanceFollows(cfg: Config, b: State)
    requires AlmostSettled(b.nodes)
    ensures FollowsFrom(cfg, Rebalance(cfg, b), b)
  {
    RebalanceTiles(cfg, b);
  }

  lemma BalancedAlmostSettled(cfg: Config, s: State, op: Op)
    requires AllSettled(s.nodes) && Balanced(s, op).Some?
    ensures AlmostSettled(Balanced(s, op).value.nodes)
  {
    match op {
      case Join(_, _, _, _) =>
      case Report(id, status, now) => ReportSettles(s.nodes, id, status, now);
      case Drain(_) =>
      case PruneDead(_, _) =>
      case Beat(_, _) =>
      case Traffic(_) =>
    }
  }

  /** An operation without a rebalance leaves nodes, layers and stages alone, or leaves no node. */
  lemma UnbalancedKeeps(cfg: Config, s: State, op: Op)
    requires Balanced(s, op).None?
    ensures var s' := Step(cfg, s, op);
            s'.nodes == map[] ||
            (&& s'.nodes.Keys == s.nodes.Keys && s'.pipeline.stages == s.pipeline.stages
             && forall id :: id in s.nodes ==> s'.nodes[id].assignedLayers == s.nodes[id].assignedLayers)
  {
  }

  lemma NothingFromNothing(cfg: Config, s: State, op: Op)
    requires Balanced(s, op).None? && s.nodes == map[]
    ensures Step(cfg, s, op).nodes == map[]
  {
  }

  lemma FollowerKept(cfg: Config, s: State, s': State, b: State)
    requires FollowsFrom(cfg, s, b)
    requires s'.nodes.Keys == s.nodes.Keys && s'.pipeline.stages == s.pipeline.stages
    requires forall id :: id in s.nodes ==> s'.nodes[id].assignedLayers == s.nodes[id].assignedLayers
    ensures FollowsFrom(cfg, s', b)
  {
  }

  lemma StepFollows(cfg: Config, s: State, b: State, op: Op)
    requires AllSettled(s.nodes) && (s.nodes == map[] || FollowsFrom(cfg, s, b))
    requires Step(cfg, s, op).nodes != map[]
    ensures FollowsFrom(cfg, Step(cfg, s, op), if Balanced(s, op).Some? then Balanced(s, op).value else b)
  {
    if Balanced(s, op).Some? {
      BalancedAlmostSettled(cfg, s, op);
      StepRebalances(cfg, s, op);
      RebalanceFollows(cfg, Balanced(s, op).value);
    } else {
      UnbalancedKeeps(cfg, s, op);
      if s.nodes == map[] {
        NothingFromNothing(cfg, s, op);
      } else {
        FollowerKept(cfg, s, Step(cfg, s, op), b);
      }
    }
  }

  /** After every run, as long as some node is registered, stages and layers are those of the last rebalance. */
  lemma {:induction false} RunFollows(cfg: Config, ops: seq<Op>)
    requires Run(cfg, ops).nodes != map[]
    ensures FollowsFrom(cfg, Run(cfg, ops), LastBalanced(cfg, ops))
  {
    var front := ops[..|ops| - 1];
    RunKeeps(cfg, front);
    if Run(cfg, front).nodes != map[] {
      RunFollows(cfg, front);
    }
    StepFollows(cfg, Run(cfg, front), LastBalanced(cfg, front), ops[|ops| - 1]);
  }

  // ---------------------------------------------------------------- nodes that are not peers

  predicate AllPeers(cfg: Config, order: seq<Id>) {
    forall i :: 0 <= i < |order| ==> cfg.isPeer(order[i])
  }

  /** Nodes that are not peers, and so were dropped from the stages, hold no layers. */
  predicate DroppedAreIdle(cfg: Config, nodes: Nodes, order: seq<Id>)
    requires forall id :: id in order ==> id in nodes
  {
    forall i :: 0 <= i < |order| && !cfg.isPeer(order[i]) ==> nodes[order[i]].assignedLayers == []
  }

  lemma {:induction false} PeersWithin(cfg: Config, order: seq<Id>)
    ensures forall id :: id in Peers(cfg, order) ==> id in order
    ensures Distinct(order) ==> Distinct(Peers(cfg, order))
    ensures AllPeers(cfg, order) ==> Peers(cfg, order) == order
  {
    if order != [] {
      var (front, last) := (order[..|order| - 1], order[|order| - 1]);
      PeersWithin(cfg, front);
      assert order == front + [last];
      if Distinct(order) {
        assert last !in front;
      }
    }
  }

  /** Leaving out the nodes that are no peers leaves out layers, unless those nodes hold none. */
  lemma {:induction false} PeersLayers(cfg: Config, nodes: Nodes, order: seq<Id>)
    requires forall id :: id in order ==> id in nodes
    ensures forall id :: id in Peers(cfg, order) ==> id in nodes
    ensures if DroppedAreIdle(cfg, nodes, order) then LayersOf(nodes, Peers(cfg, order)) == LayersOf(nodes, order)
            else |LayersOf(nodes, Peers(cfg, order))| < |LayersOf(nodes, order)|
  {
    PeersWithin(cfg, order);
    if order != [] {
      var (front, last) := (order[..|order| - 1], order[|order| - 1]);
      assert order == front + [last];
      PeersLayers(cfg, nodes, front);
      DroppedSnoc(cfg, nodes, front, last);
      PeersSnoc(cfg, nodes, front, last);
    }
  }

  lemma PeersSnoc(cfg: Config, nodes: Nodes, front: seq<Id>, last: Id)
    requires (forall id :: id in front ==> id in nodes) && last in nodes
    requires forall id :: id in Peers(cfg, front) ==> id in nodes
    ensures forall id :: id in Peers(cfg, front + [last]) ==> id in nodes
    ensures LayersOf(nodes, front + [last]) == LayersOf(nodes, front) + nodes[last].assignedLayers
    ensures LayersOf(nodes, Peers(cfg, front + [last]))
         == LayersOf(nodes, Peers(cfg, front)) + if cfg.isPeer(last) then nodes[last].assignedLayers else []
  {
    assert (front + [last])[..|front|] == front;
    LayersSnoc(nodes, front, last);
    if cfg.isPeer(last) {
      LayersSnoc(nodes, Peers(cfg, front), last);
    } else {
      assert Peers(cfg, front) + [] == Peers(cfg, front);
    }
  }

  lemma DroppedSnoc(cfg: Config, nodes: Nodes, front: seq<Id>, last: Id)
    requires (forall id :: id in front ==> id in nodes) && last in nodes
    ensures DroppedAreIdle(cfg, nodes, front + [last])
       <==> DroppedAreIdle(cfg, nodes, front) && (cfg.isPeer(last) || nodes[last].assignedLayers == [])
  {
    var order := front + [last];
    assert order[|front|] == last;
    assert forall i :: 0 <= i < |front| ==> order[i] == front[i];
  }

  /** The stages of an order, and when they tile the model. */
  ghost predicate StagesDrawn(cfg: Config, s: State, order: seq<Id>) {
    && (forall id :: id in order ==> id in s.nodes)
    && s.pipeline.stages == Peers(cfg, order)
    && Distinct(s.pipeline.stages) && (forall id :: id in s.pipeline.stages ==> id in s.nodes)
    && (order != [] ==>
          (LayersOf(s.nodes, s.pipeline.stages) == Range(0, cfg.total) <==> DroppedAreIdle(cfg, s.nodes, order)))
  }

  lemma StagesFromDrawn(cfg: Config, s: State, order: seq<Id>)
    requires StagesFrom(cfg, s, order)
    ensures StagesDrawn(cfg, s, order)
  {
    PeersWithin(cfg, order);
    PeersLayers(cfg, s.nodes, order);
  }

  /** The layers of a follower of `b`, by slice. */
  lemma FollowerSlices(cfg: Config, s: State, b: State, i: nat)
    requires FollowsFrom(cfg, s, b) && i < |Order(b.nodes)|
    ensures var (order, scores) := (Order(b.nodes), ScoresOf(b.nodes, Order(b.nodes)));
            && order[i] in s.nodes
            && s.nodes[order[i]].assignedLayers
               == Range(Boundary(scores, cfg.total, i), Boundary(scores, cfg.total, i + 1))
            && |s.nodes[order[i]].assignedLayers| == Count(scores, cfg.total, i)
  {
    var order := Order(b.nodes);
    OrderFacts(b.nodes);
    AssignedAll(b.nodes, order, ScoresOf(b.nodes, order), cfg.total);
    assert order[i] in order;
    BoundariesMonotone(ScoresOf(b.nodes, order), cfg.total, i);
  }

  lemma FollowerStages(cfg: Config, s: State, b: State)
    requires FollowsFrom(cfg, s, b)
    ensures StagesFrom(cfg, s, Order(b.nodes))
  {
    OrderFacts(b.nodes);
    RebalanceTiles(cfg, b);
    LayersKept(Rebalance(cfg, b).nodes, s.nodes, Order(b.nodes));
  }

  /** Every node that is not a peer was dealt no layer. */
  predicate NonPeersDealtNone(cfg: Config, order: seq<Id>, scores: seq<real>)
    requires |order| == |scores|
  {
    forall i :: 0 <= i < |order| && !cfg.isPeer(order[i]) ==> Count(scores, cfg.total, i) == 0
  }

  lemma FollowerDropped(cfg: Config, s: State, b: State)
    requires FollowsFrom(cfg, s, b) && forall id :: id in Order(b.nodes) ==> id in s.nodes
    ensures DroppedAreIdle(cfg, s.nodes, Order(b.nodes))
       <==> NonPeersDealtNone(cfg, Order(b.nodes), ScoresOf(b.nodes, Order(b.nodes)))
  {
    var (order, scores) := (Order(b.nodes), ScoresOf(b.nodes, Order(b.nodes)));
    forall i | 0 <= i < |order|
      ensures s.nodes[order[i]].assignedLayers == [] <==> Count(scores, cfg.total, i) == 0
    {
      FollowerSlices(cfg, s, b, i);
    }
  }

  /**
   After every run, while some node is registered: the stages are the peers among the nodes of the last
   rebalance, in its order, they are distinct and registered, and their layers in stage order are exactly the
   model's, each once, if and only if that rebalance dealt no layer to a node that is not a peer.
   */
  lemma StagesTileModel(cfg: Config, ops: seq<Op>)
    requires Run(cfg, ops).nodes != map[]
    ensures StagesFrom(cfg, Run(cfg, ops), LastOrder(cfg, ops))
    ensures StagesDrawn(cfg, Run(cfg, ops), LastOrder(cfg, ops))
    ensures LastOrder(cfg, ops) != [] ==>
              (LayersOf(Run(cfg, ops).nodes, Run(cfg, ops).pipeline.stages) == Range(0, cfg.total)
               <==> NonPeersDealtNone(cfg, LastOrder(cfg, ops), LastScores(cfg, ops)))
  {
    RunFollows(cfg, ops);
    FollowerStages(cfg, Run(cfg, ops), LastBalanced(cfg, ops));
    StagesFromDrawn(cfg, Run(cfg, ops), LastOrder(cfg, ops));
    FollowerDropped(cfg, Run(cfg, ops), LastBalanced(cfg, ops));
  }

  /** The stages name registered nodes exactly as long as some node is registered, or there are no stages. */
  lemma StagesAreRegistered(cfg: Config, ops: seq<Op>)
    ensures var s := Run(cfg, ops);
            (forall id :: id in s.pipeline.stages ==> id in s.nodes) <==> s.nodes != map[] || s.pipeline.stages == []
  {
    var s := Run(cfg, ops);
    if s.nodes != map[] {
      StagesTileModel(cfg, ops);
    } else if s.pipeline.stages != [] {
      assert s.pipeline.stages[0] in s.pipeline.stages;
    }
  }

  /** While a node is registered, and all registered ids are peer ids, non-empty stages always tile the model. */
  lemma PeerStagesTileModel(cfg: Config, ops: seq<Op>)
    requires Run(cfg, ops).nodes != map[] && Run(cfg, ops).pipeline.stages != []
    requires forall id :: id in Run(cfg, ops).nodes ==> cfg.isPeer(id)
    ensures Distinct(Run(cfg, ops).pipeline.stages)
    ensures forall id :: id in Run(cfg, ops).pipeline.stages ==> id in Run(cfg, ops).nodes
    ensures LayersOf(Run(cfg, ops).nodes, Run(cfg, ops).pipeline.stages) == Range(0, cfg.total)
  {
    StagesTileModel(cfg, ops);
    PeersWithin(cfg, LastOrder(cfg, ops));
  }

  // ---------------------------------------------------------------- nodes without layers

  lemma FollowerServesAll(cfg: Config, s: State, b: State)
    requires FollowsFrom(cfg, s, b) && Order(b.nodes) != []
    ensures forall id :: id in Order(b.nodes) ==> id in s.nodes
    ensures (forall id :: id in Order(b.nodes) ==> s.nodes[id].assignedLayers != [])
       <==> LeavesNoneOut(ScoresOf(b.nodes, Order(b.nodes)), cfg.total)
  {
    var (order, scores) := (Order(b.nodes), ScoresOf(b.nodes, Order(b.nodes)));
    OrderFacts(b.nodes);
    RankedDescending(b.nodes, order);
    NoneLeftOut(scores, cfg.total);
    forall i | 0 <= i < |order|
      ensures s.nodes[order[i]].assignedLayers != [] <==> Count(scores, cfg.total, i) > 0
    {
      FollowerSlices(cfg, s, b, i);
    }
    assert (forall id :: id in order ==> s.nodes[id].assignedLayers != [])
      <==> forall i :: 0 <= i < |order| ==> s.nodes[order[i]].assignedLayers != [];
  }

  /** After a rebalance every serving node holds a layer if and only if the scores leave none out. */
  lemma RebalanceServesAll(cfg: Config, s: State)
    requires AlmostSettled(s.nodes) && Order(s.nodes) != []
    ensures var (order, nodes') := (Order(s.nodes), Rebalance(cfg, s).nodes);
            && (forall id :: id in order ==> id in nodes')
            && ((forall id :: id in order ==> nodes'[id].assignedLayers != [])
                <==> LeavesNoneOut(ScoresOf(s.nodes, order), cfg.total))
  {
    RebalanceFollows(cfg, s);
    FollowerServesAll(cfg, Rebalance(cfg, s), s);
  }

  /** After every run the nodes of the last rebalance all hold layers if and only if its scores left none out. */
  lemma RunServesAll(cfg: Config, ops: seq<Op>)
    requires Run(cfg, ops).nodes != map[] && LastOrder(cfg, ops) != []
    ensures forall id :: id in LastOrder(cfg, ops) ==> id in Run(cfg, ops).nodes
    ensures (forall id :: id in LastOrder(cfg, ops) ==> Run(cfg, ops).nodes[id].assignedLayers != [])
       <==> LeavesNoneOut(LastScores(cfg, ops), cfg.total)
  {
    RunFollows(cfg, ops);
    FollowerServesAll(cfg, Run(cfg, ops), LastBalanced(cfg, ops));
  }

  // ---------------------------------------------------------------- lifecycle

  predicate LegalChange(before: NodeState, after: NodeState) {
    before == after || CanTransition(before, after)
  }

  lemma RebalanceLegal(cfg: Config, s: State, id: Id)
    requires id in s.nodes
    ensures id in Rebalance(cfg, s).nodes && LegalChange(s.nodes[id].state, Rebalance(cfg, s).nodes[id].state)
    ensures !s.nodes[id].state.Ready? ==> Rebalance(cfg, s).nodes[id].state == s.nodes[id].state
  {
    RebalancedEntries(cfg, s);
  }

  /** Every change of state of a node that stays registered, and does not announce itself anew, is a legal one. */
  lemma LegalTransitions(cfg: Config, s: State, op: Op, id: Id)
    requires Inv(cfg, s) && id in s.nodes && id in Step(cfg, s, op).nodes
    requires !(op.Join? && op.id == id)
    ensures LegalChange(s.nodes[id].state, Step(cfg, s, op).nodes[id].state)
  {
    match op {
      case Join(id', profile, status, now) =>
        RebalanceLegal(cfg, s.(nodes := MarkReady(Register(s.nodes, id', profile, now), id', status).value), id);
      case Report(id', status, now) =>
        if id' in s.nodes {
          RebalanceLegal(cfg, s.(nodes := UpdateStatus(s.nodes, id', status, now).value.0), id);
        }
      case Beat(_, _) =>
      case Drain(id') =>
        RebalanceLegal(cfg, s.(nodes := s.nodes - {id'}), id);
      case PruneDead(timeout, now) =>
        if id !in Expired(s.nodes, timeout, now) {
          RebalanceLegal(cfg, s.(nodes := s.nodes - Expired(s.nodes, timeout, now)), id);
        }
      case Traffic(_) =>
    }
  }

  /**
   The announcing node passes from Joining through Ready to Active, in the registries that the operation goes
   through, and each change is legal.
   */
  lemma AnnouncedStepByStep(cfg: Config, s: State, id: Id, profile: Profile, status: Status, now: nat)
    ensures var joined := Register(s.nodes, id, profile, now);
            var ready := MarkReady(joined, id, status);
            var active := Announce(cfg, s, id, profile, status, now).nodes;
            && ready.Ok? && id in joined && id in ready.value && id in active
            && joined[id].state == Joining && ready.value[id].state == Ready && active[id].state == Active
            && CanTransition(joined[id].state, ready.value[id].state)
            && CanTransition(ready.value[id].state, active[id].state)
  {
    var ready := MarkReady(Register(s.nodes, id, profile, now), id, status).value;
    RebalancedEntries(cfg, s.(nodes := ready));
    assert Rebalanced(ready[id], Rebalance(cfg, s.(nodes := ready)).nodes[id]) by {
      assert id in ready;
    }
    assert id in ActiveIds(ready);
  }

  /** A node that announces itself ends up active, whatever it was before. */
  lemma JoinedIsActive(cfg: Config, s: State, id: Id, profile: Profile, status: Status, now: nat)
    requires Inv(cfg, s)
    ensures var s' := Announce(cfg, s, id, profile, status, now);
            && s'.nodes.Keys == s.nodes.Keys + {id}
            && s'.nodes[id].state == Active
            && s'.nodes[id].profile == profile && s'.nodes[id].status == status
            && s'.nodes[id].capacity == Compute(profile, status, ForDevice(profile.deviceType))
            && s'.nodes[id].reservation == ForDevice(profile.deviceType)
  {
    RebalancedEntries(cfg, s.(nodes := MarkReady(Register(s.nodes, id, profile, now), id, status).value));
  }

  // ---------------------------------------------------------------- who serves

  /** The first of two serving nodes: the higher score, and on equal scores the smaller id. */
  predicate Earlier(nodes: Nodes, a: Id, b: Id)
    requires a in nodes && b in nodes
  {
    var (x, y) := (nodes[a].capacity.composite, nodes[b].capacity.composite);
    x > y || (x == y && StrLess(a, b))
  }

  /** The active nodes hold the layers 0 to `total` - 1 between them, each layer at exactly one node. */
  ghost predicate DealtOnce(nodes: Nodes, total: nat) {
    && (forall id, l: nat :: OwnsActively(nodes, id, l) ==> l < total)
    && (forall id, id', l: nat :: OwnsActively(nodes, id, l) && OwnsActively(nodes, id', l) ==> id == id')
    && ((exists id :: id in nodes && nodes[id].state.Active?) ==>
          forall l: nat :: l < total ==> HasOwner(nodes, l))
  }

  ghost predicate HasOwner(nodes: Nodes, l: nat) {
    exists id :: OwnsActively(nodes, id, l)
  }

  predicate OwnsActively(nodes: Nodes, id: Id, l: nat) {
    id in nodes && nodes[id].state.Active? && l in nodes[id].assignedLayers
  }

  /** The stages are exactly the active peers, the better ones first, and the active nodes hold the model. */
  ghost predicate ServedNow(cfg: Config, s: State) {
    && Distinct(s.pipeline.stages)
    && (forall id :: id in s.pipeline.stages <==> id in s.nodes && s.nodes[id].state.Active? && cfg.isPeer(id))
    && (forall i, j :: 0 <= i < j < |s.pipeline.stages| ==>
          Earlier(s.nodes, s.pipeline.stages[i], s.pipeline.stages[j]))
    && DealtOnce(s.nodes, cfg.total)
  }

  lemma OrderIsServing(nodes: Nodes, id: Id)
    ensures id in Order(nodes) <==> id in nodes && (nodes[id].state.Active? || nodes[id].state.Ready?)
  {
  }

  /** A node that neither is active nor has just become ready is left alone by a rebalance, with its old layers. */
  lemma RebalanceKeepsIdle(cfg: Config, s: State, id: Id)
    requires id in s.nodes && !s.nodes[id].state.Active? && !s.nodes[id].state.Ready?
    ensures id in Rebalance(cfg, s).nodes && Rebalance(cfg, s).nodes[id] == s.nodes[id]
  {
    var order := Order(s.nodes);
    OrderFacts(s.nodes);
    OrderIsServing(s.nodes, id);
    AssignedAll(s.nodes, order, ScoresOf(s.nodes, order), cfg.total);
  }

  lemma RebalanceActivates(cfg: Config, s: State, id: Id)
    ensures var nodes' := Rebalance(cfg, s).nodes;
            id in Order(s.nodes) <==> id in nodes' && nodes'[id].state.Active?
  {
    RebalancedEntries(cfg, s);
    OrderIsServing(s.nodes, id);
    assert id in s.nodes ==> Rebalanced(s.nodes[id], Rebalance(cfg, s).nodes[id]);
  }

  lemma {:induction false} InLayersOf(nodes: Nodes, order: seq<Id>, l: nat)
    requires (forall id :: id in order ==> id in nodes) && l in LayersOf(nodes, order)
    ensures exists id :: id in order && l in nodes[id].assignedLayers
  {
    var (front, last) := (order[..|order| - 1], order[|order| - 1]);
    if l in LayersOf(nodes, front) {
      InLayersOf(nodes, front, l);
    } else {
      assert last in order && l in nodes[last].assignedLayers;
    }
  }

  /** The slice of the i-th node of the order, in a rebalanced registry. */
  lemma DealtSlice(cfg: Config, s: State, i: nat)
    requires i < |Order(s.nodes)|
    ensures var (order, scores, nodes') := (Order(s.nodes), ScoresOf(s.nodes, Order(s.nodes)), Rebalance(cfg, s).nodes);
            && order[i] in nodes'
            && nodes'[order[i]].assignedLayers
               == Range(Boundary(scores, cfg.total, i), Boundary(scores, cfg.total, i + 1))
  {
    var order := Order(s.nodes);
    OrderFacts(s.nodes);
    assert order[i] in order;
    AssignedOnce(s.nodes, order, ScoresOf(s.nodes, order), cfg.total, |order|, i);
  }

  /** A layer that two slices have in common makes them the same slice. */
  lemma SlicesDisjoint(scores: seq<real>, total: nat, i: nat, j: nat, l: nat)
    requires i < |scores| && j < |scores|
    requires l in Range(Boundary(scores, total, i), Boundary(scores, total, i + 1))
    requires l in Range(Boundary(scores, total, j), Boundary(scores, total, j + 1))
    ensures i == j && l < total
  {
    if i < j {
      BoundariesOrdered(scores, total, i + 1, j);
    } else if j < i {
      BoundariesOrdered(scores, total, j + 1, i);
    }
  }

  lemma LayerHasOwner(cfg: Config, s: State, l: nat)
    requires Order(s.nodes) != [] && l < cfg.total
    ensures HasOwner(Rebalance(cfg, s).nodes, l)
  {
    var (order, nodes') := (Order(s.nodes), Rebalance(cfg, s).nodes);
    RebalanceTiles(cfg, s);
    OrderFacts(s.nodes);
    assert Range(0, cfg.total)[l] == l;
    InLayersOf(nodes', order, l);
    var owner :| owner in order && l in nodes'[owner].assignedLayers;
    RebalanceActivates(cfg, s, owner);
    assert OwnsActively(nodes', owner, l);
  }

  lemma OwnedOnce(cfg: Config, s: State, id: Id, id': Id, l: nat)
    requires OwnsActively(Rebalance(cfg, s).nodes, id, l) && OwnsActively(Rebalance(cfg, s).nodes, id', l)
    ensures id == id' && l < cfg.total
  {
    var order := Order(s.nodes);
    RebalanceActivates(cfg, s, id);
    RebalanceActivates(cfg, s, id');
    var i :| 0 <= i < |order| && order[i] == id;
    var j :| 0 <= j < |order| && order[j] == id';
    DealtSlice(cfg, s, i);
    DealtSlice(cfg, s, j);
    SlicesDisjoint(ScoresOf(s.nodes, order), cfg.total, i, j, l);
  }

  lemma RebalanceDealsOnce(cfg: Config, s: State)
    ensures DealtOnce(Rebalance(cfg, s).nodes, cfg.total)
  {
    var nodes' := Rebalance(cfg, s).nodes;
    forall id, id', l: nat | OwnsActively(nodes', id, l) && OwnsActively(nodes', id', l)
      ensures id == id' && l < cfg.total
    {
      OwnedOnce(cfg, s, id, id', l);
    }
    assert (exists id :: id in nodes' && nodes'[id].state.Active?) ==> Order(s.nodes) != [] by {
      if exists id :: id in nodes' && nodes'[id].state.Active? {
        var id :| id in nodes' && nodes'[id].state.Active?;
        RebalanceActivates(cfg, s, id);
      }
    }
    if exists id :: id in nodes' && nodes'[id].state.Active? {
      forall l: nat | l < cfg.total
        ensures HasOwner(nodes', l)
      {
        LayerHasOwner(cfg, s, l);
      }
    }
  }

  lemma {:induction false} PeersListed(cfg: Config, order: seq<Id>)
    ensures forall id :: id in Peers(cfg, order) <==> id in order && cfg.isPeer(id)
  {
    if order != [] {
      PeersListed(cfg, order[..|order| - 1]);
      assert order == order[..|order| - 1] + [order[|order| - 1]];
    }
  }

  lemma {:induction false} PeersKeepOrder(cfg: Config, nodes: Nodes, order: seq<Id>)
    requires Ranked(nodes, order)
    ensures Ranked(nodes, Peers(cfg, order))
    ensures forall id :: id in Peers(cfg, order) <==> id in order && cfg.isPeer(id)
  {
    PeersListed(cfg, order);
    if order != [] {
      var (front, last) := (order[..|order| - 1], order[|order| - 1]);
      PeersKeepOrder(cfg, nodes, front);
      forall id | id in Peers(cfg, front)
        ensures Ahead(nodes, id, last)
      {
        var i :| 0 <= i < |front| && front[i] == id;
        assert order[i] == id && order[|front|] == last;
      }
    }
  }

  lemma StagesRanked(cfg: Config, s: State)
    ensures var s' := Rebalance(cfg, s);
            && Ranked(s'.nodes, s'.pipeline.stages) && Distinct(s'.pipeline.stages)
            && forall id :: id in s'.pipeline.stages <==> id in Order(s.nodes) && cfg.isPeer(id)
  {
    var s' := Rebalance(cfg, s);
    RebalanceTiles(cfg, s);
    OrderAfterRebalance(cfg, s);
    PeersKeepOrder(cfg, s'.nodes, Order(s.nodes));
    RankedDistinct(s'.nodes, s'.pipeline.stages);
  }

  lemma RankedIsEarlier(nodes: Nodes, order: seq<Id>)
    requires Ranked(nodes, order)
    ensures forall i, j :: 0 <= i < j < |order| ==> Earlier(nodes, order[i], order[j])
  {
    forall i, j | 0 <= i < j < |order|
      ensures Earlier(nodes, order[i], order[j])
    {
      assert Ahead(nodes, order[i], order[j]);
    }
  }

  /** After a rebalance the stages are exactly the active peers, in order, and the active nodes hold the model. */
  lemma RebalanceServesNow(cfg: Config, s: State)
    ensures ServedNow(cfg, Rebalance(cfg, s))
    ensures forall id :: id in Rebalance(cfg, s).pipeline.stages
              <==> id in s.nodes && (s.nodes[id].state.Active? || s.nodes[id].state.Ready?) && cfg.isPeer(id)
  {
    var s' := Rebalance(cfg, s);
    RebalanceDealsOnce(cfg, s);
    StagesRanked(cfg, s);
    RankedIsEarlier(s'.nodes, s'.pipeline.stages);
    forall id
      ensures id in s'.pipeline.stages <==> id in s'.nodes && s'.nodes[id].state.Active? && cfg.isPeer(id)
    {
      RebalanceActivates(cfg, s, id);
      OrderIsServing(s.nodes, id);
    }
  }

  /** The operation must deal out the layers anew: a node comes or goes, or its score moves by more than 0.15. */
  predicate MustRebalance(s: State, op: Op) {
    match op
    case Join(_, _, _, _) => true
    case Report(id, status, _) =>
      id in s.nodes &&
      var e := s.nodes[id];
      Abs(Compute(e.profile, status, e.reservation).composite - e.capacity.composite) > 0.15
    case Drain(id) => s.nodes.Keys - {id} != {}
    case PruneDead(timeout, now) =>
      && (exists id :: id in s.nodes && TooLong(s.nodes[id].lastHeartbeat, timeout, now))
      && (exists id :: id in s.nodes && !TooLong(s.nodes[id].lastHeartbeat, timeout, now))
    case Beat(_, _) => false
    case Traffic(_) => false
  }

  lemma PruneRebalances(s: State, timeout: nat, now: nat)
    ensures Balanced(s, PruneDead(timeout, now)).Some? <==> MustRebalance(s, PruneDead(timeout, now))
  {
    var dead := Expired(s.nodes, timeout, now);
    var rest := s.nodes - dead;
    forall id
      ensures id in rest <==> id in s.nodes && !TooLong(s.nodes[id].lastHeartbeat, timeout, now)
    {
    }
    if rest != map[] {
      var live :| live in rest.Keys;
      assert live in s.nodes && !TooLong(s.nodes[live].lastHeartbeat, timeout, now);
    }
    if dead != {} {
      var gone :| gone in dead;
      assert gone in s.nodes && TooLong(s.nodes[gone].lastHeartbeat, timeout, now);
    }
  }

  /** Exactly these operations rebalance. */
  lemma RebalancesExactly(s: State, op: Op)
    ensures Balanced(s, op).Some? <==> MustRebalance(s, op)
  {
    if op.Drain? {
      assert (s.nodes - {op.id}).Keys == s.nodes.Keys - {op.id};
    } else if op.PruneDead? {
      PruneRebalances(s, op.timeout, op.now);
    }
  }

  /** After every such operation the stages are exactly the active peers, and the active nodes hold the model. */
  lemma ServedAfter(cfg: Config, s: State, op: Op)
    requires MustRebalance(s, op)
    ensures ServedNow(cfg, Step(cfg, s, op))
  {
    RebalancesExactly(s, op);
    StepRebalances(cfg, s, op);
    RebalanceServesNow(cfg, Balanced(s, op).value);
  }

  /** A node that was degraded at the last rebalance of a run is no stage. */
  lemma DegradedAreLeftOut(cfg: Config, ops: seq<Op>, id: Id)
    requires Run(cfg, ops).nodes != map[]
    requires id in LastBalanced(cfg, ops).nodes && LastBalanced(cfg, ops).nodes[id].state == Degraded
    ensures id !in LastOrder(cfg, ops) && id !in Run(cfg, ops).pipeline.stages
    ensures id in Run(cfg, ops).nodes
    ensures Run(cfg, ops).nodes[id].assignedLayers == LastBalanced(cfg, ops).nodes[id].assignedLayers
  {
    OrderIsServing(LastBalanced(cfg, ops).nodes, id);
    RunFollows(cfg, ops);
    PeersWithin(cfg, LastOrder(cfg, ops));
    RebalanceKeepsIdle(cfg, LastBalanced(cfg, ops), id);
  }

  /**
   The reply to a status report carries layers exactly when the node's stored layers differ before and after, and
   then the new ones; only an unknown node is an error, and then nothing changes.
   */
  lemma ReplyCarriesChange(cfg: Config, s: State, id: Id, status: Status, now: nat)
    ensures var (reply, s') := ReportStatus(cfg, s, id, status, now);
            if id in s.nodes then
              && id in s'.nodes && reply.Ok?
              && reply.value == (if s'.nodes[id].assignedLayers == s.nodes[id].assignedLayers then None
                                 else Some(s'.nodes[id].assignedLayers))
            else reply == Err(NodeNotFound) && s' == s
  {
  }

  /** A report that moves a node's score by at most 0.15 moves no layers and no stages, whatever else it changes. */
  lemma SmallReportMovesNothing(cfg: Config, s: State, id: Id, status: Status, now: nat)
    requires id in s.nodes
    requires var e := s.nodes[id];
             Abs(Compute(e.profile, status, e.reservation).composite - e.capacity.composite) <= 0.15
    ensures var s' := Step(cfg, s, Report(id, status, now));
            && s'.nodes.Keys == s.nodes.Keys && s'.pipeline == s.pipeline
            && (forall x :: x in s.nodes ==> s'.nodes[x].assignedLayers == s.nodes[x].assignedLayers)
            && (forall x :: x in s.nodes && x != id ==> s'.nodes[x] == s.nodes[x])
  {
  }

  // ---------------------------------------------------------------- hysteresis over a run

  /** The state after further operations. */
  ghost function Onward(cfg: Config, s: State, ops: seq<Op>): State
    decreases |ops|
  {
    if ops == [] then s else Onward(cfg, Step(cfg, s, ops[0]), ops[1..])
  }

  lemma {:induction false} OnwardIsRun(cfg: Config, before: seq<Op>, ops: seq<Op>)
    ensures Onward(cfg, Run(cfg, before), ops) == Run(cfg, before + ops)
    decreases |ops|
  {
    if ops == [] {
      assert before + ops == before;
    } else {
      assert (before + [ops[0]])[..|before|] == before;
      assert before + [ops[0]] + ops[1..] == before + ops;
      OnwardIsRun(cfg, before + [ops[0]], ops[1..]);
    }
  }

  /** The node stays registered throughout, and does not announce itself anew. */
  ghost predicate Stays(cfg: Config, s: State, ops: seq<Op>, id: Id)
    decreases |ops|
  {
    id in s.nodes &&
    (ops == [] || (!(ops[0].Join? && ops[0].id == id) && Stays(cfg, Step(cfg, s, ops[0]), ops[1..], id)))
  }

  /** How often the node's state changes. */
  ghost function Changes(cfg: Config, s: State, ops: seq<Op>, id: Id): nat
    requires Stays(cfg, s, ops, id)
    decreases |ops|
  {
    if ops == [] then 0 else
      var s' := Step(cfg, s, ops[0]);
      assert Stays(cfg, s', ops[1..], id);
      (if s'.nodes[id].state == s.nodes[id].state then 0 else 1) + Changes(cfg, s', ops[1..], id)
  }

  /** The scores that the node's own reports lead to, in order. */
  function ReportedScores(profile: Profile, r: Reservation, ops: seq<Op>, id: Id): seq<real> {
    if ops == [] then [] else
      (if ops[0].Report? && ops[0].id == id then [Compute(profile, ops[0].status, r).composite] else [])
      + ReportedScores(profile, r, ops[1..], id)
  }

  lemma RebalanceKeepsSettled(cfg: Config, s: State, id: Id)
    requires id in s.nodes && !s.nodes[id].state.Ready?
    ensures id in Rebalance(cfg, s).nodes
    ensures var (e, e') := (s.nodes[id], Rebalance(cfg, s).nodes[id]);
            && e'.state == e.state && e'.profile == e.profile
            && e'.reservation == e.reservation && e'.status == e.status
  {
    RebalancedEntries(cfg, s);
    assert Rebalanced(s.nodes[id], Rebalance(cfg, s).nodes[id]);
  }

  /** Only the node's own reports change its state, by the thresholds; nothing changes profile or reservation. */
  lemma StepOnEntry(cfg: Config, s: State, op: Op, id: Id)
    requires AllSettled(s.nodes) && id in s.nodes && id in Step(cfg, s, op).nodes
    requires !(op.Join? && op.id == id)
    ensures var (e, e') := (s.nodes[id], Step(cfg, s, op).nodes[id]);
            && e'.profile == e.profile && e'.reservation == e.reservation
            && e'.status == (if op.Report? && op.id == id then op.status else e.status)
            && e'.state == if op.Report? && op.id == id
                           then AfterScore(e.state, Compute(e.profile, op.status, e.reservation).composite)
                           else e.state
  {
    match op {
      case Join(id', profile, status, now) =>
        RebalanceKeepsSettled(cfg, s.(nodes := MarkReady(Register(s.nodes, id', profile, now), id', status).value), id);
      case Report(id', status, now) =>
        if id' in s.nodes {
          RebalanceKeepsSettled(cfg, s.(nodes := UpdateStatus(s.nodes, id', status, now).value.0), id);
        }
      case Beat(_, _) =>
      case Drain(id') => RebalanceKeepsSettled(cfg, s.(nodes := s.nodes - {id'}), id);
      case PruneDead(timeout, now) =>
        if id !in Expired(s.nodes, timeout, now) {
          RebalanceKeepsSettled(cfg, s.(nodes := s.nodes - Expired(s.nodes, timeout, now)), id);
        }
      case Traffic(_) =>
    }
  }

  lemma SwitchesCons(state: NodeState, score: real, rest: seq<real>)
    ensures Switches(state, [score] + rest)
         == (if AfterScore(state, score) == state then 0 else 1) + Switches(AfterScore(state, score), rest)
  {
    assert ([score] + rest)[0] == score && ([score] + rest)[1..] == rest;
  }

  lemma SwitchesOfReport(state: NodeState, profile: Profile, r: Reservation, ops: seq<Op>, id: Id)
    requires ops != []
    ensures var rest := ReportedScores(profile, r, ops[1..], id);
            Switches(state, ReportedScores(profile, r, ops, id))
            == if ops[0].Report? && ops[0].id == id then
                 var state' := AfterScore(state, Compute(profile, ops[0].status, r).composite);
                 (if state' == state then 0 else 1) + Switches(state', rest)
               else Switches(state, rest)
  {
    var rest := ReportedScores(profile, r, ops[1..], id);
    if ops[0].Report? && ops[0].id == id {
      SwitchesCons(state, Compute(profile, ops[0].status, r).composite, rest);
    } else {
      assert [] + rest == rest;
    }
  }

  lemma {:induction false} ChangesAreSwitches(cfg: Config, s: State, ops: seq<Op>, id: Id)
    requires Inv(cfg, s) && Stays(cfg, s, ops, id)
    ensures var e := s.nodes[id];
            Changes(cfg, s, ops, id) == Switches(e.state, ReportedScores(e.profile, e.reservation, ops, id))
    decreases |ops|
  {
    if ops != [] {
      var (s', e) := (Step(cfg, s, ops[0]), s.nodes[id]);
      StepKeeps(cfg, s, ops[0]);
      StepOnEntry(cfg, s, ops[0], id);
      ChangesAreSwitches(cfg, s', ops[1..], id);
      SwitchesOfReport(e.state, e.profile, e.reservation, ops, id);
    }
  }

  /**
   Over any stretch of any run in which a node stays registered, whatever the other nodes do meanwhile: if it
   switches k times between Active and Degraded, the scores it reported have a total variation of at least
   0.05 times k - 1.
   */
  lemma RunHysteresis(cfg: Config, before: seq<Op>, ops: seq<Op>, id: Id)
    requires Stays(cfg, Run(cfg, before), ops, id)
    ensures var e := Run(cfg, before).nodes[id];
            Variation(ReportedScores(e.profile, e.reservation, ops, id))
            >= 0.05 * (Changes(cfg, Run(cfg, before), ops, id) - 1) as real
    ensures id in Run(cfg, before + ops).nodes
    ensures Run(cfg, before + ops).nodes[id].state.Active? || Run(cfg, before + ops).nodes[id].state.Degraded?
  {
    var e := Run(cfg, before).nodes[id];
    RunKeeps(cfg, before);
    ChangesAreSwitches(cfg, Run(cfg, before), ops, id);
    HysteresisBound(e.state, ReportedScores(e.profile, e.reservation, ops, id));
    OnwardIsRun(cfg, before, ops);
    StaysRegistered(cfg, Run(cfg, before), ops, id);
    RunKeeps(cfg, before + ops);
  }

  lemma {:induction false} StaysRegistered(cfg: Config, s: State, ops: seq<Op>, id: Id)
    requires Stays(cfg, s, ops, id)
    ensures id in Onward(cfg, s, ops).nodes
    decreases |ops|
  {
    if ops != [] {
      StaysRegistered(cfg, Step(cfg, s, ops[0]), ops[1..], id);
    }
  }

  // ---------------------------------------------------------------- a node's entry over a run

  /** The status that the node reported last, or the one it had. */
  function LastStatus(status: Status, ops: seq<Op>, id: Id): Status
    decreases |ops|
  {
    if ops == [] then status
    else LastStatus(if ops[0].Report? && ops[0].id == id then ops[0].status else status, ops[1..], id)
  }

  /** What a node's own reports make of its entry. */
  predicate EntryFollows(e: Entry, e': Entry, ops: seq<Op>, id: Id) {
    && e'.profile == e.profile && e'.reservation == e.reservation
    && e'.status == LastStatus(e.status, ops, id)
    && e'.state == AfterAll(e.state, ReportedScores(e.profile, e.reservation, ops, id))
  }

  lemma AfterAllCons(state: NodeState, score: real, rest: seq<real>)
    ensures AfterAll(state, [score] + rest) == AfterAll(AfterScore(state, score), rest)
  {
    assert ([score] + rest)[0] == score && ([score] + rest)[1..] == rest;
  }

  lemma EntryFollowsStep(cfg: Config, s: State, ops: seq<Op>, id: Id, last: Entry)
    requires AllSettled(s.nodes) && ops != [] && id in s.nodes && id in Step(cfg, s, ops[0]).nodes
    requires !(ops[0].Join? && ops[0].id == id)
    requires EntryFollows(Step(cfg, s, ops[0]).nodes[id], last, ops[1..], id)
    ensures EntryFollows(s.nodes[id], last, ops, id)
  {
    StepOnEntry(cfg, s, ops[0], id);
    var e := s.nodes[id];
    var rest := ReportedScores(e.profile, e.reservation, ops[1..], id);
    if ops[0].Report? && ops[0].id == id {
      AfterAllCons(e.state, Compute(e.profile, ops[0].status, e.reservation).composite, rest);
    } else {
      assert [] + rest == rest;
    }
  }

  lemma {:induction false} EntryOverRun(cfg: Config, s: State, ops: seq<Op>, id: Id)
    requires Inv(cfg, s) && Stays(cfg, s, ops, id)
    ensures id in Onward(cfg, s, ops).nodes
    ensures EntryFollows(s.nodes[id], Onward(cfg, s, ops).nodes[id], ops, id)
    decreases |ops|
  {
    if ops != [] {
      StepKeeps(cfg, s, ops[0]);
      EntryOverRun(cfg, Step(cfg, s, ops[0]), ops[1..], id);
      EntryFollowsStep(cfg, s, ops, id, Onward(cfg, s, ops).nodes[id]);
    }
  }

  /**
   As long as a node stays registered after an announcement, whatever the others do: its profile and reservation are
   those of the announcement, its score is that of the last status it sent, and it is degraded exactly if one of the
   scores it reported was below 0.1 and none since reached 0.15.
   */
  lemma EntryAfterRun(
    cfg: Config, before: seq<Op>, id: Id, profile: Profile, status: Status, now: nat, ops: seq<Op>)
    requires Stays(cfg, Run(cfg, before + [Join(id, profile, status, now)]), ops, id)
    ensures id in Run(cfg, before + [Join(id, profile, status, now)] + ops).nodes
    ensures var e := Run(cfg, before + [Join(id, profile, status, now)] + ops).nodes[id];
            var r := ForDevice(profile.deviceType);
            && e.profile == profile && e.reservation == r && e.status == LastStatus(status, ops, id)
            && e.capacity == Compute(profile, e.status, r)
            && e.state == if FellAndStayed(ReportedScores(profile, r, ops, id)) then Degraded else Active
  {
    var joined := before + [Join(id, profile, status, now)];
    assert joined[..|before|] == before;
    RunKeeps(cfg, before);
    JoinedIsActive(cfg, Run(cfg, before), id, profile, status, now);
    RunKeeps(cfg, joined);
    EntryOverRun(cfg, Run(cfg, joined), ops, id);
    OnwardIsRun(cfg, joined, ops);
    RunKeeps(cfg, joined + ops);
    StateAfterScores(Active, ReportedScores(profile, ForDevice(profile.deviceType), ops, id));
  }

  // ---------------------------------------------------------------- dead nodes

  /** The operation is news from node `id`, at time `now`, which the registry takes note of. */
  predicate HearsFrom(s: State, op: Op, id: Id, now: nat) {
    match op
    case Join(id', _, _, now') => id' == id && now' == now
    case Report(id', _, now') => id' == id && now' == now && id in s.nodes
    case Beat(id', now') => id' == id && now' == now && id in s.nodes
    case _ => false
  }

  /** What the registry knows of a node, after an operation: when it was last heard from, if it is registered. */
  function Heard(before: Option<nat>, op: Op, id: Id): Option<nat> {
    match op
    case Join(id', _, _, now) => if id' == id then Some(now) else before
    case Report(id', _, now) => if id' == id && before.Some? then Some(now) else before
    case Beat(id', now) => if id' == id && before.Some? then Some(now) else before
    case Drain(id') => if id' == id then None else before
    case PruneDead(timeout, now) => if before.Some? && TooLong(before.value, timeout, now) then None else before
    case Traffic(_) => before
  }

  /** When a node was last heard from in a run, read off the operations alone; nothing if it is gone. */
  function LastHeard(ops: seq<Op>, id: Id): Option<nat> {
    if ops == [] then None else Heard(LastHeard(ops[..|ops| - 1], id), ops[|ops| - 1], id)
  }

  function TimeOf(nodes: Nodes, id: Id): Option<nat> {
    if id in nodes then Some(nodes[id].lastHeartbeat) else None
  }

  lemma RebalanceKeepsTime(cfg: Config, s: State, id: Id)
    ensures TimeOf(Rebalance(cfg, s).nodes, id) == TimeOf(s.nodes, id)
  {
    RebalancedEntries(cfg, s);
    assert id in s.nodes ==> Rebalanced(s.nodes[id], Rebalance(cfg, s).nodes[id]);
  }

  lemma WithoutKeepsTime(cfg: Config, s: State, ids: set<Id>, id: Id)
    ensures TimeOf(Without(cfg, s, ids).nodes, id) == if id in ids then None else TimeOf(s.nodes, id)
  {
    RebalanceKeepsTime(cfg, s.(nodes := s.nodes - ids), id);
  }

  lemma StepHeard(cfg: Config, s: State, op: Op, id: Id)
    ensures TimeOf(Step(cfg, s, op).nodes, id) == Heard(TimeOf(s.nodes, id), op, id)
  {
    match op {
      case Join(id', profile, status, now) =>
        RebalanceKeepsTime(cfg, s.(nodes := MarkReady(Register(s.nodes, id', profile, now), id', status).value), id);
      case Report(id', status, now) =>
        if id' in s.nodes {
          RebalanceKeepsTime(cfg, s.(nodes := UpdateStatus(s.nodes, id', status, now).value.0), id);
        }
      case Beat(_, _) =>
      case Drain(id') => WithoutKeepsTime(cfg, s, {id'}, id);
      case PruneDead(timeout, now) => WithoutKeepsTime(cfg, s, Expired(s.nodes, timeout, now), id);
      case Traffic(_) =>
    }
  }

  /**
   After every run a node is registered exactly if it was heard from and since then neither drained nor pruned
   as silent, and the registry knows when it was last heard from.
   */
  lemma {:induction false} RegisteredWhileHeard(cfg: Config, ops: seq<Op>, id: Id)
    ensures TimeOf(Run(cfg, ops).nodes, id) == LastHeard(ops, id)
  {
    if ops != [] {
      RegisteredWhileHeard(cfg, ops[..|ops| - 1], id);
      StepHeard(cfg, Run(cfg, ops[..|ops| - 1]), ops[|ops| - 1], id);
    }
  }

  /** The operations neither hear from the node, heard from at `now`, nor remove it. */
  predicate Uneventful(ops: seq<Op>, id: Id, now: nat) {
    forall i :: 0 <= i < |ops| ==> Heard(Some(now), ops[i], id) == Some(now)
  }

  lemma {:induction false} UneventfulKeeps(before: seq<Op>, ops: seq<Op>, id: Id, now: nat)
    requires LastHeard(before, id) == Some(now) && Uneventful(ops, id, now)
    ensures LastHeard(before + ops, id) == Some(now)
  {
    if ops == [] {
      assert before + ops == before;
    } else {
      var all := before + ops;
      assert all[..|all| - 1] == before + ops[..|ops| - 1];
      UneventfulKeeps(before, ops[..|ops| - 1], id, now);
    }
  }

  lemma HeardNext(ops: seq<Op>, op: Op, id: Id)
    ensures LastHeard(ops + [op], id) == Heard(LastHeard(ops, id), op, id)
  {
    assert (ops + [op])[..|ops|] == ops;
  }

  lemma HeardSinceNews(cfg: Config, before: seq<Op>, news: Op, quiet: seq<Op>, id: Id, now: nat)
    requires HearsFrom(Run(cfg, before), news, id, now) && Uneventful(quiet, id, now)
    ensures LastHeard(before + [news] + quiet, id) == Some(now)
  {
    RegisteredWhileHeard(cfg, before, id);
    HeardNext(before, news, id);
    UneventfulKeeps(before + [news], quiet, id, now);
  }

  /**
   Announcements, status reports and heartbeats all count as news. However much happens to others in between,
   a node is pruned exactly when more than `timeout` whole seconds have passed since its last news.
   */
  lemma PrunedWhenSilent(
    cfg: Config, before: seq<Op>, news: Op, quiet: seq<Op>, id: Id, now: nat, timeout: nat, later: nat)
    requires HearsFrom(Run(cfg, before), news, id, now) && Uneventful(quiet, id, now)
    ensures id in Run(cfg, before + [news] + quiet).nodes
    ensures id in Run(cfg, before + [news] + quiet + [PruneDead(timeout, later)]).nodes
       <==> Max(later - now, 0) / 1_000_000_000 <= timeout
  {
    var all := before + [news] + quiet;
    HeardSinceNews(cfg, before, news, quiet, id, now);
    RegisteredWhileHeard(cfg, all, id);
    HeardNext(all, PruneDead(timeout, later), id);
    RegisteredWhileHeard(cfg, all + [PruneDead(timeout, later)], id);
  }

  // ---------------------------------------------------------------- fairness on the registry

  lemma RankedDescending(nodes: Nodes, order: seq<Id>)
    requires Ranked(nodes, order) && AlmostSettled(nodes)
    ensures Scores(ScoresOf(nodes, order)) && Descending(ScoresOf(nodes, order))
  {
    forall i | 0 <= i < |order|
      ensures 0.0 <= nodes[order[i]].capacity.composite <= 1.0
    {
      var e := nodes[order[i]];
      CompositeIsFraction(e.profile, e.status, e.reservation);
    }
    forall i, j | 0 <= i <= j < |order|
      ensures nodes[order[i]].capacity.composite >= nodes[order[j]].capacity.composite
    {
      assert i == j || Ahead(nodes, order[i], order[j]);
    }
  }

  /**
   Capacity drives allocation: after a rebalance outside the fallback, an active node with a strictly larger
   score serves earlier, and gets at least as many layers as any node below it that is not the last.
   */
  lemma LargerScoreServesMore(cfg: Config, s: State, a: nat, b: nat)
    requires AlmostSettled(s.nodes)
    requires a < |Order(s.nodes)| && b < |Order(s.nodes)|
    requires s.nodes[Order(s.nodes)[a]].capacity.composite > s.nodes[Order(s.nodes)[b]].capacity.composite
    ensures a < b
    ensures var (order, nodes') := (Order(s.nodes), Rebalance(cfg, s).nodes);
            !Fallback(ScoresOf(s.nodes, order)) && b < |order| - 1 ==>
              |nodes'[order[a]].assignedLayers| >= |nodes'[order[b]].assignedLayers|
  {
    var order := Order(s.nodes);
    var scores := ScoresOf(s.nodes, order);
    RankedDescending(s.nodes, order);
    assert scores[a] > scores[b];
    OrderFacts(s.nodes);
    AssignedAll(s.nodes, order, scores, cfg.total);
    BoundariesMonotone(scores, cfg.total, a);
    BoundariesMonotone(scores, cfg.total, b);
    if !Fallback(scores) && b < |order| - 1 {
      HigherScoreNoFewerLayers(scores, cfg.total, a, b);
    }
  }

  // ---------------------------------------------------------------- inference traffic

  datatype StartError = InvalidPeer

  /** The range a task asks for: from the first assigned layer to just after the last; (0, 1) if there is none. */
  function SpanOf(layers: seq<nat>): (nat, nat) {
    (if layers == [] then 0 else layers[0], (if layers == [] then 0 else layers[|layers| - 1]) + 1)
  }

  /**
   Starts a sequence. The task goes to the node that ranks first now, for its layers, while the pipeline
   follows the stages of the last rebalance.
   */
  ghost function StartRequest(
    cfg: Config, env: HandOff.Envelope, nonce: nat, key: HandOff.Key, s: State,
    seqId: nat, taskId: string, tokens: seq<Transformer.i32>, initial: seq<byte>)
    : (Result<Option<(Id, Pipeline.ProcessTask)>, StartError>, State)
  {
    var order := Order(s.nodes);
    if order == [] then (Ok(None), s)
    else if !cfg.isPeer(order[0]) then (Err(InvalidPeer), s)
    else
      var input := HandOff.Wrap(env, nonce, key, taskId, initial);
      var (out, p) := Pipeline.StartSequence(s.pipeline, seqId, taskId, tokens, input,
                                             SpanOf(s.nodes[order[0]].assignedLayers));
      (Ok(if out.Some? then Some((order[0], out.value.1)) else None), s.(pipeline := p))
  }

  /** Handles a result: the next task carries the layers registered for the next stage's node. */
  function ResultArrives(s: State, result: Backend.TaskResult): (Option<Pipeline.PipelineResult>, State) {
    var next := Pipeline.GetNextPeer(s.pipeline, result.taskId);
    if next.Some? && next.value !in s.nodes then (None, s)
    else
      var layers := if next.Some? then SpanOf(s.nodes[next.value].assignedLayers) else (0, 0);
      var (out, p) := Pipeline.HandleTaskResult(s.pipeline, result, layers);
      (out, s.(pipeline := p))
  }

  lemma RangeSpan(lo: nat, hi: nat)
    requires lo < hi
    ensures SpanOf(Range(lo, hi)) == (lo, hi)
  {
  }

  // ---------------------------------------------------------------- where a sequence starts

  /** An active or ready node that no other such node is earlier than. */
  predicate IsBest(nodes: Nodes, id: Id) {
    && id in nodes && (nodes[id].state.Active? || nodes[id].state.Ready?)
    && forall other :: other in nodes && (nodes[other].state.Active? || nodes[other].state.Ready?) && other != id ==>
         Earlier(nodes, id, other)
  }

  /** Consecutive layers. */
  predicate Consecutive(layers: seq<nat>) {
    forall k :: 0 <= k < |layers| ==> layers[k] == layers[0] + k
  }

  /** The range names exactly these layers, in order. */
  predicate Enumerates(range: (nat, nat), layers: seq<nat>) {
    range.0 + |layers| == range.1 && forall k :: 0 <= k < |layers| ==> layers[k] == range.0 + k
  }

  lemma FirstIsAhead(nodes: Nodes, order: seq<Id>, i: nat)
    requires Ranked(nodes, order) && i < |order|
    ensures i == 0 || Ahead(nodes, order[0], order[i])
  {
  }

  lemma BestIsFirst(nodes: Nodes, best: Id)
    requires IsBest(nodes, best)
    ensures Order(nodes) != [] && Order(nodes)[0] == best
  {
    var order := Order(nodes);
    OrderIsServing(nodes, best);
    var i :| 0 <= i < |order| && order[i] == best;
    assert order[0] in order;
    OrderIsServing(nodes, order[0]);
    FirstIsAhead(nodes, order, i);
    AheadTotal(nodes, order[0], best);
  }

  /**
   A start goes to the best node there is, whatever the stages are, and asks it for exactly the layers it holds;
   the pipeline records the task at its first stage. Without stages nothing happens; an id that is no peer id is
   an error.
   */
  lemma StartGoesToBest(
    cfg: Config, env: HandOff.Envelope, nonce: nat, key: HandOff.Key, s: State,
    seqId: nat, taskId: string, tokens: seq<Transformer.i32>, initial: seq<byte>, best: Id)
    requires IsBest(s.nodes, best)
    ensures var (r, s') := StartRequest(cfg, env, nonce, key, s, seqId, taskId, tokens, initial);
            if !cfg.isPeer(best) then r == Err(InvalidPeer) && s' == s
            else if s.pipeline.stages == [] then r == Ok(None) && s' == s
            else
              && r.Ok? && r.value.Some? && r.value.value.0 == best
              && var task := r.value.value.1.task;
                 && task.taskId == taskId && task.seqId == seqId && task.tokens == tokens
                 && task.input == HandOff.Wrap(env, nonce, key, taskId, initial)
                 && (s.nodes[best].assignedLayers != [] && Consecutive(s.nodes[best].assignedLayers) ==>
                       Enumerates((task.start, task.end), s.nodes[best].assignedLayers))
                 && (s.nodes[best].assignedLayers == [] ==> (task.start, task.end) == (0, 1))
                 && s'.nodes == s.nodes && s'.pipeline.stages == s.pipeline.stages
                 && s'.pipeline.active
                    == s.pipeline.active[taskId := Pipeline.SequenceState(seqId, taskId, tokens, 0)]
  {
    BestIsFirst(s.nodes, best);
  }

  /** Without an active or ready node nothing starts. */
  lemma NothingStarts(
    cfg: Config, env: HandOff.Envelope, nonce: nat, key: HandOff.Key, s: State,
    seqId: nat, taskId: string, tokens: seq<Transformer.i32>, initial: seq<byte>)
    requires forall id :: id in s.nodes ==> !s.nodes[id].state.Active? && !s.nodes[id].state.Ready?
    ensures StartRequest(cfg, env, nonce, key, s, seqId, taskId, tokens, initial) == (Ok(None), s)
  {
    HeadListed(s.nodes, ActiveIds(s.nodes), Order(s.nodes));
  }

  predicate AllConsecutive(nodes: Nodes) {
    forall id :: id in nodes ==> Consecutive(nodes[id].assignedLayers)
  }

  lemma RebalanceConsecutive(cfg: Config, s: State)
    requires AllConsecutive(s.nodes)
    ensures AllConsecutive(Rebalance(cfg, s).nodes)
  {
    var (order, nodes') := (Order(s.nodes), Rebalance(cfg, s).nodes);
    RebalanceTiles(cfg, s);
    forall id | id in nodes'
      ensures Consecutive(nodes'[id].assignedLayers)
    {
      OrderIsServing(s.nodes, id);
      if id in order {
        var i :| 0 <= i < |order| && order[i] == id;
        DealtSlice(cfg, s, i);
      } else {
        RebalanceKeepsIdle(cfg, s, id);
      }
    }
  }

  lemma StepConsecutive(cfg: Config, s: State, op: Op)
    requires AllConsecutive(s.nodes)
    ensures AllConsecutive(Step(cfg, s, op).nodes)
  {
    if Balanced(s, op).Some? {
      StepRebalances(cfg, s, op);
      RebalanceConsecutive(cfg, Balanced(s, op).value);
    }
  }

  /** After every run every node holds consecutive layers, so a start asks its node for exactly those. */
  lemma {:induction false} RunConsecutive(cfg: Config, ops: seq<Op>)
    ensures AllConsecutive(Run(cfg, ops).nodes)
  {
    if ops != [] {
      RunConsecutive(cfg, ops[..|ops| - 1]);
      StepConsecutive(cfg, Run(cfg, ops[..|ops| - 1]), ops[|ops| - 1]);
    }
  }

  // ---------------------------------------------------------------- the orchestrator object

  class OrchestratorNode {
    const cfg: Config
    const registry: NodeRegistry
    const pipeline: Pipeline.InferencePipeline

    ghost function View(): State
      reads registry, pipeline
    {
      State(registry.nodes, pipeline.View())
    }

    constructor (cfg: Config)
      ensures this.cfg == cfg && View() == INITIAL && fresh(registry) && fresh(pipeline)
    {
      this.cfg := cfg;
      registry := new NodeRegistry();
      pipeline := new Pipeline.InferencePipeline();
    }

    /** The ids that parse as peer ids. */
    method ParsePeers(ids: seq<Id>) returns (peers: seq<Id>)
      ensures peers == Peers(cfg, ids)
    {
      peers := [];
      for i := 0 to |ids|
        invariant peers == Peers(cfg, ids[..i])
      {
        assert ids[..i + 1][..i] == ids[..i];
        if cfg.isPeer(ids[i]) {
          peers := peers + [ids[i]];
        }
      }
      assert ids[..|ids|] == ids;
    }

    method SumScores(scores: seq<real>) returns (total: real)
      ensures total == Total(scores)
    {
      total := 0.0;
      for i := 0 to |scores|
        invariant total == Total(scores[..i])
      {
        assert scores[..i + 1][..i] == scores[..i];
        total := total + scores[i];
      }
      assert scores[..|scores|] == scores;
    }

    /** Distributes the layers in proportion to the scores; equally, when there is no capacity at all. */
    method RebalanceLayers()
      modifies registry, pipeline
      ensures View() == Rebalance(cfg, old(View()))
    {
      var sorted := registry.SortedByCapacity();
      OrderFacts(registry.nodes);
      var peers := ParsePeers(sorted);
      pipeline.UpdateStages(peers);
      if sorted == [] {
        return;
      }
      var scores := ScoresOf(registry.nodes, sorted);
      var totalComposite := SumScores(scores);
      if totalComposite <= 0.0 {
        ShareEqually(sorted, scores);
      } else {
        ShareInProportion(sorted, scores, totalComposite);
      }
    }

    method ShareEqually(ids: seq<Id>, ghost scores: seq<real>)
      requires ids != [] && |scores| == |ids| && Fallback(scores)
      modifies registry
      ensures registry.nodes == AssignUpTo(old(registry.nodes), ids, scores, cfg.total, |ids|)
    {
      var perNode := cfg.total / |ids|;
      var current := 0;
      for i := 0 to |ids|
        invariant current == Boundary(scores, cfg.total, i)
        invariant registry.nodes == AssignUpTo(old(registry.nodes), ids, scores, cfg.total, i)
      {
        BoundariesMonotone(scores, cfg.total, i);
        assert (i + 1) * perNode == i * perNode + perNode;
        var count := if i == |ids| - 1 then Max(cfg.total - current, 0) else perNode;
        var layers := Range(current, current + count);
        current := current + count;
        registry.DoAssignLayers(ids[i], layers);
      }
    }

    method ShareInProportion(ids: seq<Id>, scores: seq<real>, totalComposite: real)
      requires ids != [] && |scores| == |ids| && !Fallback(scores) && totalComposite == Total(scores)
      modifies registry
      ensures registry.nodes == AssignUpTo(old(registry.nodes), ids, scores, cfg.total, |ids|)
    {
      var currentLayer := 0;
      for i := 0 to |ids|
        invariant currentLayer == Boundary(scores, cfg.total, i)
        invariant registry.nodes == AssignUpTo(old(registry.nodes), ids, scores, cfg.total, i)
      {
        var endLayer := EndLayer(scores, i, totalComposite, currentLayer);
        registry.DoAssignLayers(ids[i], Range(currentLayer, endLayer));
        currentLayer := endLayer;
      }
    }

    /** Where node `i`'s slice ends: its rounded share further on, but not past the model, where the last one ends. */
    method EndLayer(scores: seq<real>, i: nat, totalComposite: real, currentLayer: nat) returns (endLayer: nat)
      requires i < |scores| && !Fallback(scores) && totalComposite == Total(scores)
      requires currentLayer == Boundary(scores, cfg.total, i)
      ensures endLayer == Boundary(scores, cfg.total, i + 1)
    {
      var isLast := i == |scores| - 1;
      var layerCount: nat;
      if isLast {
        layerCount := Max(cfg.total - currentLayer, 0);
      } else {
        layerCount := Max(Round(Proportion(scores[i], totalComposite, cfg.total)), 0);
      }
      endLayer := Min(currentLayer + layerCount, cfg.total);
    }

    /** Registers a node and rebalances; the reply holds the layers it was given. */
    method HandleAnnounce(id: Id, profile: Profile, status: Status, now: nat)
      returns (r: Result<seq<nat>, RegistryError>)
      modifies registry, pipeline
      ensures View() == Announce(cfg, old(View()), id, profile, status, now)
      ensures r.Ok? && id in View().nodes && r.value == View().nodes[id].assignedLayers
    {
      registry.DoRegister(id, profile, now);
      var ready := registry.DoMarkReady(id, status);
      ghost var s1 := View();
      RebalanceLayers();
      RebalancedEntries(cfg, s1);
      return Ok(registry.nodes[id].assignedLayers);
    }

    method HandleStatusUpdate(id: Id, status: Status, now: nat) returns (r: Result<Option<seq<nat>>, RegistryError>)
      modifies registry, pipeline
      ensures (r, View()) == ReportStatus(cfg, old(View()), id, status, now)
    {
      var significant := registry.DoUpdateStatus(id, status, now);
      if significant.Err? {
        return Err(significant.error);
      }
      if significant.value {
        var oldLayers := registry.nodes[id].assignedLayers;
        ghost var s1 := View();
        RebalanceLayers();
        RebalancedEntries(cfg, s1);
        var newLayers := registry.nodes[id].assignedLayers;
        if oldLayers != newLayers {
          return Ok(Some(newLayers));
        }
      }
      return Ok(None);
    }

    method HandleHeartbeat(id: Id, now: nat)
      modifies registry
      ensures View() == Step(cfg, old(View()), Beat(id, now))
    {
      registry.DoHeartbeat(id, now);
    }

    /** Marks the node as draining where that is legal, removes it, and rebalances over the rest. */
    method HandleDrain(id: Id)
      modifies registry, pipeline
      ensures View() == Step(cfg, old(View()), Drain(id))
    {
      ghost var before := registry.nodes;
      if id in registry.nodes && CanTransition(registry.nodes[id].state, Draining) {
        registry.nodes := registry.nodes[id := registry.nodes[id].(state := Draining)];
      }
      registry.Remove(id);
      assert registry.nodes == before - {id};
      if registry.nodes != map[] {
        RebalanceLayers();
      }
    }

    method PruneDeadNodes(timeout: nat, now: nat)
      modifies registry, pipeline
      ensures View() == Step(cfg, old(View()), PruneDead(timeout, now))
    {
      var dead := Expired(registry.nodes, timeout, now);
      if dead == {} {
        return;
      }
      ghost var before := registry.nodes;
      var rest := dead;
      while rest != {}
        invariant rest <= dead && registry.nodes == before - (dead - rest)
        invariant pipeline.View() == old(pipeline.View())
        decreases rest
      {
        var id :| id in rest;
        registry.Remove(id);
        assert dead - (rest - {id}) == (dead - rest) + {id};
        rest := rest - {id};
      }
      assert dead - rest == dead;
      if registry.nodes != map[] {
        RebalanceLayers();
      }
    }

    method DoStartSequence(
      env: HandOff.Envelope, nonce: nat, key: HandOff.Key,
      seqId: nat, taskId: string, tokens: seq<Transformer.i32>, initial: seq<byte>)
      returns (r: Result<Option<(Id, Pipeline.ProcessTask)>, StartError>)
      modifies pipeline
      ensures (r, View()) == StartRequest(cfg, env, nonce, key, old(View()), seqId, taskId, tokens, initial)
    {
      var sorted := registry.SortedByCapacity();
      if sorted == [] {
        return Ok(None);
      }
      if !cfg.isPeer(sorted[0]) {
        return Err(InvalidPeer);
      }
      var span := SpanOf(registry.nodes[sorted[0]].assignedLayers);
      var input := HandOff.Wrap(env, nonce, key, taskId, initial);
      var out := pipeline.DoStartSequence(seqId, taskId, tokens, input, span);
      return Ok(if out.Some? then Some((sorted[0], out.value.1)) else None);
    }

    method DoHandleTaskResult(result: Backend.TaskResult) returns (out: Option<Pipeline.PipelineResult>)
      modifies pipeline
      ensures (out, View()) == ResultArrives(old(View()), result)
    {
      var next := pipeline.DoGetNextPeer(result.taskId);
      if next.Some? {
        if next.value in registry.nodes {
          out := pipeline.DoHandleTaskResult(result, SpanOf(registry.nodes[next.value].assignedLayers));
        } else {
          out := None;
        }
      } else {
        out := pipeline.DoHandleTaskResult(result, (0, 0));
      }
    }
  }
}
