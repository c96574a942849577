/** The node registry (src/node/registry.rs): entries, their updates, and the order in which nodes serve. */
module Registry {
  import opened Wrappers
  import opened Capacity
  import opened Lifecycle

  type Id = string

  datatype Entry = Entry(
    profile: Profile,
    status: Status,
    state: NodeState,
    capacity: EffectiveCapacity,
    assignedLayers: seq<nat>,
    reservation: Reservation,
    lastHeartbeat: nat)

  type Nodes = map<Id, Entry>

  datatype RegistryError = NodeNotFound | InvalidTransition

  // ---------------------------------------------------------------- updates

  /** A new node, or an old one announcing itself again, starts from scratch. */
  function Register(nodes: Nodes, id: Id, profile: Profile, now: nat): Nodes {
    nodes[id := Entry(profile, UNKNOWN_STATUS, Joining, ZERO_CAPACITY, [], ForDevice(profile.deviceType), now)]
  }

  function MarkReady(nodes: Nodes, id: Id, status: Status): Result<Nodes, RegistryError> {
    if id !in nodes then Err(NodeNotFound) else
      var e := nodes[id];
      var next := TransitionTo(e.state, Ready);
      if next.None? then Err(InvalidTransition) else
        var capacity := Compute(e.profile, status, e.reservation);
        Ok(nodes[id := e.(state := next.value, status := status, capacity := capacity)])
  }

  /** An entry after a status report: new capacity, and possibly a change between Active and Degraded. */
  function Reported(e: Entry, status: Status, now: nat): Entry {
    var capacity := Compute(e.profile, status, e.reservation);
    e.(status := status, lastHeartbeat := now, capacity := capacity, state := AfterScore(e.state, capacity.composite))
  }

  /** Whether a new score differs enough from the old one to call for a rebalance. */
  predicate Significant(before: Entry, after: Entry) {
    Abs(after.capacity.composite - before.capacity.composite) > 0.15
  }

  function UpdateStatus(nodes: Nodes, id: Id, status: Status, now: nat): Result<(Nodes, bool), RegistryError> {
    if id !in nodes then Err(NodeNotFound) else
      var e := Reported(nodes[id], status, now);
      Ok((nodes[id := e], Significant(nodes[id], e)))
  }

  function Heartbeat(nodes: Nodes, id: Id, now: nat): Nodes {
    if id in nodes then nodes[id := nodes[id].(lastHeartbeat := now)] else nodes
  }

  /** Assigns layers; a Ready node becomes Active. Unknown nodes are ignored. */
  function AssignLayers(nodes: Nodes, id: Id, layers: seq<nat>): Nodes {
    if id !in nodes then nodes else
      var e := nodes[id];
      var state := if e.state.Ready? && CanTransition(e.state, Active) then Active else e.state;
      nodes[id := e.(assignedLayers := layers, state := state)]
  }

  function ActiveIds(nodes: Nodes): set<Id> {
    set id | id in nodes && CanAcceptTasks(nodes[id].state)
  }

  // ---------------------------------------------------------------- the order of strings

  predicate StrLess(a: string, b: string) {
    b != [] && (a == [] || a[0] < b[0] || (a[0] == b[0] && StrLess(a[1..], b[1..])))
  }

  lemma {:induction false} StrLessTotal(a: string, b: string)
    ensures StrLess(a, b) || a == b || StrLess(b, a)
    ensures !(StrLess(a, b) && StrLess(b, a))
    ensures !StrLess(a, a)
  {
    if a != [] {
      StrLessTotal(a[1..], if b == [] then b else b[1..]);
      if b != [] && a[0] == b[0] && a[1..] == b[1..] {
        assert a == [a[0]] + a[1..] == [b[0]] + b[1..] == b;
      }
    }
  }

  lemma {:induction false} StrLessTransitive(a: string, b: string, c: string)
    requires StrLess(a, b) && StrLess(b, c)
    ensures StrLess(a, c)
  {
    if a != [] && a[0] == b[0] == c[0] {
      StrLessTransitive(a[1..], b[1..], c[1..]);
    }
  }

  /** The strings agree before position `k`, where `a` ends or has the smaller character. */
  predicate FirstDifference(a: string, b: string, k: nat) {
    k <= |a| && k < |b| && a[..k] == b[..k] && (k == |a| || a[k] < b[k])
  }

  /** Ids are compared lexicographically. */
  lemma {:induction false} StrLessIsLexicographic(a: string, b: string)
    ensures StrLess(a, b) <==> exists k :: FirstDifference(a, b, k)
  {
    if b == [] || a == [] || a[0] != b[0] {
      if b != [] && (a == [] || a[0] < b[0]) {
        assert FirstDifference(a, b, 0);
      }
    } else {
      StrLessIsLexicographic(a[1..], b[1..]);
      assert a == [a[0]] + a[1..] && b == [b[0]] + b[1..];
      if k: nat :| FirstDifference(a[1..], b[1..], k) {
        assert a[..k + 1] == [a[0]] + a[1..][..k] && b[..k + 1] == [b[0]] + b[1..][..k];
        assert FirstDifference(a, b, k + 1);
      }
      if k: nat :| FirstDifference(a, b, k) {
        assert k > 0;
        assert a[1..][..k - 1] == a[..k][1..] && b[1..][..k - 1] == b[..k][1..];
        assert FirstDifference(a[1..], b[1..], k - 1);
      }
    }
  }

  // ---------------------------------------------------------------- the serving order

  /** Node `a` serves before node `b`: the higher score first, and on equal scores the smaller id. */
  predicate Ahead(nodes: Nodes, a: Id, b: Id)
    requires a in nodes && b in nodes
  {
    var (x, y) := (nodes[a].capacity.composite, nodes[b].capacity.composite);
    x > y || (x == y && StrLess(a, b))
  }

  predicate Ranked(nodes: Nodes, order: seq<Id>) {
    && (forall i :: 0 <= i < |order| ==> order[i] in nodes)
    && (forall i, j :: 0 <= i < j < |order| ==> Ahead(nodes, order[i], order[j]))
  }

  /** `order` lists exactly `ids`, each ahead of the next. */
  ghost predicate IsOrder(nodes: Nodes, ids: set<Id>, order: seq<Id>) {
    Ranked(nodes, order) && forall id :: id in ids <==> id in order
  }

  lemma AheadTotal(nodes: Nodes, a: Id, b: Id)
    requires a in nodes && b in nodes
    ensures Ahead(nodes, a, b) || a == b || Ahead(nodes, b, a)
    ensures !(Ahead(nodes, a, b) && Ahead(nodes, b, a))
    ensures !Ahead(nodes, a, a)
  {
    StrLessTotal(a, b);
    StrLessTotal(a, a);
  }

  lemma AheadTransitive(nodes: Nodes, a: Id, b: Id, c: Id)
    requires a in nodes && b in nodes && c in nodes && Ahead(nodes, a, b) && Ahead(nodes, b, c)
    ensures Ahead(nodes, a, c)
  {
    if nodes[a].capacity.composite == nodes[b].capacity.composite == nodes[c].capacity.composite {
      StrLessTransitive(a, b, c);
    }
  }

  lemma {:induction false} RankedDistinct(nodes: Nodes, order: seq<Id>)
    requires Ranked(nodes, order)
    ensures forall i, j :: 0 <= i < j < |order| ==> order[i] != order[j]
  {
    forall i, j | 0 <= i < j < |order|
      ensures order[i] != order[j]
    {
      AheadTotal(nodes, order[i], order[j]);
    }
  }

  /** Inserting a node into its place in a ranked list. */
  function Insert(nodes: Nodes, order: seq<Id>, id: Id): (order': seq<Id>)
    requires id in nodes && Ranked(nodes, order)
    ensures forall x :: x in order' <==> x in order || x == id
  {
    if order == [] || !Ahead(nodes, order[0], id) then [id] + order
    else
      assert order == [order[0]] + order[1..];
      [order[0]] + Insert(nodes, order[1..], id)
  }

  lemma {:induction false} InsertRanked(nodes: Nodes, order: seq<Id>, id: Id)
    requires id in nodes && Ranked(nodes, order) && id !in order
    ensures Ranked(nodes, Insert(nodes, order, id))
  {
    if order == [] {
    } else if !Ahead(nodes, order[0], id) {
      AheadTotal(nodes, order[0], id);
      forall j | 0 <= j < |order|
        ensures Ahead(nodes, id, order[j])
      {
        if j > 0 {
          AheadTransitive(nodes, id, order[0], order[j]);
        }
      }
    } else {
      var rest := Insert(nodes, order[1..], id);
      assert order == [order[0]] + order[1..];
      InsertRanked(nodes, order[1..], id);
      forall j | 0 <= j < |rest|
        ensures Ahead(nodes, order[0], rest[j])
      {
        assert rest[j] in rest;
        if rest[j] != id {
          var k :| 0 <= k < |order[1..]| && order[1..][k] == rest[j];
          assert order[k + 1] == rest[j];
        }
      }
    }
  }

  /** The serving order of a set of registered nodes. */
  ghost function OrderOf(nodes: Nodes, ids: set<Id>): (order: seq<Id>)
    requires ids <= nodes.Keys
    ensures IsOrder(nodes, ids, order)
  {
    if ids == {} then [] else
      var id :| id in ids;
      var rest := OrderOf(nodes, ids - {id});
      InsertRanked(nodes, rest, id);
      Insert(nodes, rest, id)
  }

  lemma HeadListed(nodes: Nodes, ids: set<Id>, order: seq<Id>)
    requires IsOrder(nodes, ids, order)
    ensures order == [] || order[0] in ids
  {
  }

  /** There is only one order, in whatever sequence the nodes are enumerated. */
  lemma {:induction false} OrderUnique(nodes: Nodes, ids: set<Id>, order: seq<Id>, order': seq<Id>)
    requires IsOrder(nodes, ids, order) && IsOrder(nodes, ids, order')
    ensures order == order'
    decreases |order|
  {
    if order == [] {
      HeadListed(nodes, ids, order');
    } else {
      assert order[0] in ids && order[0] in order';
      assert order'[0] in ids && order'[0] in order;
      FirstAgrees(nodes, order, order');
      RankedDistinct(nodes, order);
      RankedDistinct(nodes, order');
      TailOrder(nodes, ids, order);
      TailOrder(nodes, ids, order');
      OrderUnique(nodes, ids - {order[0]}, order[1..], order'[1..]);
      assert order == [order[0]] + order[1..] == [order'[0]] + order'[1..] == order';
    }
  }

  lemma FirstAgrees(nodes: Nodes, order: seq<Id>, order': seq<Id>)
    requires Ranked(nodes, order) && Ranked(nodes, order') && order != [] && order' != []
    requires order[0] in order' && order'[0] in order
    ensures order[0] == order'[0]
  {
    var i :| 0 <= i < |order| && order[i] == order'[0];
    var j :| 0 <= j < |order'| && order'[j] == order[0];
    AheadTotal(nodes, order[0], order'[0]);
  }

  lemma TailOrder(nodes: Nodes, ids: set<Id>, order: seq<Id>)
    requires IsOrder(nodes, ids, order) && order != []
    requires forall i, j :: 0 <= i < j < |order| ==> order[i] != order[j]
    ensures IsOrder(nodes, ids - {order[0]}, order[1..])
  {
    forall id
      ensures id in ids - {order[0]} <==> id in order[1..]
    {
      if id in order[1..] {
        var k :| 0 <= k < |order[1..]| && order[1..][k] == id;
        assert order[k + 1] == id;
      }
      assert order == [order[0]] + order[1..];
    }
  }

  /** The nodes that can accept tasks, in the order in which they serve. */
  ghost function Order(nodes: Nodes): (order: seq<Id>)
    ensures IsOrder(nodes, ActiveIds(nodes), order)
  {
    OrderOf(nodes, ActiveIds(nodes))
  }

  // ---------------------------------------------------------------- the registry object

  class NodeRegistry {
    var nodes: Nodes

    constructor ()
      ensures nodes == map[]
    {
      nodes := map[];
    }

    method DoRegister(id: Id, profile: Profile, now: nat)
      modifies this
      ensures nodes == Register(old(nodes), id, profile, now)
    {
      var reservation := ForDevice(profile.deviceType);
      nodes := nodes[id := Entry(profile, UNKNOWN_STATUS, Joining, ZERO_CAPACITY, [], reservation, now)];
    }

    method DoMarkReady(id: Id, status: Status) returns (r: Result<(), RegistryError>)
      modifies this
      ensures MarkReady(old(nodes), id, status) == if r.Ok? then Ok(nodes) else Err(r.error)
      ensures r.Err? ==> nodes == old(nodes)
    {
      if id !in nodes {
        return Err(NodeNotFound);
      }
      var entry := nodes[id];
      var state := TransitionTo(entry.state, Ready);
      if state.None? {
        return Err(InvalidTransition);
      }
      entry := entry.(state := state.value);
      entry := entry.(status := status);
      entry := entry.(capacity := Compute(entry.profile, entry.status, entry.reservation));
      nodes := nodes[id := entry];
      return Ok(());
    }

    method DoUpdateStatus(id: Id, status: Status, now: nat) returns (r: Result<bool, RegistryError>)
      modifies this
      ensures UpdateStatus(old(nodes), id, status, now) == if r.Ok? then Ok((nodes, r.value)) else Err(r.error)
      ensures r.Err? ==> nodes == old(nodes)
    {
      if id !in nodes {
        return Err(NodeNotFound);
      }
      var entry := nodes[id];
      var oldComposite := entry.capacity.composite;
      entry := entry.(status := status);
      entry := entry.(lastHeartbeat := now);
      entry := entry.(capacity := Compute(entry.profile, entry.status, entry.reservation));
      if entry.state == Active && entry.capacity.composite < DEGRADE_BELOW {
        var next := TransitionTo(entry.state, Degraded);
        entry := entry.(state := if next.Some? then next.value else entry.state);
      } else if entry.state == Degraded && entry.capacity.composite >= RECOVER_FROM {
        var next := TransitionTo(entry.state, Active);
        entry := entry.(state := if next.Some? then next.value else entry.state);
      }
      nodes := nodes[id := entry];
      var delta := Abs(entry.capacity.composite - oldComposite);
      return Ok(delta > 0.15);
    }

    method DoHeartbeat(id: Id, now: nat)
      modifies this
      ensures nodes == Heartbeat(old(nodes), id, now)
    {
      if id in nodes {
        nodes := nodes[id := nodes[id].(lastHeartbeat := now)];
      }
    }

    method Remove(id: Id)
      modifies this
      ensures nodes == old(nodes) - {id}
    {
      nodes := nodes - {id};
    }

    method DoAssignLayers(id: Id, layers: seq<nat>)
      modifies this
      ensures nodes == AssignLayers(old(nodes), id, layers)
    {
      if id in nodes {
        var entry := nodes[id];
        entry := entry.(assignedLayers := layers);
        if entry.state == Ready {
          var next := TransitionTo(entry.state, Active);
          entry := entry.(state := if next.Some? then next.value else entry.state);
        }
        nodes := nodes[id := entry];
      }
    }

    /** Sorts the active nodes, enumerated in any sequence. */
    method SortedByCapacity() returns (order: seq<Id>)
      ensures order == Order(nodes)
    {
      order := [];
      var rest := ActiveIds(nodes);
      ghost var done: set<Id> := {};
      while rest != {}
        invariant done !! rest && done + rest == ActiveIds(nodes)
        invariant IsOrder(nodes, done, order)
        decreases rest
      {
        var id :| id in rest;
        InsertRanked(nodes, order, id);
        order := Insert(nodes, order, id);
        rest, done := rest - {id}, done + {id};
      }
      OrderUnique(nodes, ActiveIds(nodes), order, Order(nodes));
    }
  }
}
