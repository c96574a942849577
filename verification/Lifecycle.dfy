/** The lifecycle of a node (src/node/state.rs) and the hysteresis around degradation (src/node/registry.rs). */
module Lifecycle {
  import opened Wrappers

  datatype NodeState = Joining | Ready | Active | Degraded | Draining | Left

  predicate CanTransition(from: NodeState, to: NodeState) {
    match from
    case Joining => to.Ready? || to.Left?
    case Ready => to.Active? || to.Draining?
    case Active => to.Degraded? || to.Draining?
    case Degraded => to.Active? || to.Draining?
    case Draining => to.Left?
    case Left => false
  }

  /** A transition, refused when illegal. */
  function TransitionTo(from: NodeState, to: NodeState): Option<NodeState> {
    if CanTransition(from, to) then Some(to) else None
  }

  /** Every change along a path is legal. */
  predicate LegalPath(path: seq<NodeState>) {
    forall i :: 0 <= i < |path| - 1 ==> CanTransition(path[i], path[i + 1])
  }

  /**
   The life of a node that joined: it is Joining only at first; it is Active or Degraded only after Ready, and
   Degraded only just after Active; it is Draining at most once, after Ready; and Left is the end, reached from
   Draining, or at once if it never became ready.
   */
  predicate Lived(path: seq<NodeState>) {
    && (forall i :: 0 < i < |path| ==> !path[i].Joining?)
    && (forall i :: 0 < i < |path| && path[i].Ready? ==> i == 1)
    && (forall i :: 0 < i < |path| && (path[i].Active? || path[i].Degraded? || path[i].Draining?) ==>
          i > 1 && path[1].Ready?)
    && (forall i :: 0 < i < |path| && path[i].Degraded? ==> path[i - 1].Active?)
    && (forall i :: 0 < i < |path| - 1 && path[i].Draining? ==> path[i + 1].Left?)
    && (forall i :: 0 < i < |path| && path[i].Left? ==> i == |path| - 1 && (path[i - 1].Draining? || i == 1))
  }

  lemma {:induction false} LegalLife(path: seq<NodeState>)
    requires path != [] && path[0] == Joining && LegalPath(path)
    ensures Lived(path)
  {
    if |path| > 1 {
      var front := path[..|path| - 1];
      LegalLife(front);
      assert path == front + [path[|path| - 1]];
      assert CanTransition(path[|path| - 2], path[|path| - 1]);
    }
  }

  /** Any state but Left leads to Left, through Draining once the node was ready; and any serving state to any other. */
  lemma LivesGoOn()
    ensures LegalPath([Joining, Left])
    ensures forall s: NodeState :: s.Ready? || s.Active? || s.Degraded? ==> LegalPath([s, Draining, Left])
    ensures LegalPath([Joining, Ready, Active, Degraded, Active])
  {
  }

  predicate CanAcceptTasks(s: NodeState) { s.Active? || s.Ready? }

  const DEGRADE_BELOW := 0.1
  const RECOVER_FROM := 0.15

  /** The state after a status update that leaves the node at the given composite score. */
  function AfterScore(s: NodeState, composite: real): NodeState {
    if s.Active? && composite < DEGRADE_BELOW then
      (if CanTransition(s, Degraded) then Degraded else s)
    else if s.Degraded? && composite >= RECOVER_FROM then
      (if CanTransition(s, Active) then Active else s)
    else s
  }

  // ---------------------------------------------------------------- the two thresholds

  /** The state after a run of scores. */
  function AfterAll(s: NodeState, scores: seq<real>): NodeState
    decreases |scores|
  {
    if scores == [] then s else AfterAll(AfterScore(s, scores[0]), scores[1..])
  }

  /** No score reached 0.15. */
  predicate NoneRecovered(scores: seq<real>) {
    forall i :: 0 <= i < |scores| ==> scores[i] < 0.15
  }

  /** Some score was below 0.1, and none after it reached 0.15. */
  ghost predicate FellAndStayed(scores: seq<real>) {
    exists i :: 0 <= i < |scores| && scores[i] < 0.1 && NoneRecovered(scores[i + 1..])
  }

  lemma FellFirstOrLater(scores: seq<real>)
    requires scores != []
    ensures FellAndStayed(scores)
       <==> (scores[0] < 0.1 && NoneRecovered(scores[1..])) || FellAndStayed(scores[1..])
  {
    var rest := scores[1..];
    forall i | 0 <= i < |rest|
      ensures rest[i + 1..] == scores[i + 2..] && rest[i] == scores[i + 1]
    {
    }
    if FellAndStayed(scores) {
      var i :| 0 <= i < |scores| && scores[i] < 0.1 && NoneRecovered(scores[i + 1..]);
      if i > 0 {
        assert rest[i - 1] < 0.1 && NoneRecovered(rest[i - 1 + 1..]);
      }
    }
    if FellAndStayed(rest) {
      var i :| 0 <= i < |rest| && rest[i] < 0.1 && NoneRecovered(rest[i + 1..]);
      assert scores[i + 1] < 0.1 && NoneRecovered(scores[i + 1 + 1..]);
    }
  }

  /**
   After any run of scores an active node is degraded if and only if some score was below 0.1 and none since
   reached 0.15; a node that was degraded to begin with also if no score reached 0.15 at all.
   */
  lemma {:induction false} StateAfterScores(s: NodeState, scores: seq<real>)
    requires s.Active? || s.Degraded?
    ensures AfterAll(s, scores)
         == if FellAndStayed(scores) || (s.Degraded? && NoneRecovered(scores)) then Degraded else Active
    decreases |scores|
  {
    if scores != [] {
      FellFirstOrLater(scores);
      StateAfterScores(AfterScore(s, scores[0]), scores[1..]);
      assert NoneRecovered(scores) <==> scores[0] < 0.15 && NoneRecovered(scores[1..]) by {
        assert scores == [scores[0]] + scores[1..];
      }
    }
  }

  // ---------------------------------------------------------------- hysteresis

  function Abs(x: real): real { if x < 0.0 then -x else x }

  /** How often a node changes state over a run of scores. */
  function Switches(s: NodeState, scores: seq<real>): nat
    decreases |scores|
  {
    if scores == [] then 0 else
      var s' := AfterScore(s, scores[0]);
      (if s' == s then 0 else 1) + Switches(s', scores[1..])
  }

  /** How far the score travels over a run. */
  function Variation(scores: seq<real>): real {
    if |scores| <= 1 then 0.0 else Abs(scores[1] - scores[0]) + Variation(scores[1..])
  }

  /** How far a score is from the threshold that would next change the state. */
  function Gap(s: NodeState, score: real): real {
    if s.Active? && score > DEGRADE_BELOW then score - DEGRADE_BELOW
    else if s.Degraded? && score < RECOVER_FROM then RECOVER_FROM - score
    else 0.0
  }

  lemma {:induction false} SwitchesCost(s: NodeState, score: real, scores: seq<real>)
    requires Switches(s, scores) >= 1
    ensures Variation([score] + scores) >= 0.05 * (Switches(s, scores) - 1) as real + Gap(s, score)
    decreases |scores|
  {
    var s' := AfterScore(s, scores[0]);
    assert ([score] + scores)[1..] == scores == [scores[0]] + scores[1..];
    if Switches(s', scores[1..]) >= 1 {
      SwitchesCost(s', scores[0], scores[1..]);
    } else {
      VariationNonNegative(scores);
    }
  }

  lemma {:induction false} VariationNonNegative(scores: seq<real>)
    ensures Variation(scores) >= 0.0
  {
    if |scores| > 1 {
      VariationNonNegative(scores[1..]);
    }
  }

  /**
   Over any run of status updates, a node that changes state k times has seen its score travel at least
   0.05 times k - 1: the two thresholds keep a score that hovers near one of them from flapping.
   */
  lemma HysteresisBound(s: NodeState, scores: seq<real>)
    ensures Variation(scores) >= 0.05 * (Switches(s, scores) - 1) as real
  {
    VariationNonNegative(scores);
    if scores != [] {
      var s' := AfterScore(s, scores[0]);
      assert [scores[0]] + scores[1..] == scores;
      if Switches(s', scores[1..]) >= 1 {
        SwitchesCost(s', scores[0], scores[1..]);
      }
    }
  }
}
