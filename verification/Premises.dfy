/**
 The premises of the end-to-end theorem can be met together: by an envelope, by an arithmetic, and by a swarm
 of two nodes that joined one after the other, which then generates as the undivided model does.
 */
module Premises {
  import opened Wrappers
  import opened Attention
  import opened Transformer
  import opened HandOff
  import opened Backend
  import opened Registry
  import opened SplitModel
  import opened Sweep
  import opened TwoNodes
  import CacheCoherence
  import Orchestrator

  // ---------------------------------------------------------------- libraries

  /** An envelope that neither compresses nor hides anything. */
  const PLAIN := Envelope(
    (d: seq<byte>) => d,
    (d: seq<byte>) => if |d| <= DECOMPRESS_CAP then Some(d) else None,
    (n: nat, k: Key, a: string, d: seq<byte>) => [0 as byte] + d,
    (k: Key, a: string, s: seq<byte>) => if s == [] then None else Some(s[1..]))

  lemma PlainIsIdeal()
    ensures Ideal(PLAIN)
  {
  }

  function Wrapped(x: nat): Word { (x % 0x1_0000_0000) as Word }

  /** Arithmetic on words as integers that wrap around. */
  const WRAPPING := Arith(
    0,
    (x: Word, y: Word) => Wrapped(x as nat + y as nat),
    (x: Word, y: Word) => Wrapped(x as nat * y as nat),
    (x: Word, y: Word) => if y == 0 then 0 else Wrapped(x as nat / y as nat),
    (x: Word, y: Word) => if x < y then y else x,
    (x: Word, y: Word) => Wrapped(x as nat + y as nat))

  lemma WrappingIsLawful()
    ensures ZeroLaws(WRAPPING)
  {
  }

  // ---------------------------------------------------------------- a swarm of two

  /** Both nodes are stages, in order, hold a layer each, and the first leads. */
  ghost predicate BothServe(cfg: Orchestrator.Config, s: Orchestrator.State, a: Id, b: Id) {
    && s.nodes.Keys == {a, b} && s.pipeline.stages == [a, b] && HeadIsFirstStage(cfg, s)
    && s.nodes[a].assignedLayers == [0] && s.nodes[b].assignedLayers == [1]
  }

  lemma JoinedServe(cfg: Orchestrator.Config, a: Id, b: Id)
    requires a != b && cfg.isPeer(a) && cfg.isPeer(b) && cfg.total == 2
    ensures BothServe(cfg, Orchestrator.Run(cfg, Joins(a, b)), a, b)
  {
    AfterJoins(cfg, a, b);
    BothPeers(cfg, a, b);
    LayersAfterJoins(cfg, a, b);
  }

  lemma TwoLayersTile(nodes: Nodes, a: Id, b: Id)
    requires a in nodes && b in nodes && nodes[a].assignedLayers == [0] && nodes[b].assignedLayers == [1]
    ensures Orchestrator.LayersOf(nodes, [a, b]) == Orchestrator.Range(0, 2)
  {
    assert [a, b] == [a] + [b] && [a] == [] + [a];
    Orchestrator.LayersSnoc(nodes, [], a);
    Orchestrator.LayersSnoc(nodes, [a], b);
  }

  lemma BothServeIsService(cfg: Orchestrator.Config, s: Orchestrator.State, world: World, m: Weights, a: Id, b: Id)
    returns (cuts: seq<nat>)
    requires a != b && BothServe(cfg, s, a, b) && |m.layers| == 2 && Staffed(world, [a, b], m)
    ensures InService(cfg, s, world, m, cuts)
  {
    TwoLayersTile(s.nodes, a, b);
    TilingInService(cfg, s, world, m);
    cuts := CutsOf(s.nodes, s.pipeline.stages);
  }

  /** Two peers that joined one after the other, and have access to a model of two layers, are in service. */
  lemma TwoNodesInService(cfg: Orchestrator.Config, world: World, m: Weights, a: Id, b: Id) returns (cuts: seq<nat>)
    requires a != b && cfg.isPeer(a) && cfg.isPeer(b) && cfg.total == |m.layers| == 2
    requires Staffed(world, [a, b], m)
    ensures InService(cfg, Orchestrator.Run(cfg, Joins(a, b)), world, m, cuts)
  {
    JoinedServe(cfg, a, b);
    cuts := BothServeIsService(cfg, Orchestrator.Run(cfg, Joins(a, b)), world, m, a, b);
  }

  lemma ExecutorsAreDutiful(env: Envelope, nonces: nat -> nat, key: Key, m: Weights, d: nat)
    requires Ideal(env)
    ensures Dutiful(k => TaskRunner(env, nonces, key), env, key, m, d)
  {
    ExecutorMeets(env, nonces, key, m, d);
    ExecutorEchoes(env, nonces, key);
  }

  // ---------------------------------------------------------------- a generation

  /** A request for one call, without an initial state. */
  function Ask(taskId: string, tokens: seq<i32>, pos: nat): ClientRequest {
    ClientRequest(taskId, [], CacheCoherence.Call(tokens, pos))
  }

  lemma PromptThenToken(m: Weights, cuts: seq<nat>, d: nat, prompt: Offer, next: Offer)
    requires Delivered(cuts, d, prompt) && Delivered(cuts, d, next)
    requires CacheCoherence.Servable(m, prompt.call) && prompt.call.tokens != [] && prompt.call.pos == 0
    requires CacheCoherence.Servable(m, next.call) && |next.call.tokens| == 1
    requires next.call.pos == |prompt.call.tokens|
    ensures WellFormedOffers(m, cuts, d, [prompt] + [next])
    ensures SplitContextOf(m, cuts, d, [prompt] + [next]) == prompt.call.tokens + next.call.tokens
  {
    var offers := [prompt] + [next];
    assert offers[..0] == [] && offers[..1] == [prompt] && offers[..1][..0] == [];
    assert SplitContextOf(m, cuts, d, [prompt]) == prompt.call.tokens;
    forall i | 0 <= i < |offers|
      ensures CacheCoherence.Follows(offers[i].call, SplitContextOf(m, cuts, d, offers[..i]))
    {
      assert i == 0 || i == 1;
    }
  }

  /** What serving a prompt and then one token should give. */
  ghost predicate Continues(
    cfg: Orchestrator.Config, env: Envelope, nonces: nat -> nat, key: Key, s: Orchestrator.State, world: World,
    runs: nat -> StageRunner, m: Weights, prompt: seq<i32>, token: i32)
  {
    var (s', world') := ServeAll(cfg, env, nonces, key, s, world, runs, [Ask("0", prompt, 0)]);
    var r := Serve(cfg, env, nonces(1), key, s', world', runs(1), Ask("1", [token], |prompt|));
    r.outcome.Logits? && CacheCoherence.Recompute(m, prompt + [token]) == Ok(r.outcome.logits)
  }

  /** On a swarm in service any prompt and then any token at the next position are answered. */
  lemma ServiceContinues(
    cfg: Orchestrator.Config, env: Envelope, nonces: nat -> nat, key: Key, s: Orchestrator.State, world: World,
    runs: nat -> StageRunner, m: Weights, cuts: seq<nat>, d: nat, prompt: seq<i32>, token: i32)
    requires InService(cfg, s, world, m, cuts) && Ideal(env) && Dutiful(runs, env, key, m, d)
    requires EmbedsTo(m, d) && CacheCoherence.LayersLawful(m.layers)
    requires prompt != [] && HandOffFits(|prompt|, d) && |prompt| < MAX_SEQ_LEN
    requires TokensKnown(m.embedding.vocab, prompt + [token])
    ensures Continues(cfg, env, nonces, key, s, world, runs, m, prompt, token)
  {
    var (first, next) := (Ask("0", prompt, 0), Ask("1", [token], |prompt|));
    KnownParts(m.embedding.vocab, prompt, token);
    SmallerFits(|prompt|, d);
    PromptThenToken(m, cuts, d, Offered(first), Offered(next));
    assert OfferedAll([first]) == [Offered(first)];
    SwarmGenerates(cfg, env, nonces, key, s, world, runs, [first], next, m, cuts, d);
  }

  /**
   On the swarm of two, with the real executors, any prompt and then any token at the next position are
   answered with the logits of the undivided model on the prompt and that token.
   */
  lemma TwoNodesGenerate(
    cfg: Orchestrator.Config, env: Envelope, nonces: nat -> nat, key: Key, world: World, m: Weights, d: nat,
    a: Id, b: Id, prompt: seq<i32>, token: i32)
    requires a != b && cfg.isPeer(a) && cfg.isPeer(b) && cfg.total == |m.layers| == 2
    requires Staffed(world, [a, b], m) && Ideal(env) && EmbedsTo(m, d) && CacheCoherence.LayersLawful(m.layers)
    requires prompt != [] && HandOffFits(|prompt|, d) && |prompt| < MAX_SEQ_LEN
    requires TokensKnown(m.embedding.vocab, prompt + [token])
    ensures Continues(cfg, env, nonces, key, Orchestrator.Run(cfg, Joins(a, b)), world,
                      k => TaskRunner(env, nonces, key), m, prompt, token)
  {
    var cuts := TwoNodesInService(cfg, world, m, a, b);
    ExecutorsAreDutiful(env, nonces, key, m, d);
    ServiceContinues(cfg, env, nonces, key, Orchestrator.Run(cfg, Joins(a, b)), world,
                     k => TaskRunner(env, nonces, key), m, cuts, d, prompt, token);
  }

  lemma KnownParts(vocab: nat, prompt: seq<i32>, token: i32)
    requires TokensKnown(vocab, prompt + [token])
    ensures TokensKnown(vocab, prompt) && TokensKnown(vocab, [token])
  {
    assert (prompt + [token])[|prompt|] == token;
    forall i | 0 <= i < |prompt|
      ensures TokenId(prompt[i]) < vocab
    {
      assert (prompt + [token])[i] == prompt[i];
    }
  }

  lemma SmallerFits(n: nat, d: nat)
    requires n > 0 && HandOffFits(n, d)
    ensures HandOffFits(1, d)
  {
    assert n * d == d + (n - 1) * d;
  }

  // ---------------------------------------------------------------- everything concrete

  function FirstOf(row: Row): Word { if row == [] then 0 else row[0] }

  /** A layer of one head of width one, whose keys are shifted by the position. */
  const TOY_LAYER := LayerOps(
    WRAPPING, (x: Row) => x, (x: Row) => x, (x: Row) => x, (x: Row) => x,
    (x: Row, pos: nat) => [Wrapped(FirstOf(x) as nat + pos)],
    1, 1,
    (h: nat, q: Row, k: Row) => Wrapped(FirstOf(q) as nat * FirstOf(k) as nat),
    (h: nat, c: nat, v: Row) => FirstOf(v),
    (heads: seq<Row>) => if heads == [] then [] else heads[0],
    (x: Row) => x, (x: Row) => x)

  /** A model of two layers with four tokens and rows of width one. */
  const TOY := Weights(
    [TOY_LAYER, TOY_LAYER],
    Embedding(4, (t: nat) => [Wrapped(t)]),
    Head((x: Row) => x, (x: Row) => x))

  /** A node that knows the model and has loaded nothing yet. */
  const TOY_NODE: Node := BackendState(Some(TOY), None, [], None, None)

  function ToyWorld(a: Id, b: Id): World { map[a := TOY_NODE, b := TOY_NODE] }

  lemma ToyMeetsPremises(a: Id, b: Id)
    ensures EmbedsTo(TOY, 1) && CacheCoherence.LayersLawful(TOY.layers)
    ensures Staffed(ToyWorld(a, b), [a, b], TOY)
    ensures HandOffFits(2, 1) && TokensKnown(TOY.embedding.vocab, [1, 2] + [3])
  {
    WrappingIsLawful();
  }

  /** One instance with every premise discharged, but that two nodes with peer ids join. */
  lemma ToyGenerates(cfg: Orchestrator.Config, nonces: nat -> nat, key: Key, a: Id, b: Id)
    requires a != b && cfg.isPeer(a) && cfg.isPeer(b) && cfg.total == 2
    ensures Continues(cfg, PLAIN, nonces, key, Orchestrator.Run(cfg, Joins(a, b)), ToyWorld(a, b),
                      k => TaskRunner(PLAIN, nonces, key), TOY, [1, 2], 3)
  {
    PlainIsIdeal();
    ToyMeetsPremises(a, b);
    TwoNodesGenerate(cfg, PLAIN, nonces, key, ToyWorld(a, b), TOY, 1, a, b, [1, 2], 3);
  }
}
