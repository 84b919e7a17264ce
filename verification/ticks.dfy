/** What one tick of the simulation does to the world, stage by stage, as
    functions (libs/simulation/src/lib.rs): feeding, then the brains'
    decisions, then movement; and, at a generation boundary, the rebirth of
    the agents from evolved chromosomes and the scattering of the food. The
    class in the simulation module performs these stages in place and is
    proved against them. */
module Ticks {
  import opened Results
  import opened Randomness
  import opened Agents
  import Brains
  import Networks
  import AgentIndividuals
  import Worlds
  import Individuals
  import RouletteWheel
  import GaussianMutations
  import GeneticAlgorithms

  const SPEED_MIN: real := 0.001
  const SPEED_MAX: real := 0.005
  const SPEED_ACCEL: real := 0.2
  /** FRAC_PI_4 */
  const ROTATION_ACCEL: real := 0.7853981633974483
  /** An agent eats a food no farther than this. */
  const EAT_RADIUS: real := 0.02

  /** `f32::clamp` */
  function Clamp(x: real, lo: real, hi: real): (r: real)
    requires lo <= hi
    ensures lo <= r <= hi
    ensures lo <= x <= hi ==> r == x
    ensures x < lo ==> r == lo
    ensures x > hi ==> r == hi
  {
    if x < lo then lo else if x > hi then hi else x
  }

  /** The foods eaten by all agents together this generation. */
  function Eaten(agents: seq<Agent>): nat {
    if agents == [] then 0 else Eaten(agents[..|agents| - 1]) + agents[|agents| - 1].satiation
  }

  lemma {:induction false} EatenUpdate(agents: seq<Agent>, i: nat, a: Agent)
    requires i < |agents|
    ensures Eaten(agents[i := a]) == Eaten(agents) - agents[i].satiation + a.satiation
    decreases |agents|
  {
    var n := |agents| - 1;
    if i < n {
      EatenUpdate(agents[..n], i, a);
      assert agents[i := a][..n] == agents[..n][i := a];
    } else {
      assert agents[i := a][..n] == agents[..n];
    }
  }

  /** Nobody ate exactly when every satiation is zero. */
  lemma {:induction false} EatenPositive(agents: seq<Agent>)
    ensures Eaten(agents) > 0 <==> exists k :: 0 <= k < |agents| && agents[k].satiation > 0
    decreases |agents|
  {
    if agents != [] {
      var n := |agents| - 1;
      EatenPositive(agents[..n]);
      if Eaten(agents[..n]) > 0 {
        var k :| 0 <= k < n && agents[..n][k].satiation > 0;
        assert agents[k].satiation > 0;
      }
      if exists k :: 0 <= k < |agents| && agents[k].satiation > 0 {
        var k :| 0 <= k < |agents| && agents[k].satiation > 0;
        if k < n {
          assert agents[..n][k].satiation > 0;
        }
      }
    }
  }

  // ---- Feeding ----------------------------------------------------------

  /** A food no farther from the point than the eating radius. */
  predicate InReach(env: Environment, at: Point, food: Food) {
    env.distance(at, food.position) <= EAT_RADIUS
  }

  /** How many of the foods lie within reach of the point. */
  function Reachable(env: Environment, at: Point, foods: seq<Food>): (n: nat)
    ensures n <= |foods|
    ensures n > 0 <==> exists m :: 0 <= m < |foods| && InReach(env, at, foods[m])
    decreases |foods|
  {
    if foods == [] then 0
    else
      var rest := Reachable(env, at, foods[1..]);
      assert forall m :: 1 <= m < |foods| ==> foods[m] == foods[1..][m - 1];
      (if InReach(env, at, foods[0]) then 1 else 0) + rest
  }

  /** The inner loop of `process_collisions` from food j on: every food
      within reach is eaten, adding one to the agent's satiation, and moved
      to a fresh random point (two draws). Nothing else changes. */
  function FeedOn(env: Environment, agent: Agent, foods: seq<Food>, rng: Rng, j: nat): (res: (Agent, seq<Food>, Rng))
    requires j <= |foods|
    ensures |res.1| == |foods| && res.1[..j] == foods[..j]
    ensures res.0 == agent.(satiation := res.0.satiation)
    ensures agent.satiation <= res.0.satiation <= agent.satiation + (|foods| - j)
    ensures res.2.stream == rng.stream && res.2.pos == rng.pos + 2 * (res.0.satiation - agent.satiation)
    decreases |foods| - j
  {
    if j == |foods| then (agent, foods, rng)
    else if InReach(env, agent.position, foods[j]) then
      var (p, r) := GenPoint(rng);
      FeedOn(env, agent.(satiation := agent.satiation + 1), foods[j := foods[j].(position := p)], r, j + 1)
    else FeedOn(env, agent, foods, rng, j + 1)
  }

  /** The outer loop of `process_collisions` from agent i on: each agent in
      turn scans every food, seeing the foods the agents before it moved. */
  function CollideFrom(env: Environment, agents: seq<Agent>, foods: seq<Food>, rng: Rng, i: nat): (res: (seq<Agent>, seq<Food>, Rng))
    requires i <= |agents|
    ensures |res.0| == |agents| && |res.1| == |foods|
    ensures res.0[..i] == agents[..i]
    ensures forall k :: 0 <= k < |agents| ==>
              res.0[k] == agents[k].(satiation := res.0[k].satiation) && res.0[k].satiation >= agents[k].satiation
    ensures res.2.stream == rng.stream
    decreases |agents| - i
  {
    if i == |agents| then (agents, foods, rng)
    else
      var (a, fs, r) := FeedOn(env, agents[i], foods, rng, 0);
      CollideFrom(env, agents[i := a], fs, r, i + 1)
  }

  /** Every meal costs exactly two draws: the new point of the food eaten. */
  lemma {:induction false} CollideDraws(env: Environment, agents: seq<Agent>, foods: seq<Food>, rng: Rng, i: nat)
    requires i <= |agents|
    ensures var (after, _, r) := CollideFrom(env, agents, foods, rng, i);
            r.pos == rng.pos + 2 * (Eaten(after) - Eaten(agents)) && Eaten(after) >= Eaten(agents)
    decreases |agents| - i
  {
    if i < |agents| {
      var (a, fs, r) := FeedOn(env, agents[i], foods, rng, 0);
      EatenUpdate(agents, i, a);
      CollideDraws(env, agents[i := a], fs, r, i + 1);
    }
  }

  /** The agent gains exactly one satiation per food from j on that lies
      within its reach. */
  lemma {:induction false} FeedOnGain(env: Environment, agent: Agent, foods: seq<Food>, rng: Rng, j: nat)
    requires j <= |foods|
    ensures FeedOn(env, agent, foods, rng, j).0.satiation == agent.satiation + Reachable(env, agent.position, foods[j..])
    decreases |foods| - j
  {
    if j < |foods| {
      assert foods[j..][0] == foods[j] && foods[j..][1..] == foods[j + 1..];
      if InReach(env, agent.position, foods[j]) {
        var (p, r) := GenPoint(rng);
        var moved := foods[j := foods[j].(position := p)];
        FeedOnGain(env, agent.(satiation := agent.satiation + 1), moved, r, j + 1);
        assert moved[j + 1..] == foods[j + 1..];
      } else {
        FeedOnGain(env, agent, foods, rng, j + 1);
      }
    }
  }

  /** Food m, from j on, stays where it is when out of the agent's reach;
      otherwise it is eaten and moved to the point drawn right after the
      meals on the reachable foods before it. */
  lemma {:induction false} FeedOnFoods(env: Environment, agent: Agent, foods: seq<Food>, rng: Rng, j: nat, m: nat)
    requires j <= m < |foods|
    ensures FeedOn(env, agent, foods, rng, j).1[m] ==
              if InReach(env, agent.position, foods[m])
              then Food(GenPoint(rng.Skip(2 * Reachable(env, agent.position, foods[j..m]))).0)
              else foods[m]
    decreases |foods| - j
  {
    var at := agent.position;
    if InReach(env, at, foods[j]) {
      var (p, r) := GenPoint(rng);
      var moved := foods[j := foods[j].(position := p)];
      var fed := agent.(satiation := agent.satiation + 1);
      if m == j {
        assert foods[j..m] == [];
        assert FeedOn(env, fed, moved, r, j + 1).1[..j + 1] == moved[..j + 1];
      } else {
        FeedOnFoods(env, fed, moved, r, j + 1, m);
        assert moved[j + 1..m] == foods[j + 1..m];
        assert foods[j..m][0] == foods[j] && foods[j..m][1..] == foods[j + 1..m];
      }
    } else {
      if m == j {
        assert foods[j..m] == [];
        assert FeedOn(env, agent, foods, rng, j + 1).1[..j + 1] == foods[..j + 1];
      } else {
        FeedOnFoods(env, agent, foods, rng, j + 1, m);
        assert foods[j..m][0] == foods[j] && foods[j..m][1..] == foods[j + 1..m];
      }
    }
  }

  /** The world after the first k agents have fed, one after another, each
      on the foods the agents before it left: what `process_collisions`
      has done part-way through its outer loop. */
  function Fed(env: Environment, agents: seq<Agent>, foods: seq<Food>, rng: Rng, k: nat): (res: (seq<Agent>, seq<Food>, Rng))
    requires k <= |agents|
    ensures |res.0| == |agents| && |res.1| == |foods|
    ensures forall n :: k <= n < |agents| ==> res.0[n] == agents[n]
    decreases k
  {
    if k == 0 then (agents, foods, rng)
    else
      var (before, seen, r) := Fed(env, agents, foods, rng, k - 1);
      var (a, fs, r2) := FeedOn(env, agents[k - 1], seen, r, 0);
      (before[k - 1 := a], fs, r2)
  }

  /** Running the outer loop from agent i on what the first i agents left
      ends where feeding all of them one by one ends. */
  lemma {:induction false} CollideFromFed(env: Environment, agents: seq<Agent>, foods: seq<Food>, rng: Rng, i: nat)
    requires i <= |agents|
    ensures var (before, seen, r) := Fed(env, agents, foods, rng, i);
            CollideFrom(env, before, seen, r, i) == Fed(env, agents, foods, rng, |agents|)
    decreases |agents| - i
  {
    if i < |agents| {
      CollideFromFed(env, agents, foods, rng, i + 1);
    }
  }

  /** Agent k's final state is what it made of the foods the agents before
      it left. */
  lemma {:induction false} FedAgent(env: Environment, agents: seq<Agent>, foods: seq<Food>, rng: Rng, k: nat, n: nat)
    requires k < n <= |agents|
    ensures var (_, seen, r) := Fed(env, agents, foods, rng, k);
            Fed(env, agents, foods, rng, n).0[k] == FeedOn(env, agents[k], seen, r, 0).0
    decreases n
  {
    if n > k + 1 {
      FedAgent(env, agents, foods, rng, k, n - 1);
    }
  }

  /** `process_collisions` raises each agent's satiation by exactly the
      number of foods within its reach among those the agents before it
      left behind. */
  lemma CollideGain(env: Environment, agents: seq<Agent>, foods: seq<Food>, rng: Rng, k: nat)
    requires k < |agents|
    ensures CollideFrom(env, agents, foods, rng, 0).0[k].satiation ==
              agents[k].satiation + Reachable(env, agents[k].position, Fed(env, agents, foods, rng, k).1)
  {
    CollideFromFed(env, agents, foods, rng, 0);
    FedAgent(env, agents, foods, rng, k, |agents|);
    var (_, seen, r) := Fed(env, agents, foods, rng, k);
    FeedOnGain(env, agents[k], seen, r, 0);
    assert seen[0..] == seen;
  }

  /** Agent k's turn moves exactly the foods within its reach, each to the
      point drawn right after the meals before it, and leaves the rest. */
  lemma CollideFoods(env: Environment, agents: seq<Agent>, foods: seq<Food>, rng: Rng, k: nat, m: nat)
    requires k < |agents| && m < |foods|
    ensures var (_, seen, r) := Fed(env, agents, foods, rng, k);
            Fed(env, agents, foods, rng, k + 1).1[m] ==
              if InReach(env, agents[k].position, seen[m])
              then Food(GenPoint(r.Skip(2 * Reachable(env, agents[k].position, seen[..m]))).0)
              else seen[m]
  {
    var (_, seen, r) := Fed(env, agents, foods, rng, k);
    FeedOnFoods(env, agents[k], seen, r, 0, m);
    assert seen[0..m] == seen[..m];
  }

  /** The first n agents leave a food out of reach of all of them where it
      was. */
  lemma {:induction false} FedKeepsFar(env: Environment, agents: seq<Agent>, foods: seq<Food>, rng: Rng, n: nat, m: nat)
    requires n <= |agents| && m < |foods|
    requires forall k :: 0 <= k < |agents| ==> !InReach(env, agents[k].position, foods[m])
    ensures Fed(env, agents, foods, rng, n).1[m] == foods[m]
    decreases n
  {
    if n > 0 {
      FedKeepsFar(env, agents, foods, rng, n - 1, m);
      CollideFoods(env, agents, foods, rng, n - 1, m);
    }
  }

  /** A food out of reach of every agent is not moved by
      `process_collisions`. */
  lemma CollideKeepsFar(env: Environment, agents: seq<Agent>, foods: seq<Food>, rng: Rng, m: nat)
    requires m < |foods|
    requires forall k :: 0 <= k < |agents| ==> !InReach(env, agents[k].position, foods[m])
    ensures CollideFrom(env, agents, foods, rng, 0).1[m] == foods[m]
  {
    CollideFromFed(env, agents, foods, rng, 0);
    FedKeepsFar(env, agents, foods, rng, |agents|, m);
  }

  // ---- Brains -----------------------------------------------------------

  /** The speed and rotation changes the agent's brain asks for: the two
      outputs for what its eye sees, each clamped. The outputs come out of
      a ReLU, so both changes are non-negative. */
  function Steering(env: Environment, agent: Agent, foods: seq<Food>): (d: (real, real))
    requires Sound(env) && Fits(env, agent)
    ensures 0.0 <= d.0 <= SPEED_ACCEL
    ensures 0.0 <= d.1 <= ROTATION_ACCEL
  {
    var vision := env.see(agent.eye, agent.position, agent.rotation, foods);
    Brains.Decides(agent.brain, env.eye, vision);
    var response := Networks.Feed(agent.brain.nn.layers, vision);
    (Clamp(response[0], -SPEED_ACCEL, SPEED_ACCEL), Clamp(response[1], -ROTATION_ACCEL, ROTATION_ACCEL))
  }

  /** One agent's turn in `process_brains`: the speed change is applied and
      the result clamped to the speed range; the heading turns. */
  function Decide(env: Environment, agent: Agent, foods: seq<Food>): (a: Agent)
    requires Sound(env) && Fits(env, agent)
    ensures a == agent.(speed := a.speed, rotation := a.rotation)
    ensures SPEED_MIN <= a.speed <= SPEED_MAX
  {
    var (speed, rotation) := Steering(env, agent, foods);
    agent.(speed := Clamp(agent.speed + speed, SPEED_MIN, SPEED_MAX),
           rotation := env.turn(agent.rotation, rotation))
  }

  /** As the brain can only add speed, an agent in the speed range never
      slows down: its speed grows or is capped at the maximum. */
  lemma DecideNeverSlows(env: Environment, agent: Agent, foods: seq<Food>)
    requires Sound(env) && Fits(env, agent)
    requires SPEED_MIN <= agent.speed <= SPEED_MAX
    ensures agent.speed <= Decide(env, agent, foods).speed
  {
  }

  /** `process_brains`: every agent decides on the same foods. */
  function DecideAll(env: Environment, agents: seq<Agent>, foods: seq<Food>): (r: seq<Agent>)
    requires Sound(env) && AllFit(env, agents)
    ensures |r| == |agents| && AllFit(env, r)
    ensures forall k :: 0 <= k < |r| ==> r[k] == Decide(env, agents[k], foods)
    ensures forall k :: 0 <= k < |r| ==> SPEED_MIN <= r[k].speed <= SPEED_MAX
    ensures forall k :: 0 <= k < |r| ==> r[k].satiation == agents[k].satiation
  {
    seq(|agents|, k requires 0 <= k < |agents| => Decide(env, agents[k], foods))
  }

  // ---- Movement ---------------------------------------------------------

  /** One agent's step in `process_movement`. */
  function Move(env: Environment, agent: Agent): (a: Agent)
    ensures a == agent.(position := a.position)
  {
    agent.(position := env.move(agent.position, agent.rotation, agent.speed))
  }

  function MoveAll(env: Environment, agents: seq<Agent>): (r: seq<Agent>)
    ensures |r| == |agents|
    ensures forall k :: 0 <= k < |r| ==> r[k] == Move(env, agents[k])
  {
    seq(|agents|, k requires 0 <= k < |agents| => Move(env, agents[k]))
  }

  // ---- Generation boundary ----------------------------------------------

  /** The agents as the genetic algorithm sees them. */
  function Snapshot(agents: seq<Agent>): (population: seq<AgentIndividuals.AgentIndividual>)
    ensures |population| == |agents|
    ensures forall k :: 0 <= k < |agents| ==> population[k] == AgentIndividuals.FromAgent(agents[k])
  {
    seq(|agents|, k requires 0 <= k < |agents| => AgentIndividuals.FromAgent(agents[k]))
  }

  /** `AgentIndividual::into_agent` as a step over the source. */
  function Rebirth(env: Environment): (step: (AgentIndividuals.AgentIndividual, Rng) -> Result<(Agent, Rng)>)
    ensures forall ind, r :: step(ind, r) == AgentIndividuals.IntoAgent(env, ind, r)
  {
    (ind, r) => AgentIndividuals.IntoAgent(env, ind, r)
  }

  /** A new agent is made from its individual: it carries the shared eye,
      has eaten nothing and has the individual's chromosome. */
  predicate Reborn(env: Environment, ind: AgentIndividuals.AgentIndividual, agent: Agent) {
    Fits(env, agent) && agent.satiation == 0 && AsChromosome(agent) == ind.chromosome
  }

  lemma RebirthMakesReborn(env: Environment)
    ensures forall ind, r :: Rebirth(env)(ind, r).Ok? ==>
              Reborn(env, ind, Rebirth(env)(ind, r).value.0)
  {
  }

  /** The food loop of `evolve` from food k on: food m moves to the point
      made of the draws 2 (m - k) and 2 (m - k) + 1. */
  function Scatter(foods: seq<Food>, rng: Rng, k: nat): (res: (seq<Food>, Rng))
    requires k <= |foods|
    ensures |res.0| == |foods| && res.0[..k] == foods[..k]
    ensures forall m :: k <= m < |foods| ==>
              res.0[m] == Food(Point(rng.Peek(2 * (m - k)), rng.Peek(2 * (m - k) + 1)))
    ensures res.1 == rng.Skip(2 * (|foods| - k))
    decreases |foods| - k
  {
    if k == |foods| then (foods, rng)
    else
      var (p, r) := GenPoint(rng);
      Scatter(foods[k := foods[k].(position := p)], r, k + 1)
  }

  /** What each agent ate, as the fitness the genetic algorithm reads. */
  function Scores(agents: seq<Agent>): (fs: seq<real>)
    ensures |fs| == |agents|
    ensures forall k :: 0 <= k < |agents| ==> fs[k] == agents[k].satiation as real
  {
    seq(|agents|, k requires 0 <= k < |agents| => agents[k].satiation as real)
  }

  lemma SnapshotScores(agents: seq<Agent>)
    ensures Individuals.Fitnesses(Snapshot(agents), AgentIndividuals.Ops().fitness) == Scores(agents)
  {
    AgentIndividuals.OpsKeepChromosome();
    assert Individuals.Fitnesses(Snapshot(agents), AgentIndividuals.Ops().fitness) == Scores(agents);
  }

  /** The wheel's running totals are the foods eaten by the agents so far. */
  lemma {:induction false} PrefixIsEaten(agents: seq<Agent>, k: nat)
    requires k <= |agents|
    ensures RouletteWheel.Prefix(Scores(agents), k) == Eaten(agents[..k]) as real
  {
    if k > 0 {
      PrefixIsEaten(agents, k - 1);
      assert agents[..k][..k - 1] == agents[..k - 1];
    }
  }

  /** The agents can be put on the roulette wheel exactly when at least one
      of them ate: every fitness is a count, so only an all-zero wheel is
      refused. */
  lemma ScoresSelectable(agents: seq<Agent>)
    requires |agents| > 0
    ensures RouletteWheel.Selectable(Scores(agents)) <==> exists k :: 0 <= k < |agents| && agents[k].satiation > 0
  {
    PrefixIsEaten(agents, |agents|);
    assert agents[..|agents|] == agents;
    EatenPositive(agents);
  }

  /** The snapshot of agents built for the eye has chromosomes of the
      genome length. */
  lemma SnapshotSameLength(env: Environment, agents: seq<Agent>)
    requires AllFit(env, agents)
    ensures Individuals.SameLength(Snapshot(agents), AgentIndividuals.Ops(), Brains.GenomeLength(env.eye))
  {
    AgentIndividuals.OpsKeepChromosome();
    forall k | 0 <= k < |agents|
      ensures |Snapshot(agents)[k].chromosome| == Brains.GenomeLength(env.eye)
    {
      AsChromosomeLength(env, agents[k]);
    }
  }

  /** Rebirth never fails on chromosomes of the genome length. */
  lemma RebirthOk(env: Environment, population: seq<AgentIndividuals.AgentIndividual>, rng: Rng)
    requires Individuals.SameLength(population, AgentIndividuals.Ops(), Brains.GenomeLength(env.eye))
    ensures MapFrom(Rebirth(env), population, 0, [], rng).Ok?
  {
    AgentIndividuals.OpsKeepChromosome();
    forall m, r | 0 <= m < |population|
      ensures Rebirth(env)(population[m], r).Ok?
    {
      assert |population[m].chromosome| == Brains.GenomeLength(env.eye);
    }
    MapFromOk(Rebirth(env), population, 0, [], rng);
  }

  /** Every agent rebirth makes is reborn from the individual in the same
      slot. */
  lemma RebirthAll(env: Environment, population: seq<AgentIndividuals.AgentIndividual>, rng: Rng)
    requires MapFrom(Rebirth(env), population, 0, [], rng).Ok?
    ensures forall m :: 0 <= m < |population| ==>
              Reborn(env, population[m], MapFrom(Rebirth(env), population, 0, [], rng).value.0[m])
  {
    RebirthMakesReborn(env);
    forall m | 0 <= m < |population|
      ensures Reborn(env, population[m], MapFrom(Rebirth(env), population, 0, [], rng).value.0[m])
    {
      MapFromRelates(Rebirth(env), population, 0, [], rng, m, (ind, a) => Reborn(env, ind, a));
    }
  }

  /** `evolve` past its reset of the age: the agents become individuals,
      the genetic algorithm breeds the next population, each individual
      becomes an agent again, and every food moves to a random point. */
  function Generation(env: Environment, ga: GeneticAlgorithms.GeneticAlgorithm, world: Worlds.World, rng: Rng): (res: Result<(Worlds.World, GeneticAlgorithms.Statistics, Rng)>)
    requires GaussianMutations.Usable(ga.mutation)
    ensures world.agents == [] ==> res == Err(EmptyPopulation)
    ensures res.Ok? ==> |res.value.0.agents| == |world.agents| && |res.value.0.foods| == |world.foods|
  {
    var (evolved, stats, r1) :- GeneticAlgorithms.Evolve(ga, AgentIndividuals.Ops(), rng, Snapshot(world.agents));
    var (agents, r2) :- MapFrom(Rebirth(env), evolved, 0, [], r1);
    var (foods, r3) := Scatter(world.foods, r2, 0);
    Ok((Worlds.World(agents, foods), stats, r3))
  }

  /** A generation of agents built for the eye ends in a new one exactly
      when at least one agent ate; otherwise the wheel has no weight. */
  lemma GenerationOk(env: Environment, ga: GeneticAlgorithms.GeneticAlgorithm, world: Worlds.World, rng: Rng)
    requires GaussianMutations.Usable(ga.mutation) && GeneticAlgorithms.PreservesLength(ga.crossover)
    requires AllFit(env, world.agents) && |world.agents| > 0
    ensures Generation(env, ga, world, rng).Ok? <==> exists k :: 0 <= k < |world.agents| && world.agents[k].satiation > 0
  {
    var population := Snapshot(world.agents);
    var ops := AgentIndividuals.Ops();
    SnapshotScores(world.agents);
    ScoresSelectable(world.agents);
    var evolved := GeneticAlgorithms.Evolve(ga, ops, rng, population);
    if evolved.Ok? {
      SnapshotSameLength(env, world.agents);
      AgentIndividuals.OpsKeepChromosome();
      GeneticAlgorithms.EvolveKeepsLength(ga, ops, rng, population, Brains.GenomeLength(env.eye));
      RebirthOk(env, evolved.value.0, evolved.value.2);
    }
  }

  /** The new generation has as many agents and foods as the old, every
      agent built for the eye and hungry, and every food inside the unit
      square. */
  lemma GenerationShape(env: Environment, ga: GeneticAlgorithms.GeneticAlgorithm, world: Worlds.World, rng: Rng)
    requires GaussianMutations.Usable(ga.mutation) && GeneticAlgorithms.PreservesLength(ga.crossover)
    requires AllFit(env, world.agents)
    ensures Generation(env, ga, world, rng).Ok? ==>
            var next := Generation(env, ga, world, rng).value.0;
            && |next.agents| == |world.agents| && |next.foods| == |world.foods|
            && AllFit(env, next.agents)
            && (forall k :: 0 <= k < |next.agents| ==> next.agents[k].satiation == 0)
            && (forall m :: 0 <= m < |next.foods| ==>
                  0.0 <= next.foods[m].position.x < 1.0 && 0.0 <= next.foods[m].position.y < 1.0)
  {
    var evolved := GeneticAlgorithms.Evolve(ga, AgentIndividuals.Ops(), rng, Snapshot(world.agents));
    if evolved.Ok? {
      var (population, stats, r1) := evolved.value;
      var reborn := MapFrom(Rebirth(env), population, 0, [], r1);
      if reborn.Ok? {
        RebirthAll(env, population, r1);
        var (foods, r3) := Scatter(world.foods, reborn.value.1, 0);
        assert Generation(env, ga, world, rng) == Ok((Worlds.World(reborn.value.0, foods), stats, r3));
      }
    }
  }

  /** The statistics a generation reports describe what its agents ate. */
  lemma GenerationStatistics(env: Environment, ga: GeneticAlgorithms.GeneticAlgorithm, world: Worlds.World, rng: Rng)
    requires GaussianMutations.Usable(ga.mutation)
    ensures Generation(env, ga, world, rng).Ok? ==>
              |world.agents| > 0 &&
              Generation(env, ga, world, rng).value.1 == GeneticAlgorithms.StatisticsOf(Scores(world.agents))
  {
    SnapshotScores(world.agents);
  }

  /** One tick of `step` before the age check: feeding, then every brain
      on the foods as they are after feeding, then movement. */
  function Tick(env: Environment, world: Worlds.World, rng: Rng): (res: (Worlds.World, Rng))
    requires Sound(env) && AllFit(env, world.agents)
    ensures |res.0.agents| == |world.agents| && |res.0.foods| == |world.foods|
    ensures AllFit(env, res.0.agents)
    ensures forall k :: 0 <= k < |world.agents| ==> res.0.agents[k].satiation >= world.agents[k].satiation
    ensures forall k :: 0 <= k < |world.agents| ==> SPEED_MIN <= res.0.agents[k].speed <= SPEED_MAX
    ensures forall k :: 0 <= k < |world.agents| ==> res.0.agents[k].brain == world.agents[k].brain
    ensures res.1.stream == rng.stream
  {
    var (fed, foods, r) := CollideFrom(env, world.agents, world.foods, rng, 0);
    assert AllFit(env, fed);
    (Worlds.World(MoveAll(env, DecideAll(env, fed, foods)), foods), r)
  }

  /** n ticks in a row. */
  function Ticked(env: Environment, world: Worlds.World, rng: Rng, n: nat): (res: (Worlds.World, Rng))
    requires Sound(env) && AllFit(env, world.agents)
    ensures |res.0.agents| == |world.agents| && |res.0.foods| == |world.foods|
    ensures AllFit(env, res.0.agents)
    ensures forall k :: 0 <= k < |world.agents| ==> res.0.agents[k].brain == world.agents[k].brain
    ensures res.1.stream == rng.stream
    decreases n
  {
    if n == 0 then (world, rng)
    else
      var (w, r) := Tick(env, world, rng);
      Ticked(env, w, r, n - 1)
  }
}
