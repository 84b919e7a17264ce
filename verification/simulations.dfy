/** The simulation (libs/simulation/src/lib.rs): a world, the genetic
    algorithm that breeds its agents, and the age of the current
    generation. Every stage of a tick changes the world in place and is
    proved against the function in the ticks module that specifies it.

    The environment (the eye, agent, food and geometry code the simulation
    calls) is a constant of the object, since those modules are not part
    of this model. */
module Simulations {
  import opened Results
  import opened Randomness
  import opened Agents
  import Brains
  import Networks
  import Worlds
  import GaussianMutations
  import opened GeneticAlgorithms
  import AgentIndividuals
  import Ticks

  /** Ticks per generation: a generation ends on the tick that takes the
      age past this. */
  const GENERATION_LIMIT: nat := 2500

  /** The mutation `Simulation::random` configures. */
  lemma DefaultMutation()
    ensures GaussianMutations.New(0.01, 0.3) == Some(GaussianMutations.GaussianMutation(0.01, 0.3))
    ensures GaussianMutations.NewAsWritten(0.01, 0.3) == GaussianMutations.New(0.01, 0.3)
    ensures GaussianMutations.Usable(GaussianMutations.GaussianMutation(0.01, 0.3))
  {
  }

  class Simulation {
    var world: Worlds.World
    var age: nat
    const ga: GeneticAlgorithm
    const env: Environment

    /** Everything but the bound on the age: the environment keeps its
        promises, the crossover keeps lengths, the mutation probability is
        a probability, and the world has its ten agents, all built for the
        shared eye, and its thirty foods. */
    ghost predicate Ready()
      reads this
    {
      && Sound(env)
      && PreservesLength(ga.crossover)
      && GaussianMutations.Usable(ga.mutation)
      && |world.agents| == Worlds.AGENT_COUNT
      && |world.foods| == Worlds.FOOD_COUNT
      && AllFit(env, world.agents)
    }

    /** Between two calls of `Step` the generation is never past its limit. */
    ghost predicate Valid()
      reads this
    {
      Ready() && age <= GENERATION_LIMIT
    }

    constructor Init(world: Worlds.World, ga: GeneticAlgorithm, env: Environment)
      ensures this.world == world && this.ga == ga && this.env == env && age == 0
    {
      this.world := world;
      this.ga := ga;
      this.env := env;
      age := 0;
    }

    /** `Simulation::random`: a random world, roulette selection, the
        given crossover and a Gaussian mutation with probability 0.01 and
        coefficient 0.3, at age zero. */
    static method Random(env: Environment, crossover: Crossover, rng: Rng) returns (sim: Simulation, rngOut: Rng)
      requires Sound(env) && PreservesLength(crossover)
      ensures fresh(sim) && sim.Valid() && sim.age == 0
      ensures (sim.world, rngOut) == Worlds.Random(env, rng)
      ensures sim.env == env
      ensures sim.ga == GeneticAlgorithm(crossover, GaussianMutations.GaussianMutation(0.01, 0.3))
    {
      var world;
      world, rngOut := Worlds.Random(env, rng).0, Worlds.Random(env, rng).1;
      Worlds.RandomPopulated(env, rng);
      DefaultMutation();
      var mutation := GaussianMutations.New(0.01, 0.3).value;
      sim := new Simulation.Init(world, GeneticAlgorithm(crossover, mutation), env);
    }

    /** `process_collisions`: each agent in turn eats every food within
        reach, and each food eaten moves to a random point. */
    method ProcessCollisions(rng: Rng) returns (rngOut: Rng)
      modifies this
      ensures (world.agents, world.foods, rngOut) == Ticks.CollideFrom(env, old(world.agents), old(world.foods), rng, 0)
      ensures age == old(age)
    {
      rngOut := rng;
      var i := 0;
      while i < |world.agents|
        invariant i <= |world.agents| == |old(world.agents)|
        invariant age == old(age)
        invariant Ticks.CollideFrom(env, world.agents, world.foods, rngOut, i)
               == Ticks.CollideFrom(env, old(world.agents), old(world.foods), rng, 0)
      {
        rngOut := FeedAgent(i, rngOut);
        i := i + 1;
      }
    }

    /** One pass of the inner loop of `process_collisions`: agent i scans
        every food. */
    method FeedAgent(i: nat, rng: Rng) returns (rngOut: Rng)
      requires i < |world.agents|
      modifies this
      ensures |world.agents| == |old(world.agents)| && world.agents == old(world.agents)[i := world.agents[i]]
      ensures (world.agents[i], world.foods, rngOut) == Ticks.FeedOn(env, old(world.agents[i]), old(world.foods), rng, 0)
      ensures age == old(age)
    {
      rngOut := rng;
      var j := 0;
      while j < |world.foods|
        invariant j <= |world.foods| == |old(world.foods)|
        invariant |world.agents| == |old(world.agents)| && world.agents == old(world.agents)[i := world.agents[i]]
        invariant age == old(age)
        invariant Ticks.FeedOn(env, world.agents[i], world.foods, rngOut, j)
               == Ticks.FeedOn(env, old(world.agents[i]), old(world.foods), rng, 0)
      {
        if env.distance(world.agents[i].position, world.foods[j].position) <= Ticks.EAT_RADIUS {
          var agent := world.agents[i];
          world := world.(agents := world.agents[i := agent.(satiation := agent.satiation + 1)]);
          var point, r := GenPoint(rngOut).0, GenPoint(rngOut).1;
          world := world.(foods := world.foods[j := world.foods[j].(position := point)]);
          rngOut := r;
        }
        j := j + 1;
      }
    }

    /** `process_brains`: every agent looks at the foods, its brain answers,
        and the clamped answer changes its speed and heading. */
    method ProcessBrains()
      requires Sound(env) && AllFit(env, world.agents)
      modifies this
      ensures world == old(world).(agents := Ticks.DecideAll(env, old(world.agents), old(world.foods)))
      ensures age == old(age)
    {
      var i := 0;
      while i < |world.agents|
        invariant i <= |world.agents| == |old(world.agents)|
        invariant world.foods == old(world.foods) && age == old(age)
        invariant forall k :: 0 <= k < i ==> world.agents[k] == Ticks.Decide(env, old(world.agents)[k], world.foods)
        invariant forall k :: i <= k < |world.agents| ==> world.agents[k] == old(world.agents)[k]
      {
        var agent := world.agents[i];
        var vision := env.see(agent.eye, agent.position, agent.rotation, world.foods);
        Brains.Decides(agent.brain, env.eye, vision);
        var response := Networks.Propagate(agent.brain.nn, vision);
        var speed := Ticks.Clamp(response[0], -Ticks.SPEED_ACCEL, Ticks.SPEED_ACCEL);
        var rotation := Ticks.Clamp(response[1], -Ticks.ROTATION_ACCEL, Ticks.ROTATION_ACCEL);
        agent := agent.(speed := Ticks.Clamp(agent.speed + speed, Ticks.SPEED_MIN, Ticks.SPEED_MAX),
                        rotation := env.turn(agent.rotation, rotation));
        world := world.(agents := world.agents[i := agent]);
        i := i + 1;
      }
    }

    /** `process_movement`: every agent takes one step along its heading. */
    method ProcessMovement()
      modifies this
      ensures world == old(world).(agents := Ticks.MoveAll(env, old(world.agents)))
      ensures age == old(age)
    {
      var i := 0;
      while i < |world.agents|
        invariant i <= |world.agents| == |old(world.agents)|
        invariant world.foods == old(world.foods) && age == old(age)
        invariant forall k :: 0 <= k < i ==> world.agents[k] == Ticks.Move(env, old(world.agents)[k])
        invariant forall k :: i <= k < |world.agents| ==> world.agents[k] == old(world.agents)[k]
      {
        var agent := world.agents[i];
        agent := agent.(position := env.move(agent.position, agent.rotation, agent.speed));
        world := world.(agents := world.agents[i := agent]);
        i := i + 1;
      }
    }

    /** `evolve`: the age is reset, the genetic algorithm breeds the next
        agents from the current ones, and every food moves to a random
        point. When no agent ate, the roulette wheel refuses the population
        and nothing but the age changes. */
    method Evolve(rng: Rng) returns (res: Result<Statistics>, rngOut: Rng)
      requires Ready()
      modifies this
      ensures Valid() && age == 0
      ensures res.Ok? <==> Ticks.Generation(env, ga, old(world), rng).Ok?
      ensures res.Ok? ==> (world, res.value, rngOut) == Ticks.Generation(env, ga, old(world), rng).value
      ensures res.Err? ==> world == old(world) && res.error == Ticks.Generation(env, ga, old(world), rng).error
    {
      age := 0;
      var population := Ticks.Snapshot(world.agents);
      var evolved := GeneticAlgorithms.Evolve(ga, AgentIndividuals.Ops(), rng, population);
      if evolved.Err? {
        return Err(evolved.error), rng;
      }
      var next, stats, r := evolved.value.0, evolved.value.1, evolved.value.2;
      Ticks.SnapshotSameLength(env, world.agents);
      AgentIndividuals.OpsKeepChromosome();
      GeneticAlgorithms.EvolveKeepsLength(ga, AgentIndividuals.Ops(), rng, population, Brains.GenomeLength(env.eye));
      Ticks.RebirthOk(env, next, r);
      var reborn := MapFrom(Ticks.Rebirth(env), next, 0, [], r).value;
      world := world.(agents := reborn.0);
      rngOut := reborn.1;
      var i := 0;
      while i < |world.foods|
        invariant i <= |world.foods| == |old(world.foods)|
        invariant world.agents == reborn.0 && age == 0
        invariant Ticks.Scatter(world.foods, rngOut, i) == Ticks.Scatter(old(world.foods), reborn.1, 0)
      {
        var point, r' := GenPoint(rngOut).0, GenPoint(rngOut).1;
        world := world.(foods := world.foods[i := world.foods[i].(position := point)]);
        rngOut := r';
        i := i + 1;
      }
      res := Ok(stats);
      Ticks.GenerationShape(env, ga, old(world), rng);
    }

    /** `step`: one tick; the tick that takes the age past the limit also
        ends the generation and reports its statistics. */
    method Step(rng: Rng) returns (res: Result<Option<Statistics>>, rngOut: Rng)
      requires Valid()
      modifies this
      ensures Valid()
      ensures old(age) < GENERATION_LIMIT ==>
                res == Ok(None) && age == old(age) + 1 && (world, rngOut) == Ticks.Tick(env, old(world), rng)
      ensures old(age) == GENERATION_LIMIT ==>
                var (w, r) := Ticks.Tick(env, old(world), rng);
                && age == 0
                && (res.Ok? <==> Ticks.Generation(env, ga, w, r).Ok?)
                && (res.Ok? ==> res.value.Some? && (world, res.value.value, rngOut) == Ticks.Generation(env, ga, w, r).value)
                && (res.Err? ==> world == w)
    {
      rngOut := ProcessCollisions(rng);
      ProcessBrains();
      ProcessMovement();
      age := age + 1;
      if age > GENERATION_LIMIT {
        var stats;
        stats, rngOut := Evolve(rngOut);
        res := if stats.Ok? then Ok(Some(stats.value)) else Err(stats.error);
      } else {
        res := Ok(None);
      }
    }

    /** `train`: steps until a generation ends, and reports its statistics. */
    method Train(rng: Rng) returns (res: Result<Statistics>, rngOut: Rng)
      requires Valid()
      modifies this
      ensures Valid() && age == 0
      ensures var (w, r) := Ticks.Ticked(env, old(world), rng, GENERATION_LIMIT + 1 - old(age));
              && (res.Ok? <==> Ticks.Generation(env, ga, w, r).Ok?)
              && (res.Ok? ==> (world, res.value, rngOut) == Ticks.Generation(env, ga, w, r).value)
              && (res.Err? ==> world == w)
    {
      rngOut := rng;
      while true
        invariant Valid()
        invariant Ticks.Ticked(env, world, rngOut, GENERATION_LIMIT + 1 - age)
               == Ticks.Ticked(env, old(world), rng, GENERATION_LIMIT + 1 - old(age))
        decreases GENERATION_LIMIT - age
      {
        var summary;
        summary, rngOut := Step(rngOut);
        if summary.Err? {
          return Err(summary.error), rngOut;
        }
        if summary.value.Some? {
          return Ok(summary.value.value), rngOut;
        }
      }
    }
  }
}
