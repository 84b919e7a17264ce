/** The world: the agents and the foods (libs/simulation/src/world.rs). */
module Worlds {
  import opened Randomness
  import Agents

  const AGENT_COUNT: nat := 10
  const FOOD_COUNT: nat := 30

  datatype World = World(agents: seq<Agents.Agent>, foods: seq<Agents.Food>)

  /** `World::random`: ten random agents, then thirty random foods; every
      agent is drawn from the source before any food. */
  function Random(env: Agents.Environment, rng: Rng): (res: (World, Rng))
    ensures |res.0.agents| == AGENT_COUNT && |res.0.foods| == FOOD_COUNT
    ensures res.0.agents == Repeat(env.spawn, rng, AGENT_COUNT).0
    ensures res.0.foods == Repeat(env.sprinkle, Repeat(env.spawn, rng, AGENT_COUNT).1, FOOD_COUNT).0
  {
    var (agents, r1) := Repeat(env.spawn, rng, AGENT_COUNT);
    var (foods, r2) := Repeat(env.sprinkle, r1, FOOD_COUNT);
    (World(agents, foods), r2)
  }

  /** Building a random world draws from the source it is given and hands
      it back with the cursor moved forward. */
  lemma RandomStream(env: Agents.Environment, rng: Rng)
    requires Agents.Sound(env)
    ensures Random(env, rng).1.stream == rng.stream
    ensures Random(env, rng).1.pos >= rng.pos
  {
    RepeatStream(env.spawn, rng, AGENT_COUNT);
    RepeatStream(env.sprinkle, Repeat(env.spawn, rng, AGENT_COUNT).1, FOOD_COUNT);
  }

  /** A random world is populated by agents built for the shared eye. */
  lemma RandomPopulated(env: Agents.Environment, rng: Rng)
    requires Agents.Sound(env)
    ensures Agents.AllFit(env, Random(env, rng).0.agents)
  {
    RepeatAll(env.spawn, rng, AGENT_COUNT, a => Agents.Fits(env, a));
  }
}
