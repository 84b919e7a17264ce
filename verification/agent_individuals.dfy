/** The adapter between agents and the genetic algorithm
    (libs/simulation/src/agent_individual.rs): fitness is what the agent
    ate, the chromosome is its brain. */
module AgentIndividuals {
  import opened Results
  import opened Randomness
  import opened Individuals
  import Agents
  import Brains

  datatype AgentIndividual = AgentIndividual(fitness: real, chromosome: Chromosome)

  /** `AgentIndividual::from_agent` */
  function FromAgent(agent: Agents.Agent): (ind: AgentIndividual)
    ensures ind.fitness == agent.satiation as real && ind.fitness >= 0.0
    ensures ind.chromosome == Agents.AsChromosome(agent)
  {
    AgentIndividual(agent.satiation as real, Agents.AsChromosome(agent))
  }

  /** `AgentIndividual::into_agent`: exactly the stored chromosome goes to
      `Agent::from_chromosome`; the fitness is dropped. */
  function IntoAgent(env: Agents.Environment, ind: AgentIndividual, rng: Rng): (res: Result<(Agents.Agent, Rng)>)
    ensures res.Ok? <==> |ind.chromosome| == Brains.GenomeLength(env.eye)
    ensures res.Ok? ==> Agents.AsChromosome(res.value.0) == ind.chromosome
    ensures res.Ok? ==> Agents.Fits(env, res.value.0) && res.value.0.satiation == 0
  {
    Agents.FromChromosome(env, ind.chromosome, rng)
  }

  /** `Individual::create`: the chromosome as given, fitness zero. */
  function Create(chromosome: Chromosome): (ind: AgentIndividual)
    ensures ind.chromosome == chromosome && ind.fitness == 0.0
  {
    AgentIndividual(0.0, chromosome)
  }

  /** The `Individual` implementation: `chromosome()` and `fitness()` read
      the stored fields. */
  function Ops(): Individuality<AgentIndividual> {
    Individuality((ind: AgentIndividual) => ind.chromosome, (ind: AgentIndividual) => ind.fitness, Create)
  }

  lemma OpsKeepChromosome()
    ensures KeepsChromosome(Ops())
    ensures forall ind :: Ops().chromosome(ind) == ind.chromosome && Ops().fitness(ind) == ind.fitness
  {
  }

  /** Snapshotting an agent and turning it back into one keeps the brain
      and starts the count of foods eaten afresh. */
  lemma IntoFromAgent(env: Agents.Environment, agent: Agents.Agent, rng: Rng)
    requires Agents.Fits(env, agent)
    ensures IntoAgent(env, FromAgent(agent), rng).Ok?
    ensures IntoAgent(env, FromAgent(agent), rng).value.0.brain == agent.brain
    ensures IntoAgent(env, FromAgent(agent), rng).value.0.satiation == 0
  {
    Agents.FromAsChromosome(env, agent, rng);
  }
}
