/** The agent as the simulation core sees it. The agent, eye and food
    modules and the nalgebra geometry are not part of this model: what the
    core calls of them is gathered in `Environment` as opaque functions,
    with `Sound` stating the little the core relies on. */
module Agents {
  import opened Results
  import opened Randomness
  import Brains

  datatype Point = Point(x: real, y: real)

  /** `rng.gen()` for a point: x, then y, each uniform in [0, 1). */
  function GenPoint(rng: Rng): (res: (Point, Rng))
    ensures 0.0 <= res.0.x < 1.0 && 0.0 <= res.0.y < 1.0
    ensures res.0 == Point(rng.Peek(0), rng.Peek(1)) && res.1 == rng.Skip(2)
  {
    (Point(rng.Peek(0), rng.Peek(1)), rng.Skip(2))
  }

  datatype Food = Food(position: Point)

  /** Position, heading (as an angle), speed, the number of foods eaten
      this generation, and the agent's eye and brain. */
  datatype Agent = Agent(
    position: Point,
    rotation: real,
    speed: real,
    satiation: nat,
    eye: Brains.Eye,
    brain: Brains.Brain)

  /** Where a fresh agent starts: position, heading and speed. */
  datatype Pose = Pose(position: Point, rotation: real, speed: real)

  datatype Environment = Environment(
    eye: Brains.Eye,                                        // the eye every agent is built with
    spawn: Rng -> (Agent, Rng),                             // Agent::random
    place: Rng -> (Pose, Rng),                              // the pose drawn by Agent::from_chromosome
    sprinkle: Rng -> (Food, Rng),                           // Food::random
    see: (Brains.Eye, Point, real, seq<Food>) -> seq<real>, // Eye::process_vision
    distance: (Point, Point) -> real,                       // na::distance
    turn: (real, real) -> real,                             // Rotation2::new(angle + delta).angle()
    move: (Point, real, real) -> Point)                     // one step along the heading, wrapped

  /** What the core relies on: the eye gives one reading per cell; a random
      agent carries the shared eye and a brain built for it; and a random
      agent or food is drawn from the shared source, moving its cursor
      only forward. */
  ghost predicate Sound(env: Environment) {
    && (forall e, p, r, fs :: |env.see(e, p, r, fs)| == e.cells)
    && (forall rng :: env.spawn(rng).0.eye == env.eye)
    && (forall rng :: Brains.Fits(env.spawn(rng).0.brain, env.eye))
    && (forall rng :: env.spawn(rng).1.stream == rng.stream && env.spawn(rng).1.pos >= rng.pos)
    && (forall rng :: env.sprinkle(rng).1.stream == rng.stream && env.sprinkle(rng).1.pos >= rng.pos)
  }

  /** An agent whose brain is built for the shared eye. */
  predicate Fits(env: Environment, agent: Agent) {
    agent.eye == env.eye && Brains.Fits(agent.brain, env.eye)
  }

  /** Every agent of the list is built for the shared eye. */
  predicate AllFit(env: Environment, agents: seq<Agent>) {
    forall k :: 0 <= k < |agents| ==> Fits(env, agents[k])
  }

  /** `Agent::as_chromosome`: the brain's weights in wire order. */
  function AsChromosome(agent: Agent): seq<real> {
    Brains.AsChromosome(agent.brain)
  }

  lemma AsChromosomeLength(env: Environment, agent: Agent)
    requires Fits(env, agent)
    ensures |AsChromosome(agent)| == Brains.GenomeLength(env.eye)
  {
    Brains.AsChromosomeLength(agent.brain, env.eye);
  }

  /** `Agent::from_chromosome`: a fresh agent at a random pose, nothing
      eaten yet, with the brain the chromosome decodes to. Fails when the
      chromosome does not have the genome length. */
  function FromChromosome(env: Environment, chromosome: seq<real>, rng: Rng): (res: Result<(Agent, Rng)>)
    ensures res.Ok? <==> |chromosome| == Brains.GenomeLength(env.eye)
    ensures res.Ok? ==> Fits(env, res.value.0) && res.value.0.satiation == 0
    ensures res.Ok? ==> AsChromosome(res.value.0) == chromosome
    ensures res.Ok? ==> res.value.1 == env.place(rng).1
  {
    var (pose, r) := env.place(rng);
    var brain :- Brains.FromChromosome(chromosome, env.eye);
    Ok((Agent(pose.position, pose.rotation, pose.speed, 0, env.eye, brain), r))
  }

  /** Rebuilding an agent from its own chromosome keeps its brain. */
  lemma FromAsChromosome(env: Environment, agent: Agent, rng: Rng)
    requires Fits(env, agent)
    ensures FromChromosome(env, AsChromosome(agent), rng).Ok?
    ensures FromChromosome(env, AsChromosome(agent), rng).value.0.brain == agent.brain
  {
    Brains.FromAsChromosome(agent.brain, env.eye);
  }
}
