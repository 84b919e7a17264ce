# genetic_evolution core, modelled in Dafny

This project models the core of genetic_evolution: a 2-D world of
agents, each steered by a small feed-forward neural network, whose brains
are evolved between generations by a genetic algorithm. The model covers:

- **Neural network** (`neurons.dfy`, `layers.dfy`, `networks.dfy`):
  - neurons with a bias and one weight per input, and rectified (ReLU)
    propagation;
  - layers, and networks built from a topology (a list of layer widths);
  - the flat "wire format" (bias, then weights, per neuron, per layer)
    that doubles as the agent's chromosome;
  - the decoding of that format back into a network.
- **Genetic algorithm** (`individuals.dfy`, `roulette_wheel.dfy`,
  `gaussian_mutation.dfy`, `genetic_algorithm.dfy`):
  - fitness-proportional (roulette-wheel) selection;
  - Gaussian mutation;
  - one generation step, `evolve`;
  - the min / max / average fitness statistics.
- **Simulation** (`brains.dfy`, `agents.dfy`, `agent_individuals.dfy`,
  `worlds.dfy`, `ticks.dfy`, `simulations.dfy`):
  - the brain's topology, fixed by the eye's cell count;
  - the agent <-> individual adapter;
  - the random world of 10 agents and 30 foods;
  - the `Simulation` object and its tick: collisions (eating), brains
    (steering) and movement;
  - the generation boundary, where agents are turned into individuals,
    evolved and turned back into agents, and the food is re-scattered.

**Random numbers.** They come from one source, `Randomness.Rng`: an
unbounded stream of uniform draws in [0, 1) and a cursor. Each call into
the source consumes one draw, with two exceptions: a 2-D point consumes
two (x, then y), and `gen_bool(1.0)` consumes none.

- `gen_range(-1.0..=1.0)` reads a draw u as 2u - 1;
- `gen_bool(p)` is u < p for p < 1; `gen_bool(1.0)` is true without a
  draw, as `rand`'s `Bernoulli` answers it;
- `choose_weighted` scales one draw by the total weight.

Functions thread the source through explicitly, so a result fixes exactly
which draws it used.

**Panics.** The panics of decoding and selection (`expect` on too few
weights, `choose_weighted` on an unusable population) and the failed
`assert!` of `GaussianMutation::new` are an `Err` of `Results.Result` or
a `None`, named after their cause. The other panics are preconditions,
listed under "Left out".

**Pure and imperative code.** Code written with iterators, `map` and
`collect` is modelled as functions. The loops the original writes out are
modelled as methods proved against those functions:

- `Network::propogate`;
- `GaussianMutation::mutate`, in place on an array;
- `Statistics::new`;
- the `Simulation` methods, which update the object's `world` and `age`
  fields.

**What the simulation calls but this model does not include.** The eye,
agent and food modules and the nalgebra geometry are not part of this
model. The `Agents.Environment` record gathers what the simulation calls
of them as opaque functions: vision, distance, turning, moving, random
agents, random poses and random foods. `Agents.Sound` states the little
the core relies on:

- the eye gives one reading per cell;
- a random agent carries the shared eye and a brain built for it;
- a random agent or food is drawn from the shared source, whose cursor
  only moves forward.

The crossover module is likewise a function parameter of the genetic
algorithm. `GeneticAlgorithms.PreservesLength` states the one thing
assumed of it: two parents of one length give a child of that length.

**Where the model departs from the documented behaviour.**

- A population whose fitnesses are all zero cannot be selected from.
  `choose_weighted` fails on it and `expect` panics. The model returns
  `Err(AllFitnessZero)` rather than choosing uniformly.
- `Network::from_weights` and `Network::weights` are called from
  `libs/simulation/src/brain.rs` but are not in the network's `lib.rs`.
  They are modelled by composing `Layer::from_weights` over adjacent
  pairs of widths on one shared iterator; extra weights fail with
  `TooManyWeights`.
- A ReLU network only has non-negative outputs. `process_brains`
  therefore never lowers the speed of an agent whose speed is already in
  [SPEED_MIN, SPEED_MAX] (`Ticks.DecideNeverSlows`), and never turns an
  agent by a negative angle (`Ticks.Steering`).

## Model

| member | source | states |
|---|---|---|
| Randomness.GenRange | libs/neural-network/src/neuron.rs:11 | the value is 2u - 1 for the next draw u, so it lies in [-1, 1]; exactly one draw is consumed |
| Randomness.GenRanges | libs/neural-network/src/neuron.rs:13-16 | n calls give the next n draws read as signed values, in order, and consume n draws |
| Randomness.SignedsInRange | libs/neural-network/src/neuron.rs:11 | every value read with `gen_range(-1.0..=1.0)` lies in [-1, 1] |
| Randomness.GenBool | libs/genetic-algorithm/src/mutation/gaussian.rs:20 | probability 1 fires without consuming a draw; any other probability consumes one draw and fires iff it falls below the probability, so probability 0 never fires |
| Randomness.RepeatStream | libs/simulation/src/world.rs:11-17 | repeating a generator that reads the shared source and moves its cursor forward does the same |
| Randomness.Repeat | libs/simulation/src/world.rs:11-17 | `count` draws of a generator give exactly `count` values |
| Randomness.RepeatAll | libs/simulation/src/world.rs:11-13 | every generated value has each property that every call of the generator guarantees |
| Randomness.MapFrom | libs/simulation/src/lib.rs:134-137 | a successful map over the remaining items yields one value per item after those already made |
| Randomness.MapFromOk | libs/simulation/src/lib.rs:134-137 | a step that never fails on the remaining items makes the whole map succeed |
| Randomness.MapFromKeepsDone | libs/simulation/src/lib.rs:134-137 | values made earlier are kept unchanged at the front |
| Randomness.MapFromRelates | libs/simulation/src/lib.rs:134-137 | output m comes from input m: it relates to that input as every step relates its input and output |
| Neurons.Random | libs/neural-network/src/neuron.rs:10-19 | the neuron has `inputSize` weights; its encoding (bias, then weights) is exactly the next 1 + inputSize signed draws, each in [-1, 1] |
| Neurons.FromWeights | libs/neural-network/src/neuron.rs:21-32 | succeeds iff at least 1 + inputSize values remain, else fails with NotEnoughWeights; the neuron's encoding followed by the unread rest is the input |
| Neurons.FromWeightsOfFlatten | libs/neural-network/src/neuron.rs:21-32 | decoding a neuron's own encoding gives back that neuron and leaves any suffix untouched |
| Neurons.Propagate | libs/neural-network/src/neuron.rs:34-46 | the output is max(0, weighted sum + bias): it is non-negative, at least the sum, and either 0 or the sum |
| Neurons.PropagateExamples | libs/neural-network/src/neuron.rs:66-80 | the two unit-test cases: a strongly negative input gives 0, and a positive sum is passed through |
| Layers.SizeIsProduct | libs/neural-network/src/layer.rs:18-28 | a layer occupies outputSize * (inputSize + 1) values of the wire format |
| Layers.FlattenLength | libs/neural-network/src/layer.rs:18-28 | the encoding of neurons of one width has the layer's size |
| Layers.RandomNeurons | libs/neural-network/src/layer.rs:9-16 | `count` neurons, all of width inputSize, whose encodings are the next draws in order |
| Layers.Random | libs/neural-network/src/layer.rs:9-16 | a layer of the requested shape whose encoding is exactly the next Size draws, each in [-1, 1] |
| Layers.DecodeNeurons | libs/neural-network/src/layer.rs:18-28 | succeeds iff the remaining values cover `count` neurons, else fails with NotEnoughWeights; yields `count` neurons |
| Layers.DecodeNeuronsWidth | libs/neural-network/src/layer.rs:18-28 | every decoded neuron has inputSize weights |
| Layers.DecodeNeuronsConsumes | libs/neural-network/src/layer.rs:18-28 | the decoded neurons' encoding followed by the unread rest is the input |
| Layers.FromWeights | libs/neural-network/src/layer.rs:18-28 | succeeds iff Size values remain; the layer has the requested shape, and exactly its Size values are consumed |
| Layers.DecodeNeuronsOfFlatten | libs/neural-network/src/layer.rs:18-28 | decoding neurons' own encoding gives them back, with the suffix untouched |
| Layers.FromWeightsOfFlatten | libs/neural-network/src/layer.rs:18-28 | round trip: decoding a layer's encoding gives back that layer |
| Layers.Propagate | libs/neural-network/src/layer.rs:30-35 | one output per neuron, each equal to that neuron's propagation of the shared input |
| Networks.FitsAt | libs/neural-network/src/lib.rs:16-25 | a network of topology t has one layer fewer than t has widths, and layer i has t[i+1] neurons of width t[i] |
| Networks.RandomLayers | libs/neural-network/src/lib.rs:16-25 | one layer per adjacent pair of widths; the network's encoding is exactly the next FlatLength(t) draws |
| Networks.Random | libs/neural-network/src/lib.rs:16-25 | for a topology of at least two widths: the network has that topology, its weights are the next FlatLength(t) signed draws in [-1, 1], and exactly those draws are consumed |
| Networks.DecodeLayers | libs/simulation/src/brain.rs:13-15 | its only failure is NotEnoughWeights |
| Networks.DecodeLayersLength | libs/simulation/src/brain.rs:13-15 | decoding the layers succeeds iff at least FlatLength(t) values remain |
| Networks.DecodeLayersFits | libs/simulation/src/brain.rs:13-15 | decoded layers have the shape the topology asks for |
| Networks.DecodeLayersPrefix | libs/simulation/src/brain.rs:13-15 | decoding consumes exactly the encoding of the layers it returns |
| Networks.FromWeights | libs/simulation/src/brain.rs:13-15 | succeeds iff the length is exactly FlatLength(t); a shorter input fails with NotEnoughWeights and a longer one with TooManyWeights; on success the network has topology t and its weights are the input |
| Networks.WeightsLength | libs/simulation/src/brain.rs:17-19 | the weights of a network of topology t number FlatLength(t) |
| Networks.DecodeLayersOfFlatten | libs/simulation/src/brain.rs:13-19 | decoding layers' own encoding gives them back, with the suffix untouched |
| Networks.FromWeightsOfWeights | libs/simulation/src/brain.rs:13-19 | round trip: rebuilding a network from its own weights gives back that network |
| Networks.FromWeightsInjective | libs/simulation/src/brain.rs:13-19 | two weight lists that decode to the same network are equal |
| Networks.RandomIsDecodedDraws | libs/neural-network/src/lib.rs:16-25 | a random network is the network its own draws decode to |
| Networks.ScenarioThreeTwo | libs/simulation/src/brain.rs:13-19 | topology [3, 2] rebuilt from eight values succeeds and its weights are exactly those eight values |
| Networks.FeedShape | libs/neural-network/src/lib.rs:27-33 | for input of width t[0], every layer accepts its input, the output has the last width and every output is non-negative |
| Networks.InputWidthExact | libs/neural-network/src/neuron.rs:34-35 | a network with a non-empty first layer accepts exactly the inputs of width t[0] |
| Networks.Propagate | libs/neural-network/src/lib.rs:27-33 | the loop computes the layer-by-layer feed of the input |
| Individuals.Fitnesses | libs/genetic-algorithm/src/selection/roulette_wheel.rs:9 | one fitness per member, in population order |
| RouletteWheel.PrefixMonotone | libs/genetic-algorithm/src/selection/roulette_wheel.rs:7-11 | with non-negative weights the running totals never decrease |
| RouletteWheel.Locate | libs/genetic-algorithm/src/selection/roulette_wheel.rs:7-11 | finds the slot [Prefix(r), Prefix(r) + fs[r]) containing the spun value |
| RouletteWheel.Spin | libs/genetic-algorithm/src/selection/roulette_wheel.rs:9 | a draw scaled by a positive total lies in [0, total) |
| RouletteWheel.Select | libs/genetic-algorithm/src/selection/roulette_wheel.rs:7-11 | succeeds iff the population is non-empty, has no negative fitness and has a positive total; an empty population fails with EmptyPopulation; the chosen index is in range, its slot contains the scaled draw, and exactly one draw is consumed |
| RouletteWheel.SelectedHasPositiveFitness | libs/genetic-algorithm/src/selection/roulette_wheel.rs:7-11 | a member with fitness zero is never chosen |
| RouletteWheel.SlotsDisjoint | libs/genetic-algorithm/src/selection/roulette_wheel.rs:7-11 | no value lies in two slots of the wheel |
| RouletteWheel.SelectionUnique | libs/genetic-algorithm/src/selection/roulette_wheel.rs:7-11 | the chosen member is the only member whose slot contains the scaled draw |
| GaussianMutations.NewAsWritten | libs/genetic-algorithm/src/mutation/gaussian.rs:10-14 | as written: accepts iff probability >= 0 and coefficient <= 1, storing both |
| GaussianMutations.NewAsWrittenAcceptsUnusable | libs/genetic-algorithm/src/mutation/gaussian.rs:11 | probability 2.0 passes the written check but is not a probability |
| GaussianMutations.New | libs/genetic-algorithm/src/mutation/gaussian.rs:10-14 | corrected: accepts iff 0 <= probability <= 1 and coefficient <= 1; every mutation it builds can run |
| GaussianMutations.NewRefinesAsWritten | libs/genetic-algorithm/src/mutation/gaussian.rs:10-14 | the corrected constructor differs from the written one only by refusing probabilities above 1 |
| GaussianMutations.ScaledStep | libs/genetic-algorithm/src/mutation/gaussian.rs:21 | a draw in [-1, 1] times c moves a gene by at most the magnitude of c |
| GaussianMutations.MutateGene | libs/genetic-algorithm/src/mutation/gaussian.rs:20-22 | a gene moves by at most the coefficient's magnitude and takes one or two draws; below probability 1 the gene moves (taking a second draw) iff the coin draw falls below the probability, and then by that second draw times the coefficient, and otherwise stays unchanged |
| GaussianMutations.Mutated | libs/genetic-algorithm/src/mutation/gaussian.rs:18-24 | the child keeps its length |
| GaussianMutations.MutatedBounded | libs/genetic-algorithm/src/mutation/gaussian.rs:18-24 | every gene moves by at most the magnitude of the coefficient |
| GaussianMutations.MutatedDraws | libs/genetic-algorithm/src/mutation/gaussian.rs:18-24 | mutating n genes consumes between n and 2n draws of the same stream |
| GaussianMutations.MutatedSplit | libs/genetic-algorithm/src/mutation/gaussian.rs:19 | mutating a + b is mutating a, then b from where a left the source |
| GaussianMutations.MutatedNeverFires | libs/genetic-algorithm/src/mutation/gaussian.rs:51-69 | with probability 0 the chromosome is unchanged, and one draw is used per gene |
| GaussianMutations.MutatedZeroCoefficient | libs/genetic-algorithm/src/mutation/gaussian.rs:112-121 | with coefficient 0 the chromosome is unchanged, whatever the probability |
| GaussianMutations.MutateGeneFires | libs/genetic-algorithm/src/mutation/gaussian.rs:20-22 | with probability 1 the gene moves by the very next signed draw times the coefficient, using that one draw only |
| GaussianMutations.MutatedAlwaysFiresDraws | libs/genetic-algorithm/src/mutation/gaussian.rs:124-134 | with probability 1, n genes consume exactly n draws |
| GaussianMutations.MutatedAlwaysFires | libs/genetic-algorithm/src/mutation/gaussian.rs:124-134 | with probability 1, gene k becomes gene k + SignedAt(k) * coefficient: the k-th draw, as the test's expected chromosome shows |
| GaussianMutations.MutateAt | libs/genetic-algorithm/src/mutation/gaussian.rs:19-23 | in place: only gene i changes, to the value MutateGene gives |
| GaussianMutations.Mutate | libs/genetic-algorithm/src/mutation/gaussian.rs:18-24 | the in-place loop leaves the array equal to Mutated of its old contents, with the source where Mutated leaves it |
| GeneticAlgorithms.MinOfIsLeast | libs/genetic-algorithm/src/lib.rs:64-71 | the minimum is a member's fitness and is at most every fitness |
| GeneticAlgorithms.MaxOfIsGreatest | libs/genetic-algorithm/src/lib.rs:64-72 | the maximum is a member's fitness and is at least every fitness |
| GeneticAlgorithms.PrefixBetween | libs/genetic-algorithm/src/lib.rs:66-73 | a sum of k values in [lo, hi] lies in [k lo, k hi] |
| GeneticAlgorithms.AverageBetween | libs/genetic-algorithm/src/lib.rs:76 | an average of values in [lo, hi] lies in [lo, hi] |
| GeneticAlgorithms.StatisticsBounds | libs/genetic-algorithm/src/lib.rs:61-79 | min and max are fitnesses of the population and bound every fitness; min <= avg <= max |
| GeneticAlgorithms.NewStatistics | libs/genetic-algorithm/src/lib.rs:61-79 | the loop computes StatisticsOf the fitnesses |
| GeneticAlgorithms.Offspring | libs/genetic-algorithm/src/lib.rs:35-44 | breeding one child succeeds iff the population is selectable, and otherwise fails as selection does |
| GeneticAlgorithms.Slots | libs/genetic-algorithm/src/lib.rs:34-45 | on success, one value per slot |
| GeneticAlgorithms.SlotsOk | libs/genetic-algorithm/src/lib.rs:34-45 | a step that never fails fills every slot |
| GeneticAlgorithms.SlotsErr | libs/genetic-algorithm/src/lib.rs:34-45 | a step that always fails makes the first slot's error the result |
| GeneticAlgorithms.SlotsAll | libs/genetic-algorithm/src/lib.rs:34-45 | every value produced has each property that every successful step guarantees |
| GeneticAlgorithms.Breeder | libs/genetic-algorithm/src/lib.rs:35-44 | the per-slot closure is defined on every source and breeds exactly one Offspring |
| GeneticAlgorithms.SlotsOutcome | libs/genetic-algorithm/src/lib.rs:34-45 | when every step succeeds or every step fails, the whole map does the same |
| GeneticAlgorithms.Evolve | libs/genetic-algorithm/src/lib.rs:31-50 | an empty population fails with EmptyPopulation; evolve succeeds iff the population is selectable; the new population has the old size, and the statistics are those of the old population |
| GeneticAlgorithms.OffspringLength | libs/genetic-algorithm/src/lib.rs:36-43 | with length-preserving crossover and `create`, a child has its parents' chromosome length |
| GeneticAlgorithms.BreederKeepsLength | libs/genetic-algorithm/src/lib.rs:34-45 | every child the per-slot closure makes has the population's chromosome length |
| GeneticAlgorithms.EvolveKeepsLength | libs/genetic-algorithm/src/lib.rs:31-50 | if every chromosome has length n, every chromosome of the evolved population has length n |
| Brains.Topology | libs/simulation/src/brain.rs:21-33 | widths [cells, 2 cells, 2] |
| Brains.GenomeLengthFormula | libs/simulation/src/brain.rs:21-33 | a brain's chromosome has 2c^2 + 6c + 2 genes |
| Brains.Random | libs/simulation/src/brain.rs:9-11 | the brain fits the eye, its chromosome is the next GenomeLength signed draws, and exactly those draws are consumed |
| Brains.FromChromosome | libs/simulation/src/brain.rs:13-15 | succeeds iff the chromosome has the genome length; a short one fails with NotEnoughWeights and a long one with TooManyWeights; on success the brain fits the eye and its chromosome is the input |
| Brains.AsChromosomeLength | libs/simulation/src/brain.rs:17-19 | a brain built for the eye has a chromosome of the genome length |
| Brains.FromAsChromosome | libs/simulation/src/brain.rs:13-19 | round trip: decoding a brain's own chromosome gives back that brain |
| Brains.RandomIsDecodedDraws | libs/simulation/src/brain.rs:9-15 | a random brain is the brain its own draws decode to |
| Brains.Decides | libs/simulation/src/lib.rs:79-85 | a brain for the eye accepts a vision of `cells` readings and gives two non-negative outputs |
| Agents.GenPoint | libs/simulation/src/lib.rs:103 | a random point has both coordinates in [0, 1) and consumes two draws, x then y |
| Agents.AsChromosomeLength | libs/simulation/src/agent_individual.rs:12 | an agent built for the eye has a chromosome of the genome length |
| Agents.FromChromosome | libs/simulation/src/agent_individual.rs:16-18 | succeeds iff the chromosome has the genome length; the agent is built for the eye, has eaten nothing, carries exactly that chromosome, and the source is left where the pose draw leaves it |
| Agents.FromAsChromosome | libs/simulation/src/agent_individual.rs:9-18 | rebuilding an agent from its own chromosome keeps its brain |
| AgentIndividuals.FromAgent | libs/simulation/src/agent_individual.rs:9-14 | the fitness is the number of foods eaten (so it is non-negative); the chromosome is the brain's |
| AgentIndividuals.IntoAgent | libs/simulation/src/agent_individual.rs:16-18 | succeeds iff the chromosome has the genome length; the new agent carries that chromosome, is built for the eye and has eaten nothing |
| AgentIndividuals.Create | libs/simulation/src/agent_individual.rs:22-27 | keeps the chromosome and starts at fitness 0 |
| AgentIndividuals.OpsKeepChromosome | libs/simulation/src/agent_individual.rs:22-35 | `create` then `chromosome` is the identity; `chromosome()` and `fitness()` read the stored fields |
| AgentIndividuals.IntoFromAgent | libs/simulation/src/agent_individual.rs:9-18 | an agent snapshot turned back into an agent keeps its brain and has eaten nothing |
| Worlds.Random | libs/simulation/src/world.rs:10-20 | 10 agents, then 30 foods; the agent and food ensures define the draw order, every agent being drawn from the given source before any food is drawn from what the agents left |
| Worlds.RandomStream | libs/simulation/src/world.rs:10-20 | building a random world reads the source it is given and hands it back with the cursor moved forward |
| Worlds.RandomPopulated | libs/simulation/src/world.rs:11-13 | every agent of a random world is built for the shared eye |
| Ticks.Clamp | libs/simulation/src/lib.rs:87-90 | the result lies in [lo, hi]: the value itself when inside, otherwise the nearer bound |
| Ticks.EatenUpdate | libs/simulation/src/lib.rs:102 | changing one agent's satiation changes the total by the difference |
| Ticks.EatenPositive | libs/simulation/src/lib.rs:96-107 | the total eaten is positive iff some agent ate |
| Ticks.Reachable | libs/simulation/src/lib.rs:100-102 | the count of foods within `EAT_RADIUS` of a point is positive iff some food is within reach |
| Ticks.FeedOn | libs/simulation/src/lib.rs:98-105 | only the satiation changes, growing by at most one per food scanned; foods already scanned stay as they were; two draws are consumed per meal |
| Ticks.FeedOnGain | libs/simulation/src/lib.rs:98-105 | the agent's satiation rises by exactly the number of foods within `EAT_RADIUS` |
| Ticks.FeedOnFoods | libs/simulation/src/lib.rs:98-105 | a food out of reach stays where it is; a food within reach moves to the point of the two draws that follow the meals before it |
| Ticks.CollideFrom | libs/simulation/src/lib.rs:96-107 | agent and food counts are kept; each agent changes only by a satiation that does not decrease; the stream is the same |
| Ticks.Fed | libs/simulation/src/lib.rs:96-107 | the world after the first k agents have fed in turn keeps its counts and leaves the later agents as they were |
| Ticks.CollideFromFed | libs/simulation/src/lib.rs:96-107 | the outer loop, resumed at agent i, ends where feeding every agent in turn ends |
| Ticks.FedAgent | libs/simulation/src/lib.rs:96-107 | each agent's final state is its feeding on the foods the agents before it left |
| Ticks.CollideGain | libs/simulation/src/lib.rs:96-107 | each agent's satiation rises by exactly the number of foods within its reach among those the agents before it left |
| Ticks.CollideFoods | libs/simulation/src/lib.rs:96-107 | during agent k's turn, exactly the foods within its reach move, each to the point of its own two draws; the others stay |
| Ticks.CollideKeepsFar | libs/simulation/src/lib.rs:96-107 | a food out of reach of every agent is not moved |
| Ticks.CollideDraws | libs/simulation/src/lib.rs:101-104 | the collision pass consumes exactly two draws per food eaten |
| Ticks.Steering | libs/simulation/src/lib.rs:85-88 | the speed change lies in [0, SPEED_ACCEL] and the rotation change in [0, ROTATION_ACCEL] |
| Ticks.Decide | libs/simulation/src/lib.rs:90-91 | only speed and heading change, and the speed ends in [SPEED_MIN, SPEED_MAX] |
| Ticks.DecideNeverSlows | libs/simulation/src/lib.rs:87-90 | an agent within the speed range never slows down |
| Ticks.DecideAll | libs/simulation/src/lib.rs:77-94 | every agent decides on the same foods; satiation and the shared eye are kept; every speed is in range |
| Ticks.Move | libs/simulation/src/lib.rs:109-117 | only the position changes |
| Ticks.MoveAll | libs/simulation/src/lib.rs:109-117 | every agent moves one step, in order |
| Ticks.Snapshot | libs/simulation/src/lib.rs:122-127 | one individual per agent, in order, made by `from_agent` |
| Ticks.Rebirth | libs/simulation/src/lib.rs:136 | the step of the rebirth map is `into_agent` |
| Ticks.RebirthMakesReborn | libs/simulation/src/lib.rs:136 | each successful `into_agent` gives an agent that is built for the eye, has eaten nothing and carries the individual's chromosome |
| Ticks.Scatter | libs/simulation/src/lib.rs:139-141 | food m moves to the point made of draws 2m and 2m + 1, and 2 draws are consumed per food |
| Ticks.Scores | libs/simulation/src/lib.rs:122-127 | fitness k is the number of foods agent k ate |
| Ticks.SnapshotScores | libs/simulation/src/lib.rs:122-127 | the fitnesses the algorithm reads are the foods eaten |
| Ticks.PrefixIsEaten | libs/simulation/src/lib.rs:129-132 | the running totals of the roulette wheel count the foods eaten so far |
| Ticks.ScoresSelectable | libs/simulation/src/lib.rs:129-132 | the agents can be selected from iff at least one of them ate |
| Ticks.SnapshotSameLength | libs/simulation/src/lib.rs:122-127 | every individual of the snapshot has a chromosome of the genome length |
| Ticks.RebirthOk | libs/simulation/src/lib.rs:134-137 | rebirth never fails on chromosomes of the genome length |
| Ticks.RebirthAll | libs/simulation/src/lib.rs:134-137 | new agent m is built for the eye, has eaten nothing and carries individual m's chromosome |
| Ticks.Generation | libs/simulation/src/lib.rs:119-144 | the generation boundary after the age reset: snapshot, `ga.evolve`, the `into_agent` map, then every food moved; an empty world fails with `EmptyPopulation`, and a successful generation keeps the agent and food counts (its outcome, shape and statistics are in the three lemmas below) |
| Ticks.GenerationOk | libs/simulation/src/lib.rs:119-144 | a generation of agents built for the eye evolves iff at least one agent ate |
| Ticks.GenerationShape | libs/simulation/src/lib.rs:119-144 | the new generation keeps the agent and food counts; its agents are built for the eye and have eaten nothing; its foods lie in the unit square |
| Ticks.GenerationStatistics | libs/simulation/src/lib.rs:129-143 | the reported statistics are those of the foods eaten by the old agents |
| Ticks.Tick | libs/simulation/src/lib.rs:55-60 | counts and brains are kept, no satiation decreases, and every speed ends in range |
| Ticks.Ticked | libs/simulation/src/lib.rs:69-75 | any number of ticks keeps the counts and brains |
| Simulations.DefaultMutation | libs/simulation/src/lib.rs:41 | the mutation (0.01, 0.3) passes both the written and the corrected checks and is usable |
| Simulations.Simulation.Init | libs/simulation/src/lib.rs:44-48 | the fields hold what is given, with the age at 0 |
| Simulations.Simulation.Random | libs/simulation/src/lib.rs:36-49 | a fresh, valid simulation at age 0 over a random world, with mutation (0.01, 0.3) and the given crossover |
| Simulations.Simulation.ProcessCollisions | libs/simulation/src/lib.rs:96-107 | the nested loops leave the world and the source as CollideFrom describes |
| Simulations.Simulation.FeedAgent | libs/simulation/src/lib.rs:98-105 | the inner loop changes only agent i and the foods, as FeedOn describes |
| Simulations.Simulation.ProcessBrains | libs/simulation/src/lib.rs:77-94 | the loop leaves the agents as DecideAll describes and the foods untouched |
| Simulations.Simulation.ProcessMovement | libs/simulation/src/lib.rs:109-117 | the loop leaves the agents as MoveAll describes and the foods untouched |
| Simulations.Simulation.Evolve | libs/simulation/src/lib.rs:119-144 | resets the age; succeeds iff the Generation does, leaving the world, statistics and source it describes; on failure the world is unchanged; the simulation stays valid |
| Simulations.Simulation.Step | libs/simulation/src/lib.rs:55-67 | below the limit: one Tick, age + 1, no statistics; at the limit: a Tick followed by a Generation, with the age back at 0 and the statistics reported; validity is kept |
| Simulations.Simulation.Train | libs/simulation/src/lib.rs:69-75 | runs exactly GENERATION_LIMIT + 1 - age ticks and then one Generation, returning its statistics |

## Left out

- Floating point: f32 arithmetic is modelled on exact reals. Rounding, NaN
  and infinities are not modelled.
- The internals of `rand` and ChaCha8 are not modelled. So the unit
  tests that check numeric values are not restated numerically: the
  neuron, layer and network `random` values, the mutated chromosomes, the
  evolved population and the roulette histogram. Their structure is
  modelled: the order of the calls into the source and which call
  feeds which value. A position in the model's stream is a call, not a
  machine word: `gen_bool` reads 64 bits where an f32 `gen_range` reads
  32, and the model does not distinguish the two.
- The roulette wheel's statistical behaviour (selection frequency
  proportional to fitness) is not modelled. The model proves which member
  a given draw selects.
- The eye, agent and food modules, `nalgebra` geometry (distance,
  rotation, the wrapping move), `Agent::random`, `Food::random` and the
  pose `Agent::from_chromosome` draws are not part of this model. They
  are opaque functions of `Agents.Environment`. The model assumes that
  `Agent::from_chromosome` builds the brain with `Brain::from_chromosome`
  for the shared eye and starts with satiation 0, and that `Agent::random`
  and `Food::random` read the shared source, moving its cursor only
  forward; how many draws they take is not modelled. Rotation is an angle
  turned by an opaque `turn`.
- The crossover module (`UniformCrossover`) is not part of this model. It
  is an opaque function, assumed only to preserve length.
- The chromosome and individual modules are not modelled beyond the
  `Individuality` record of `chromosome`, `fitness` and `create`.
- `Simulation::world`, `World::agents` and `World::foods` are not modelled
  as members: they are field reads.
- The WebAssembly bindings and the web front end are not modelled.
- `LayerTopology` is a plain width (`nat`).
- GeneticAlgorithms.NewStatistics: requires a non-empty population
  instead of modelling the `assert!` as an error. Its only caller,
  `evolve`, has already failed on an empty population.
- Networks.Random: requires at least two widths instead of modelling the
  `assert!` as an error. The only topology used is the brain's, which has
  three.
- Randomness.GenBool: requires a probability in [0, 1] (where `rand`
  panics otherwise). The mutation reaches it only through
  `GaussianMutations.Usable`, which the corrected constructor guarantees.
- Neurons.Propagate: the `assert_eq!` on the input width
  (`libs/neural-network/src/neuron.rs:35`) is a precondition, not an
  error; so are the width conditions (`Accepts`) of `Layers.Propagate` and
  `Networks.Propagate` that lead to it, and the `lo <= hi` that
  `f32::clamp` asserts, in `Ticks.Clamp`. Every caller meets them: the
  brain is built for the eye, and the clamping bounds are constants.
- Where a panic is modelled as an `Err` result and the original panics in
  the middle of an operation, the model does not describe the partly
  updated state; for example, `Simulation.Evolve` keeps the old world.

## Findings

| source | as written | input that shows it | evidently intended | confidence | as-written member | corrected member |
|---|---|---|---|---|---|---|
| libs/genetic-algorithm/src/mutation/gaussian.rs:11 | the assertion checks only `mutation_probability >= 0.0` and `mutation_coefficient <= 1.0`, so a probability above 1 is accepted and `gen_bool` panics on the first gene | `GaussianMutation::new(2.0, 0.5)` | the probability is checked to be in [0, 1] | not executed | GaussianMutations.NewAsWrittenAcceptsUnusable | GaussianMutations.New |
