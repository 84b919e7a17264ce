/** The generation step of the genetic algorithm
    (libs/genetic-algorithm/src/lib.rs). Selection is the roulette wheel,
    mutation the Gaussian one; the crossover module is not part of this
    model, so the crossover is a function the engine is given. */
module GeneticAlgorithms {
  import opened Results
  import opened Randomness
  import opened Individuals
  import opened RouletteWheel
  import opened GaussianMutations

  /** `CrossoverMethod::crossover`: two parent chromosomes and the source
      give a child chromosome and the source after the draws it took. */
  type Crossover = (Rng, Chromosome, Chromosome) -> (Chromosome, Rng)

  /** The child of two parents of one length has that length. */
  ghost predicate PreservesLength(crossover: Crossover) {
    forall rng, a, b :: |a| == |b| ==> |crossover(rng, a, b).0| == |a|
  }

  datatype GeneticAlgorithm = GeneticAlgorithm(crossover: Crossover, mutation: GaussianMutation)

  datatype Statistics = Statistics(minFitness: real, maxFitness: real, avgFitness: real)

  function Smaller(a: real, b: real): real { if b < a then b else a }

  function Larger(a: real, b: real): real { if b > a then b else a }

  /** The smallest value, folded from the left as the loop does. */
  function MinOf(fs: seq<real>): real
    requires |fs| > 0
    decreases |fs|
  {
    if |fs| == 1 then fs[0] else Smaller(MinOf(fs[..|fs| - 1]), fs[|fs| - 1])
  }

  /** The largest value, folded from the left as the loop does. */
  function MaxOf(fs: seq<real>): real
    requires |fs| > 0
    decreases |fs|
  {
    if |fs| == 1 then fs[0] else Larger(MaxOf(fs[..|fs| - 1]), fs[|fs| - 1])
  }

  /** What `Statistics::new` computes from the fitnesses, in member order. */
  function StatisticsOf(fs: seq<real>): Statistics
    requires |fs| > 0
  {
    Statistics(MinOf(fs), MaxOf(fs), Total(fs) / (|fs| as real))
  }

  lemma {:induction false} MinOfIsLeast(fs: seq<real>)
    requires |fs| > 0
    ensures MinOf(fs) in fs
    ensures forall i :: 0 <= i < |fs| ==> MinOf(fs) <= fs[i]
    decreases |fs|
  {
    if |fs| > 1 {
      var init := fs[..|fs| - 1];
      MinOfIsLeast(init);
      assert forall i :: 0 <= i < |init| ==> init[i] == fs[i];
      assert MinOf(init) in fs;
    }
  }

  lemma {:induction false} MaxOfIsGreatest(fs: seq<real>)
    requires |fs| > 0
    ensures MaxOf(fs) in fs
    ensures forall i :: 0 <= i < |fs| ==> fs[i] <= MaxOf(fs)
    decreases |fs|
  {
    if |fs| > 1 {
      var init := fs[..|fs| - 1];
      MaxOfIsGreatest(init);
      assert forall i :: 0 <= i < |init| ==> init[i] == fs[i];
      assert MaxOf(init) in fs;
    }
  }

  /** A sum of k values that all lie in [lo, hi] lies in [k lo, k hi]. */
  lemma {:induction false} PrefixBetween(fs: seq<real>, lo: real, hi: real, k: nat)
    requires k <= |fs|
    requires forall i :: 0 <= i < |fs| ==> lo <= fs[i] <= hi
    ensures (k as real) * lo <= Prefix(fs, k) <= (k as real) * hi
    decreases k
  {
    if k > 0 {
      PrefixBetween(fs, lo, hi, k - 1);
      assert (k as real) * lo == ((k - 1) as real) * lo + lo;
      assert (k as real) * hi == ((k - 1) as real) * hi + hi;
    }
  }

  /** A quotient of a sum in [n lo, n hi] by n lies in [lo, hi]. */
  lemma AverageBetween(total: real, n: real, lo: real, hi: real)
    requires n > 0.0 && n * lo <= total <= n * hi
    ensures lo <= total / n <= hi
  {
    assert (n * lo) / n == lo;
    assert (n * hi) / n == hi;
  }

  /** The statistics describe the population they were taken from: the
      minimum and maximum are fitnesses of members and bound every other,
      and the average lies between them. */
  lemma StatisticsBounds(fs: seq<real>)
    requires |fs| > 0
    ensures StatisticsOf(fs).minFitness in fs && StatisticsOf(fs).maxFitness in fs
    ensures forall i :: 0 <= i < |fs| ==>
              StatisticsOf(fs).minFitness <= fs[i] <= StatisticsOf(fs).maxFitness
    ensures StatisticsOf(fs).minFitness <= StatisticsOf(fs).avgFitness <= StatisticsOf(fs).maxFitness
  {
    MinOfIsLeast(fs);
    MaxOfIsGreatest(fs);
    PrefixBetween(fs, MinOf(fs), MaxOf(fs), |fs|);
    AverageBetween(Total(fs), |fs| as real, MinOf(fs), MaxOf(fs));
  }

  /** `Statistics::new`: one pass over the population keeping the running
      minimum, maximum and sum; the minimum and maximum start from the
      first member's fitness, the sum from zero. */
  method NewStatistics<I>(population: seq<I>, fitness: I -> real) returns (stats: Statistics)
    requires |population| > 0
    ensures stats == StatisticsOf(Fitnesses(population, fitness))
  {
    ghost var fs := Fitnesses(population, fitness);
    var minFitness := fitness(population[0]);
    var maxFitness := minFitness;
    var sumFitness := 0.0;
    var i := 0;
    while i < |population|
      invariant 0 <= i <= |population|
      invariant minFitness == MinOf(fs[..if i == 0 then 1 else i])
      invariant maxFitness == MaxOf(fs[..if i == 0 then 1 else i])
      invariant sumFitness == Prefix(fs, i)
    {
      var f := fitness(population[i]);
      assert fs[..i + 1][..i] == fs[..i];
      minFitness := Smaller(minFitness, f);
      maxFitness := Larger(maxFitness, f);
      sumFitness := sumFitness + f;
      i := i + 1;
    }
    assert fs[..i] == fs;
    stats := Statistics(minFitness, maxFitness, sumFitness / (|population| as real));
  }

  /** One slot of the new generation, in the source's order: select parent
      A, select parent B, cross their chromosomes, mutate the child,
      `I::create` it. */
  function Offspring<I>(ga: GeneticAlgorithm, ops: Individuality<I>, rng: Rng, population: seq<I>): (res: Result<(I, Rng)>)
    requires Usable(ga.mutation)
    ensures res.Ok? <==> Selectable(Fitnesses(population, ops.fitness))
    ensures res.Err? ==> res.error == Select(rng, population, ops.fitness).error
  {
    var (a, r1) :- Select(rng, population, ops.fitness);
    var (b, r2) := Select(r1, population, ops.fitness).value;
    var (child, r3) := ga.crossover(r2, ops.chromosome(population[a]), ops.chromosome(population[b]));
    var (mutated, r4) := Mutated(ga.mutation, r3, child);
    Ok((ops.create(mutated), r4))
  }

  /** `(0..count).map(step).collect()` over a fallible step: the slots are
      filled in order, each from the source the previous one left behind,
      and the first failure ends the whole. */
  function Slots<T>(step: Rng --> Result<(T, Rng)>, rng: Rng, count: nat): (res: Result<(seq<T>, Rng)>)
    requires forall r :: step.requires(r)
    ensures res.Ok? ==> |res.value.0| == count
    decreases count
  {
    if count == 0 then Ok(([], rng))
    else
      var (x, r1) :- step(rng);
      var (xs, r2) :- Slots(step, r1, count - 1);
      Ok(([x] + xs, r2))
  }

  /** A step that never fails fills every slot. */
  lemma {:induction false} SlotsOk<T>(step: Rng --> Result<(T, Rng)>, rng: Rng, count: nat)
    requires forall r :: step.requires(r)
    requires forall r :: step(r).Ok?
    ensures Slots(step, rng, count).Ok?
    decreases count
  {
    if count > 0 {
      SlotsOk(step, step(rng).value.1, count - 1);
    }
  }

  /** A step that always fails makes any non-empty generation fail with its
      error. */
  lemma SlotsErr<T>(step: Rng --> Result<(T, Rng)>, rng: Rng, count: nat)
    requires forall r :: step.requires(r)
    requires count > 0 && forall r :: step(r).Err?
    ensures Slots(step, rng, count) == Err(step(rng).error)
  {
  }

  /** What every step's product satisfies, every slot satisfies. */
  lemma {:induction false} SlotsAll<T>(step: Rng --> Result<(T, Rng)>, rng: Rng, count: nat, keep: T -> bool)
    requires forall r :: step.requires(r)
    requires forall r :: step(r).Ok? ==> keep(step(r).value.0)
    requires Slots(step, rng, count).Ok?
    ensures forall i :: 0 <= i < count ==> keep(Slots(step, rng, count).value.0[i])
    decreases count
  {
    if count > 0 {
      var (x, r1) := step(rng).value;
      SlotsAll(step, r1, count - 1, keep);
      var xs := Slots(step, r1, count - 1).value.0;
      assert Slots(step, rng, count).value.0 == [x] + xs;
      assert forall i :: 1 <= i < count ==> ([x] + xs)[i] == xs[i - 1];
    }
  }

  /** One slot of `evolve` as a step over the source. */
  function Breeder<I>(ga: GeneticAlgorithm, ops: Individuality<I>, population: seq<I>): (step: Rng --> Result<(I, Rng)>)
    requires Usable(ga.mutation)
    ensures forall r :: step.requires(r)
    ensures forall r :: step(r) == Offspring(ga, ops, r, population)
  {
    r requires Usable(ga.mutation) => Offspring(ga, ops, r, population)
  }

  /** Whether the generation fails depends on the population only: either
      every slot succeeds or the first one fails. */
  lemma {:induction false} SlotsOutcome<T>(step: Rng --> Result<(T, Rng)>, rng: Rng, count: nat, ok: bool)
    requires forall r :: step.requires(r)
    requires count > 0 && forall r :: step(r).Ok? == ok
    ensures Slots(step, rng, count).Ok? == ok
  {
    if ok {
      SlotsOk(step, rng, count);
    } else {
      SlotsErr(step, rng, count);
    }
  }

  /** `GeneticAlgorithm::evolve`: as many new individuals as there were,
      and the statistics of the population it was given (not of the new
      one). Fails when the population is empty, or when the roulette wheel
      refuses its fitnesses. */
  function Evolve<I>(ga: GeneticAlgorithm, ops: Individuality<I>, rng: Rng, population: seq<I>): (res: Result<(seq<I>, Statistics, Rng)>)
    requires Usable(ga.mutation)
    ensures |population| == 0 ==> res == Err(EmptyPopulation)
    ensures res.Ok? <==> Selectable(Fitnesses(population, ops.fitness))
    ensures res.Ok? ==> |res.value.0| == |population|
    ensures res.Ok? ==> res.value.1 == StatisticsOf(Fitnesses(population, ops.fitness))
  {
    if |population| == 0 then Err(EmptyPopulation)
    else
      var step := Breeder(ga, ops, population);
      SlotsOutcome(step, rng, |population|, Selectable(Fitnesses(population, ops.fitness)));
      var (next, r) :- Slots(step, rng, |population|);
      Ok((next, StatisticsOf(Fitnesses(population, ops.fitness)), r))
  }

  /** A child of parents with n genes has n genes when crossover keeps the
      length and `create` keeps the chromosome. */
  lemma OffspringLength<I>(ga: GeneticAlgorithm, ops: Individuality<I>, rng: Rng, population: seq<I>, n: nat)
    requires Usable(ga.mutation)
    requires PreservesLength(ga.crossover) && KeepsChromosome(ops)
    requires SameLength(population, ops, n)
    requires Offspring(ga, ops, rng, population).Ok?
    ensures |ops.chromosome(Offspring(ga, ops, rng, population).value.0)| == n
  {
    var (a, r1) := Select(rng, population, ops.fitness).value;
    var (b, r2) := Select(r1, population, ops.fitness).value;
    var pa, pb := ops.chromosome(population[a]), ops.chromosome(population[b]);
    assert |pa| == n && |pb| == n;
    var (child, r3) := ga.crossover(r2, pa, pb);
    assert |child| == n;
  }

  /** Has n genes. */
  function GenesOf<I>(ops: Individuality<I>, n: nat): I -> bool {
    x => |ops.chromosome(x)| == n
  }

  lemma BreederKeepsLength<I>(ga: GeneticAlgorithm, ops: Individuality<I>, population: seq<I>, n: nat)
    requires Usable(ga.mutation)
    requires PreservesLength(ga.crossover) && KeepsChromosome(ops)
    requires SameLength(population, ops, n)
    ensures forall r :: Breeder(ga, ops, population)(r).Ok? ==>
              GenesOf(ops, n)(Breeder(ga, ops, population)(r).value.0)
  {
    forall r | Offspring(ga, ops, r, population).Ok?
      ensures |ops.chromosome(Offspring(ga, ops, r, population).value.0)| == n
    {
      OffspringLength(ga, ops, r, population, n);
    }
  }

  /** The genome length is an invariant of evolution: when every member has
      n genes, so does every member of the next generation. */
  lemma EvolveKeepsLength<I>(ga: GeneticAlgorithm, ops: Individuality<I>, rng: Rng, population: seq<I>, n: nat)
    requires Usable(ga.mutation)
    requires PreservesLength(ga.crossover) && KeepsChromosome(ops)
    requires SameLength(population, ops, n)
    requires Evolve(ga, ops, rng, population).Ok?
    ensures SameLength(Evolve(ga, ops, rng, population).value.0, ops, n)
  {
    var step := Breeder(ga, ops, population);
    BreederKeepsLength(ga, ops, population, n);
    SlotsAll(step, rng, |population|, GenesOf(ops, n));
    assert Evolve(ga, ops, rng, population).value.0 == Slots(step, rng, |population|).value.0;
  }
}
