/** What the genetic algorithm sees of the things it evolves: a chromosome
    (a flat sequence of genes, here the network's wire format) and a
    fitness. The `Individual` trait of the engine becomes a record of the
    three operations it provides, passed wherever the trait bound is. The
    chromosome and individual modules of the engine are not part of this
    model beyond this interface. */
module Individuals {

  type Chromosome = seq<real>

  /** The `Individual` trait: `chromosome()`, `fitness()` and the
      `create(chromosome)` factory. */
  datatype Individuality<!I> = Individuality(
    chromosome: I -> Chromosome,
    fitness: I -> real,
    create: Chromosome -> I)

  /** `create` keeps the chromosome it is given. */
  ghost predicate KeepsChromosome<I>(ops: Individuality<I>) {
    forall c :: ops.chromosome(ops.create(c)) == c
  }

  /** The fitness of every member, in population order. */
  function Fitnesses<I>(population: seq<I>, fitness: I -> real): (fs: seq<real>)
    ensures |fs| == |population|
    ensures forall i :: 0 <= i < |population| ==> fs[i] == fitness(population[i])
  {
    seq(|population|, i requires 0 <= i < |population| => fitness(population[i]))
  }

  /** Every member's chromosome has `length` genes. */
  predicate SameLength<I>(population: seq<I>, ops: Individuality<I>, length: nat) {
    forall i :: 0 <= i < |population| ==> |ops.chromosome(population[i])| == length
  }
}
