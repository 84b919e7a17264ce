/** Fitness-proportionate selection
    (libs/genetic-algorithm/src/selection/roulette_wheel.rs). The source
    delegates to `choose_weighted` with each member's fitness as its
    weight: one draw u in [0, 1) is scaled to x = u * total, and the member
    whose slot [Prefix(i), Prefix(i) + fitness(i)) contains x is chosen.
    `choose_weighted` refuses an empty slice, a negative weight and an
    all-zero total; the source turns each refusal into the same panic
    ("population is empty"). */
module RouletteWheel {
  import opened Results
  import opened Randomness
  import opened Individuals

  /** The sum of the first k weights. */
  function Prefix(fs: seq<real>, k: nat): real
    requires k <= |fs|
  {
    if k == 0 then 0.0 else Prefix(fs, k - 1) + fs[k - 1]
  }

  function Total(fs: seq<real>): real {
    Prefix(fs, |fs|)
  }

  predicate NonNegative(fs: seq<real>) {
    forall i :: 0 <= i < |fs| ==> fs[i] >= 0.0
  }

  /** What `choose_weighted` accepts. */
  predicate Selectable(fs: seq<real>) {
    |fs| > 0 && NonNegative(fs) && Total(fs) > 0.0
  }

  lemma {:induction false} PrefixMonotone(fs: seq<real>, a: nat, b: nat)
    requires NonNegative(fs) && a <= b <= |fs|
    ensures Prefix(fs, a) <= Prefix(fs, b)
    decreases b
  {
    if a < b {
      PrefixMonotone(fs, a, b - 1);
    }
  }

  /** The first slot, from i on, that contains x: what the binary search of
      `WeightedIndex` finds. */
  function Locate(fs: seq<real>, x: real, i: nat): (r: nat)
    requires i < |fs| && Prefix(fs, i) <= x < Total(fs)
    ensures i <= r < |fs|
    ensures Prefix(fs, r) <= x < Prefix(fs, r) + fs[r]
    decreases |fs| - i
  {
    if i == |fs| - 1 then i
    else if x < Prefix(fs, i + 1) then i
    else Locate(fs, x, i + 1)
  }

  /** Where the draw u lands on a wheel of circumference `total`
      (`Uniform::new(0, total)`). */
  function Spin(u: Unit, total: real): (x: real)
    requires total > 0.0
    ensures 0.0 <= x < total
  {
    assert u * total < 1.0 * total;
    u * total
  }

  /** `RouletteWheelSelection::select`: the index of the chosen member. It
      consumes one draw and only reads the population. */
  function Select<I>(rng: Rng, population: seq<I>, fitness: I -> real): (res: Result<(nat, Rng)>)
    ensures res.Ok? <==> Selectable(Fitnesses(population, fitness))
    ensures |population| == 0 ==> res == Err(EmptyPopulation)
    ensures res.Ok? ==> res.value.0 < |population| && res.value.1 == rng.Skip(1)
    ensures res.Ok? ==>
              var fs := Fitnesses(population, fitness);
              var i, x := res.value.0, Spin(rng.Peek(0), Total(fs));
              Prefix(fs, i) <= x < Prefix(fs, i) + fs[i]
  {
    var fs := Fitnesses(population, fitness);
    if |fs| == 0 then Err(EmptyPopulation)
    else if exists i :: 0 <= i < |fs| && fs[i] < 0.0 then Err(InvalidFitness)
    else if Total(fs) == 0.0 then Err(AllFitnessZero)
    else
      PrefixMonotone(fs, 0, |fs|);
      Ok((Locate(fs, Spin(rng.Peek(0), Total(fs)), 0), rng.Skip(1)))
  }

  /** A member with zero fitness is never chosen. */
  lemma SelectedHasPositiveFitness<I>(rng: Rng, population: seq<I>, fitness: I -> real)
    requires Select(rng, population, fitness).Ok?
    ensures fitness(population[Select(rng, population, fitness).value.0]) > 0.0
  {
  }

  /** Disjoint slots: with non-negative weights, x lies in at most one
      slot [Prefix(fs, i), Prefix(fs, i + 1)). */
  lemma SlotsDisjoint(fs: seq<real>, x: real, i: nat, j: nat)
    requires NonNegative(fs)
    requires i < |fs| && Prefix(fs, i) <= x < Prefix(fs, i + 1)
    requires j < |fs| && Prefix(fs, j) <= x < Prefix(fs, j + 1)
    ensures i == j
  {
    if j < i {
      PrefixMonotone(fs, j + 1, i);
    } else if i < j {
      PrefixMonotone(fs, i + 1, j);
    }
  }

  /** The slots do not overlap: the chosen member is the only one whose
      slot contains the scaled draw, so each member is chosen for a set of
      draws of measure fitness / total. */
  lemma SelectionUnique<I>(rng: Rng, population: seq<I>, fitness: I -> real, j: nat)
    requires Select(rng, population, fitness).Ok?
    requires j < |population|
    requires
      var fs := Fitnesses(population, fitness);
      var x := Spin(rng.Peek(0), Total(fs));
      Prefix(fs, j) <= x < Prefix(fs, j) + fs[j]
    ensures j == Select(rng, population, fitness).value.0
  {
    var fs := Fitnesses(population, fitness);
    var x := Spin(rng.Peek(0), Total(fs));
    var i := Select(rng, population, fitness).value.0;
    assert Prefix(fs, i + 1) == Prefix(fs, i) + fs[i];
    assert Prefix(fs, j + 1) == Prefix(fs, j) + fs[j];
    SlotsDisjoint(fs, x, i, j);
  }
}
