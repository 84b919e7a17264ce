/** Gaussian mutation of a chromosome
    (libs/genetic-algorithm/src/mutation/gaussian.rs): every gene, in
    order, flips a coin of bias `probability`; when it comes up, the gene
    moves by a draw from [-1, 1] scaled by `coefficient`. */
module GaussianMutations {
  import opened Results
  import opened Randomness

  datatype GaussianMutation = GaussianMutation(probability: real, coefficient: real)

  /** What `gen_bool` accepts as a probability. */
  predicate Usable(m: GaussianMutation) {
    0.0 <= m.probability <= 1.0
  }

  function Abs(x: real): real {
    if x < 0.0 then -x else x
  }

  /** `GaussianMutation::new` as the source writes it: the assertion checks
      that the probability is not negative and the coefficient is at most 1,
      and nothing else. `None` is the failed assertion. */
  function NewAsWritten(probability: real, coefficient: real): (r: Option<GaussianMutation>)
    ensures r.Some? <==> probability >= 0.0 && coefficient <= 1.0
    ensures r.Some? ==> r.value == GaussianMutation(probability, coefficient)
  {
    if probability >= 0.0 && coefficient <= 1.0 then Some(GaussianMutation(probability, coefficient))
    else None
  }

  /** The assertion lets through a probability above 1, which `gen_bool` then
      refuses on the first gene. */
  lemma NewAsWrittenAcceptsUnusable()
    ensures NewAsWritten(2.0, 0.5).Some? && !Usable(NewAsWritten(2.0, 0.5).value)
  {
  }

  /** `GaussianMutation::new` with the probability bounded on both sides, so
      that every mutation it builds can run. */
  function New(probability: real, coefficient: real): (r: Option<GaussianMutation>)
    ensures r.Some? <==> 0.0 <= probability <= 1.0 && coefficient <= 1.0
    ensures r.Some? ==> r.value == GaussianMutation(probability, coefficient) && Usable(r.value)
  {
    if 0.0 <= probability <= 1.0 && coefficient <= 1.0 then Some(GaussianMutation(probability, coefficient))
    else None
  }

  /** The corrected constructor accepts exactly what the written one accepts,
      minus the probabilities above 1. */
  lemma NewRefinesAsWritten(probability: real, coefficient: real)
    ensures New(probability, coefficient) ==
              if probability > 1.0 then None else NewAsWritten(probability, coefficient)
  {
  }

  /** A draw in [-1, 1] scaled by c moves a gene by at most |c|. */
  lemma ScaledStep(s: real, c: real)
    requires -1.0 <= s <= 1.0
    ensures Abs(s * c) <= Abs(c)
  {
    if c >= 0.0 {
      assert -1.0 * c <= s * c <= 1.0 * c;
    } else {
      assert 1.0 * c <= s * c <= -1.0 * c;
    }
  }

  /** A gene moved by the draw s scaled by c. */
  function Nudge(gene: real, s: real, c: real): real {
    gene + s * c
  }

  /** One gene: a coin flip, then, only if it comes up, one more draw. The
      coin takes a draw of its own unless the probability is 1, so a gene
      takes one draw when it stays and one or two when it moves. */
  function MutateGene(m: GaussianMutation, rng: Rng, gene: real): (res: (real, Rng))
    requires Usable(m)
    ensures Abs(res.0 - gene) <= Abs(m.coefficient)
    ensures res.1 == rng.Skip(1) || res.1 == rng.Skip(2)
    ensures m.probability < 1.0 && res.1 == rng.Skip(1) ==> res.0 == gene
    ensures res.1 == rng.Skip(2) ==> res.0 == Nudge(gene, SignedAt(rng, 1), m.coefficient)
    ensures m.probability < 1.0 ==> (res.1 == rng.Skip(2) <==> rng.Peek(0) < m.probability)
  {
    var (fires, r1) := GenBool(rng, m.probability);
    if fires then
      var (s, r2) := GenRange(r1);
      ScaledStep(s, m.coefficient);
      (Nudge(gene, s, m.coefficient), r2)
    else (gene, r1)
  }

  /** `mutate` over the genes in order: the new genes, each in its own
      position, and the source after the loop. */
  function Mutated(m: GaussianMutation, rng: Rng, genes: seq<real>): (res: (seq<real>, Rng))
    requires Usable(m)
    ensures |res.0| == |genes|
    decreases |genes|
  {
    if genes == [] then ([], rng)
    else
      var step := MutateGene(m, rng, genes[0]);
      var rest := Mutated(m, step.1, genes[1..]);
      ([step.0] + rest.0, rest.1)
  }

  /** Each gene moves by at most |coefficient|. */
  lemma {:induction false} MutatedBounded(m: GaussianMutation, rng: Rng, genes: seq<real>)
    requires Usable(m)
    ensures forall k :: 0 <= k < |genes| ==>
              Abs(Mutated(m, rng, genes).0[k] - genes[k]) <= Abs(m.coefficient)
    decreases |genes|
  {
    if genes != [] {
      var step := MutateGene(m, rng, genes[0]);
      MutatedBounded(m, step.1, genes[1..]);
      var res := Mutated(m, rng, genes);
      forall k | 1 <= k < |genes|
        ensures Abs(res.0[k] - genes[k]) <= Abs(m.coefficient)
      {
        assert res.0[k] == Mutated(m, step.1, genes[1..]).0[k - 1];
        assert genes[k] == genes[1..][k - 1];
      }
    }
  }

  /** Every gene takes at least one draw and at most two, so the source
      advances by between |genes| and 2 |genes| draws. */
  lemma {:induction false} MutatedDraws(m: GaussianMutation, rng: Rng, genes: seq<real>)
    requires Usable(m)
    ensures Mutated(m, rng, genes).1.stream == rng.stream
    ensures rng.pos + |genes| <= Mutated(m, rng, genes).1.pos <= rng.pos + 2 * |genes|
    decreases |genes|
  {
    if genes != [] {
      MutatedDraws(m, MutateGene(m, rng, genes[0]).1, genes[1..]);
    }
  }

  /** Genes are visited in order: mutating a ++ b mutates a, then b with
      the source a left behind. */
  lemma {:induction false} MutatedSplit(m: GaussianMutation, rng: Rng, a: seq<real>, b: seq<real>)
    requires Usable(m)
    ensures Mutated(m, rng, a + b).0 ==
              Mutated(m, rng, a).0 + Mutated(m, Mutated(m, rng, a).1, b).0
    ensures Mutated(m, rng, a + b).1 == Mutated(m, Mutated(m, rng, a).1, b).1
    decreases |a|
  {
    if a == [] {
      assert a + b == b;
    } else {
      assert (a + b)[0] == a[0];
      assert (a + b)[1..] == a[1..] + b;
      var step := MutateGene(m, rng, a[0]);
      MutatedSplit(m, step.1, a[1..], b);
      var ma := Mutated(m, step.1, a[1..]);
      var mb := Mutated(m, ma.1, b);
      assert [step.0] + (ma.0 + mb.0) == ([step.0] + ma.0) + mb.0;
    }
  }

  /** Probability 0: no gene changes, one draw per gene. */
  lemma {:induction false} MutatedNeverFires(m: GaussianMutation, rng: Rng, genes: seq<real>)
    requires m.probability == 0.0
    ensures Mutated(m, rng, genes) == (genes, rng.Skip(|genes|))
    decreases |genes|
  {
    if genes != [] {
      MutatedNeverFires(m, rng.Skip(1), genes[1..]);
      assert [genes[0]] + genes[1..] == genes;
    }
  }

  /** Coefficient 0: no gene changes, whatever the probability. */
  lemma {:induction false} MutatedZeroCoefficient(m: GaussianMutation, rng: Rng, genes: seq<real>)
    requires Usable(m) && m.coefficient == 0.0
    ensures Mutated(m, rng, genes).0 == genes
    decreases |genes|
  {
    if genes != [] {
      var (g, r1) := MutateGene(m, rng, genes[0]);
      MutatedZeroCoefficient(m, r1, genes[1..]);
      assert [genes[0]] + genes[1..] == genes;
    }
  }

  /** Probability 1: the coin comes up without a draw, and the gene moves
      by the very next draw. */
  lemma MutateGeneFires(m: GaussianMutation, rng: Rng, gene: real)
    requires m.probability == 1.0
    ensures MutateGene(m, rng, gene) == (Nudge(gene, SignedAt(rng, 0), m.coefficient), rng.Skip(1))
  {
    assert GenBool(rng, m.probability) == (true, rng);
  }

  /** Probability 1: one draw is consumed per gene. */
  lemma {:induction false} MutatedAlwaysFiresDraws(m: GaussianMutation, rng: Rng, genes: seq<real>)
    requires m.probability == 1.0
    ensures Mutated(m, rng, genes).1 == rng.Skip(|genes|)
    decreases |genes|
  {
    if genes != [] {
      MutateGeneFires(m, rng, genes[0]);
      MutatedAlwaysFiresDraws(m, rng.Skip(1), genes[1..]);
    }
  }

  /** Probability 1: every gene is perturbed, gene k by the k-th draw. */
  lemma {:induction false} MutatedAlwaysFires(m: GaussianMutation, rng: Rng, genes: seq<real>)
    requires m.probability == 1.0
    ensures forall k :: 0 <= k < |genes| ==>
              Mutated(m, rng, genes).0[k] == Nudge(genes[k], SignedAt(rng, k), m.coefficient)
    decreases |genes|
  {
    if genes != [] {
      var r1 := rng.Skip(1);
      MutateGeneFires(m, rng, genes[0]);
      MutatedAlwaysFires(m, r1, genes[1..]);
      var tail := Mutated(m, r1, genes[1..]).0;
      var res := Mutated(m, rng, genes).0;
      assert res == [Nudge(genes[0], SignedAt(rng, 0), m.coefficient)] + tail;
      forall k | 1 <= k < |genes|
        ensures res[k] == Nudge(genes[k], SignedAt(rng, k), m.coefficient)
      {
        assert res[k] == tail[k - 1];
        assert genes[k] == genes[1..][k - 1];
        assert SignedAt(r1, k - 1) == SignedAt(rng, k);
      }
    }
  }

  /** Mutating one more gene: the genes so far, then that gene mutated with
      the source they left behind. */
  lemma MutatedSnoc(m: GaussianMutation, rng: Rng, genes: seq<real>, i: nat)
    requires Usable(m) && i < |genes|
    ensures Mutated(m, rng, genes[..i + 1]).0 ==
              Mutated(m, rng, genes[..i]).0 + [MutateGene(m, Mutated(m, rng, genes[..i]).1, genes[i]).0]
    ensures Mutated(m, rng, genes[..i + 1]).1 ==
              MutateGene(m, Mutated(m, rng, genes[..i]).1, genes[i]).1
  {
    MutatedSplit(m, rng, genes[..i], [genes[i]]);
    assert genes[..i + 1] == genes[..i] + [genes[i]];
  }

  /** Overwriting the first element after a prefix moves it into the prefix. */
  lemma ReplaceFirst(done: seq<real>, rest: seq<real>, x: real)
    requires |rest| > 0
    ensures (done + rest)[|done| := x] == (done + [x]) + rest[1..]
  {
  }

  /** The body of the gene loop: flip the coin for gene i and, if it comes
      up, move the gene in place by the next draw. */
  method MutateAt(m: GaussianMutation, rng: Rng, child: array<real>, i: nat) returns (rngOut: Rng)
    requires Usable(m) && i < child.Length
    modifies child
    ensures child[..] == old(child[..])[i := MutateGene(m, rng, old(child[i])).0]
    ensures rngOut == MutateGene(m, rng, old(child[i])).1
  {
    var fires: bool;
    fires, rngOut := GenBool(rng, m.probability).0, GenBool(rng, m.probability).1;
    if fires {
      var s: real;
      s, rngOut := GenRange(rngOut).0, GenRange(rngOut).1;
      child[i] := child[i] + s * m.coefficient;
      assert child[i] == Nudge(old(child[i]), s, m.coefficient);
    }
  }

  /** `MutationMethod::mutate`: the genes of `child` are updated in place, in
      order, and the source comes back advanced past every draw taken. */
  method Mutate(m: GaussianMutation, rng: Rng, child: array<real>) returns (rngOut: Rng)
    requires Usable(m)
    modifies child
    ensures child[..] == Mutated(m, rng, old(child[..])).0
    ensures rngOut == Mutated(m, rng, old(child[..])).1
  {
    ghost var genes := child[..];
    rngOut := rng;
    var i := 0;
    while i < child.Length
      invariant 0 <= i <= child.Length
      invariant child[..] == Mutated(m, rng, genes[..i]).0 + genes[i..]
      invariant rngOut == Mutated(m, rng, genes[..i]).1
    {
      ghost var done := Mutated(m, rng, genes[..i]).0;
      ghost var step := MutateGene(m, rngOut, genes[i]);
      MutatedSnoc(m, rng, genes, i);
      ReplaceFirst(done, genes[i..], step.0);
      assert child[i] == genes[i];
      rngOut := MutateAt(m, rngOut, child, i);
      i := i + 1;
    }
    assert genes[..child.Length] == genes;
  }
}
