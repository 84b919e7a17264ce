/** One neuron of the feed-forward network: a bias and one weight per input
    (libs/neural-network/src/neuron.rs). */
module Neurons {
  import opened Results
  import opened Randomness

  datatype Neuron = Neuron(bias: real, weights: seq<real>)

  /** The neuron's part of the genome wire format: its bias, then its
      weights in order. */
  function Flatten(n: Neuron): seq<real> {
    [n.bias] + n.weights
  }

  /** `Neuron::random`: the bias is drawn first, then one weight per input,
      every value from [-1, 1]. */
  function Random(rng: Rng, inputSize: nat): (res: (Neuron, Rng))
    ensures |res.0.weights| == inputSize
    ensures Flatten(res.0) == Signeds(rng, 1 + inputSize)
    ensures InSignedRange(Flatten(res.0))
    ensures res.1 == rng.Skip(1 + inputSize)
  {
    var (bias, r1) := GenRange(rng);
    var (weights, r2) := GenRanges(r1, inputSize);
    SignedsSplit(rng, 1, inputSize);
    SignedsInRange(rng, 1 + inputSize);
    (Neuron(bias, weights), r2)
  }

  /** `Neuron::from_weights`: takes the bias and then `inputSize` weights
      from the front of `ws` and returns what is left; fails as soon as the
      weights run out. */
  function FromWeights(inputSize: nat, ws: seq<real>): (res: Result<(Neuron, seq<real>)>)
    ensures res.Ok? <==> |ws| >= 1 + inputSize
    ensures res.Err? ==> res.error == NotEnoughWeights
    ensures res.Ok? ==> |res.value.0.weights| == inputSize
    ensures res.Ok? ==> Flatten(res.value.0) + res.value.1 == ws
  {
    if |ws| == 0 then Err(NotEnoughWeights)
    else
      var bias := ws[0];
      var rest := ws[1..];
      if |rest| < inputSize then Err(NotEnoughWeights)
      else
        assert ws == [bias] + rest[..inputSize] + rest[inputSize..];
        Ok((Neuron(bias, rest[..inputSize]), rest[inputSize..]))
  }

  /** Decoding a neuron's own encoding followed by anything gives back the
      neuron and leaves the rest untouched. */
  lemma FromWeightsOfFlatten(n: Neuron, rest: seq<real>)
    ensures FromWeights(|n.weights|, Flatten(n) + rest) == Ok((n, rest))
  {
    var ws := Flatten(n) + rest;
    assert ws[1..][..|n.weights|] == n.weights;
    assert ws[1..][|n.weights|..] == rest;
  }

  /** Sum of `xs[i] * ws[i]`. */
  function Dot(xs: seq<real>, ws: seq<real>): real
    requires |xs| == |ws|
  {
    if xs == [] then 0.0 else xs[0] * ws[0] + Dot(xs[1..], ws[1..])
  }

  /** `Neuron::propogate`: the rectified weighted sum. The input must have
      exactly one value per weight (`assert_eq!`). */
  function Propagate(n: Neuron, inputs: seq<real>): (r: real)
    requires |inputs| == |n.weights|
    ensures r >= 0.0 && r >= Dot(inputs, n.weights) + n.bias
    ensures r == 0.0 || r == Dot(inputs, n.weights) + n.bias
  {
    var output := Dot(inputs, n.weights) + n.bias;
    if output > 0.0 then output else 0.0
  }

  /** The two cases of the neuron test: a strongly negative input is cut
      to zero, a positive sum passes through unchanged. */
  lemma PropagateExamples()
    ensures Propagate(Neuron(0.5, [-0.3, 0.8]), [-10.0, -10.0]) == 0.0
    ensures Propagate(Neuron(0.5, [-0.3, 0.8]), [0.5, 1.0]) == (-0.3 * 0.5) + (0.8 * 1.0) + 0.5
  {
    var n := Neuron(0.5, [-0.3, 0.8]);
    assert Dot([-10.0, -10.0], n.weights) == 3.0 - 8.0 + Dot([], []);
    assert Dot([0.5, 1.0], n.weights) == -0.15 + 0.8 + Dot([], []);
  }
}
