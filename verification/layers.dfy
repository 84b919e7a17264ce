/** One layer of the network: its neurons, all reading the same input
    vector (libs/neural-network/src/layer.rs). */
module Layers {
  import opened Results
  import opened Randomness
  import Neurons

  datatype Layer = Layer(neurons: seq<Neurons.Neuron>)

  /** `outputSize` neurons, each with one weight per input. */
  predicate Shaped(l: Layer, inputSize: nat, outputSize: nat) {
    |l.neurons| == outputSize && AllWidth(l.neurons, inputSize)
  }

  predicate AllWidth(ns: seq<Neurons.Neuron>, inputSize: nat) {
    forall i :: 0 <= i < |ns| ==> |ns[i].weights| == inputSize
  }

  /** The encoding of neurons in order, each as bias then weights. */
  function FlattenNeurons(ns: seq<Neurons.Neuron>): seq<real> {
    if ns == [] then [] else Neurons.Flatten(ns[0]) + FlattenNeurons(ns[1..])
  }

  /** The layer's part of the genome wire format. */
  function Flatten(l: Layer): seq<real> {
    FlattenNeurons(l.neurons)
  }

  /** Number of values one layer occupies in the wire format: one bias and
      `inputSize` weights per neuron. */
  function Size(inputSize: nat, outputSize: nat): nat
    decreases outputSize
  {
    if outputSize == 0 then 0 else (1 + inputSize) + Size(inputSize, outputSize - 1)
  }

  lemma SizeStep(inputSize: nat, outputSize: nat)
    requires outputSize > 0
    ensures Size(inputSize, outputSize) == (1 + inputSize) + Size(inputSize, outputSize - 1)
  {
  }

  lemma {:induction false} SizeIsProduct(inputSize: nat, outputSize: nat)
    ensures Size(inputSize, outputSize) == outputSize * (inputSize + 1)
    decreases outputSize
  {
    if outputSize > 0 {
      SizeIsProduct(inputSize, outputSize - 1);
    }
  }

  lemma {:induction false} FlattenLength(ns: seq<Neurons.Neuron>, inputSize: nat)
    requires AllWidth(ns, inputSize)
    ensures |FlattenNeurons(ns)| == Size(inputSize, |ns|)
    decreases |ns|
  {
    if ns != [] {
      FlattenLength(ns[1..], inputSize);
      SizeStep(inputSize, |ns|);
    }
  }

  /** `count` calls of `Neuron::random`, in order. */
  function RandomNeurons(rng: Rng, inputSize: nat, count: nat): (res: (seq<Neurons.Neuron>, Rng))
    ensures |res.0| == count && AllWidth(res.0, inputSize)
    ensures FlattenNeurons(res.0) == Signeds(rng, Size(inputSize, count))
    ensures res.1 == rng.Skip(Size(inputSize, count))
    decreases count
  {
    if count == 0 then ([], rng)
    else
      var (n, r1) := Neurons.Random(rng, inputSize);
      var (ns, r2) := RandomNeurons(r1, inputSize, count - 1);
      SizeStep(inputSize, count);
      SignedsSplit(rng, 1 + inputSize, Size(inputSize, count - 1));
      assert ([n] + ns)[1..] == ns;
      ([n] + ns, r2)
  }

  /** `Layer::random`: `outputSize` neurons with `inputSize` weights each,
      whose encoding is exactly the next draws of the source, in order. */
  function Random(rng: Rng, inputSize: nat, outputSize: nat): (res: (Layer, Rng))
    ensures Shaped(res.0, inputSize, outputSize)
    ensures Flatten(res.0) == Signeds(rng, Size(inputSize, outputSize))
    ensures InSignedRange(Flatten(res.0))
    ensures res.1 == rng.Skip(Size(inputSize, outputSize))
  {
    var (ns, r) := RandomNeurons(rng, inputSize, outputSize);
    SignedsInRange(rng, Size(inputSize, outputSize));
    (Layer(ns), r)
  }

  /** `count` calls of `Neuron::from_weights` on one shared iterator. */
  function DecodeNeurons(inputSize: nat, count: nat, ws: seq<real>): (res: Result<(seq<Neurons.Neuron>, seq<real>)>)
    ensures res.Ok? <==> |ws| >= Size(inputSize, count)
    ensures res.Err? ==> res.error == NotEnoughWeights
    ensures res.Ok? ==> |res.value.0| == count
    decreases count
  {
    if count == 0 then Ok(([], ws))
    else
      SizeStep(inputSize, count);
      var first := Neurons.FromWeights(inputSize, ws);
      if first.Err? then Err(first.error)
      else
        var others := DecodeNeurons(inputSize, count - 1, first.value.1);
        if others.Err? then Err(others.error)
        else Ok(([first.value.0] + others.value.0, others.value.1))
  }

  /** The decoded neurons all have `inputSize` weights. */
  lemma {:induction false} DecodeNeuronsWidth(inputSize: nat, count: nat, ws: seq<real>)
    requires DecodeNeurons(inputSize, count, ws).Ok?
    ensures AllWidth(DecodeNeurons(inputSize, count, ws).value.0, inputSize)
    decreases count
  {
    if count > 0 {
      var first := Neurons.FromWeights(inputSize, ws).value;
      var others := DecodeNeurons(inputSize, count - 1, first.1).value;
      DecodeNeuronsWidth(inputSize, count - 1, first.1);
      assert DecodeNeurons(inputSize, count, ws).value.0 == [first.0] + others.0;
    }
  }

  /** The encoding of the decoded neurons is exactly the part of `ws` they
      were read from. */
  lemma {:induction false} DecodeNeuronsConsumes(inputSize: nat, count: nat, ws: seq<real>)
    requires DecodeNeurons(inputSize, count, ws).Ok?
    ensures FlattenNeurons(DecodeNeurons(inputSize, count, ws).value.0) + DecodeNeurons(inputSize, count, ws).value.1 == ws
    decreases count
  {
    if count > 0 {
      var first := Neurons.FromWeights(inputSize, ws).value;
      var others := DecodeNeurons(inputSize, count - 1, first.1).value;
      DecodeNeuronsConsumes(inputSize, count - 1, first.1);
      var ns := [first.0] + others.0;
      assert DecodeNeurons(inputSize, count, ws).value == (ns, others.1);
      assert ns[1..] == others.0;
      assert FlattenNeurons(ns) == Neurons.Flatten(first.0) + FlattenNeurons(others.0);
    }
  }

  /** `Layer::from_weights`: `outputSize` neurons taken from the front of
      `ws` in neuron order; what follows is returned unconsumed. Fails, as
      the neuron does, when `ws` is too short. */
  function FromWeights(inputSize: nat, outputSize: nat, ws: seq<real>): (res: Result<(Layer, seq<real>)>)
    ensures res.Ok? <==> |ws| >= Size(inputSize, outputSize)
    ensures res.Err? ==> res.error == NotEnoughWeights
    ensures res.Ok? ==> Shaped(res.value.0, inputSize, outputSize)
    ensures res.Ok? ==> Flatten(res.value.0) + res.value.1 == ws
    ensures res.Ok? ==> res.value.1 == ws[Size(inputSize, outputSize)..]
  {
    var (ns, rest) :- DecodeNeurons(inputSize, outputSize, ws);
    DecodeNeuronsWidth(inputSize, outputSize, ws);
    DecodeNeuronsConsumes(inputSize, outputSize, ws);
    FlattenLength(ns, inputSize);
    assert ws[|FlattenNeurons(ns)|..] == rest;
    Ok((Layer(ns), rest))
  }

  lemma {:induction false} DecodeNeuronsOfFlatten(ns: seq<Neurons.Neuron>, inputSize: nat, rest: seq<real>)
    requires AllWidth(ns, inputSize)
    ensures DecodeNeurons(inputSize, |ns|, FlattenNeurons(ns) + rest) == Ok((ns, rest))
    decreases |ns|
  {
    if ns != [] {
      var tail := FlattenNeurons(ns[1..]) + rest;
      assert FlattenNeurons(ns) + rest == Neurons.Flatten(ns[0]) + tail;
      assert |ns[0].weights| == inputSize;
      Neurons.FromWeightsOfFlatten(ns[0], tail);
      assert Neurons.FromWeights(inputSize, FlattenNeurons(ns) + rest) == Ok((ns[0], tail));
      DecodeNeuronsOfFlatten(ns[1..], inputSize, rest);
      assert DecodeNeurons(inputSize, |ns| - 1, tail) == Ok((ns[1..], rest));
      assert [ns[0]] + ns[1..] == ns;
      assert DecodeNeurons(inputSize, |ns|, FlattenNeurons(ns) + rest) == Ok(([ns[0]] + ns[1..], rest));
    } else {
      assert FlattenNeurons(ns) + rest == rest;
    }
  }

  /** Decoding a shaped layer's own encoding followed by anything gives back
      the layer and leaves the rest untouched. */
  lemma FromWeightsOfFlatten(l: Layer, inputSize: nat, outputSize: nat, rest: seq<real>)
    requires Shaped(l, inputSize, outputSize)
    ensures FromWeights(inputSize, outputSize, Flatten(l) + rest) == Ok((l, rest))
  {
    DecodeNeuronsOfFlatten(l.neurons, inputSize, rest);
  }

  /** Every neuron of the layer takes inputs of this width. */
  predicate Accepts(l: Layer, width: nat) {
    AllWidth(l.neurons, width)
  }

  /** `Layer::propogate`: output i is neuron i applied to the whole,
      shared input vector; the layer itself is a value and stays as it is. */
  function Propagate(l: Layer, inputs: seq<real>): (r: seq<real>)
    requires Accepts(l, |inputs|)
    ensures |r| == |l.neurons|
    ensures forall i :: 0 <= i < |r| ==> r[i] == Neurons.Propagate(l.neurons[i], inputs)
    ensures forall i :: 0 <= i < |r| ==> r[i] >= 0.0
  {
    seq(|l.neurons|, i requires 0 <= i < |l.neurons| => Neurons.Propagate(l.neurons[i], inputs))
  }
}
