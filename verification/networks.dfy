/** The feed-forward network: one layer per adjacent pair of topology
    widths (libs/neural-network/src/lib.rs). A topology is the sequence of
    layer widths, input width first. */
module Networks {
  import opened Results
  import opened Randomness
  import Neurons
  import Layers

  datatype Network = Network(layers: seq<Layers.Layer>)

  /** Layer i has t[i+1] neurons with t[i] weights each, one layer per
      adjacent pair of `t` (`windows(2)`). */
  predicate Fits(layers: seq<Layers.Layer>, t: seq<nat>)
    decreases |t|
  {
    if |t| < 2 then layers == []
    else |layers| > 0 && Layers.Shaped(layers[0], t[0], t[1]) && Fits(layers[1..], t[1..])
  }

  /** A network of topology `t`; a topology names at least two widths. */
  predicate Shaped(net: Network, t: seq<nat>) {
    |t| >= 2 && Fits(net.layers, t)
  }

  /** The length of the wire format of a network of topology `t`. */
  function FlatLength(t: seq<nat>): nat
    decreases |t|
  {
    if |t| < 2 then 0 else Layers.Size(t[0], t[1]) + FlatLength(t[1..])
  }

  function FlattenLayers(layers: seq<Layers.Layer>): seq<real> {
    if layers == [] then [] else Layers.Flatten(layers[0]) + FlattenLayers(layers[1..])
  }

  /** `Network::weights`: per layer in order, per neuron in order, the bias
      and then the weights. */
  function Weights(net: Network): seq<real> {
    FlattenLayers(net.layers)
  }

  /** Fits in the form "layer i has t[i+1] neurons of width t[i]". */
  lemma {:induction false} FitsAt(layers: seq<Layers.Layer>, t: seq<nat>, i: nat)
    requires Fits(layers, t) && |t| >= 2
    ensures |layers| == |t| - 1
    ensures i < |layers| ==> Layers.Shaped(layers[i], t[i], t[i + 1])
    decreases |t|
  {
    if |t| > 2 {
      FitsAt(layers[1..], t[1..], if i > 0 then i - 1 else 0);
    } else {
      assert layers[1..] == [];
    }
  }

  /** One `Layer::random` per adjacent pair of widths, in order. */
  function RandomLayers(rng: Rng, t: seq<nat>): (res: (seq<Layers.Layer>, Rng))
    ensures Fits(res.0, t)
    ensures FlattenLayers(res.0) == Signeds(rng, FlatLength(t))
    ensures res.1 == rng.Skip(FlatLength(t))
    decreases |t|
  {
    if |t| < 2 then ([], rng)
    else
      var (l, r1) := Layers.Random(rng, t[0], t[1]);
      var (ls, r2) := RandomLayers(r1, t[1..]);
      SignedsSplit(rng, Layers.Size(t[0], t[1]), FlatLength(t[1..]));
      assert ([l] + ls)[1..] == ls;
      ([l] + ls, r2)
  }

  /** `Network::random`: a network of topology `t` whose wire format is
      exactly the next `FlatLength(t)` draws of the source, each in [-1, 1]. */
  function Random(rng: Rng, t: seq<nat>): (res: (Network, Rng))
    requires |t| > 1
    ensures Shaped(res.0, t)
    ensures Weights(res.0) == Signeds(rng, FlatLength(t))
    ensures InSignedRange(Weights(res.0))
    ensures res.1 == rng.Skip(FlatLength(t))
  {
    var (layers, r) := RandomLayers(rng, t);
    SignedsInRange(rng, FlatLength(t));
    (Network(layers), r)
  }

  /** One `Layer::from_weights` per adjacent pair of widths, all on one
      shared iterator. */
  function DecodeLayers(t: seq<nat>, ws: seq<real>): (res: Result<(seq<Layers.Layer>, seq<real>)>)
    ensures res.Err? ==> res.error == NotEnoughWeights
    decreases |t|
  {
    if |t| < 2 then Ok(([], ws))
    else
      var first := Layers.FromWeights(t[0], t[1], ws);
      if first.Err? then Err(first.error)
      else
        var others := DecodeLayers(t[1..], first.value.1);
        if others.Err? then Err(others.error)
        else Ok(([first.value.0] + others.value.0, others.value.1))
  }

  /** Decoding succeeds exactly when enough weights remain. */
  lemma {:induction false} DecodeLayersLength(t: seq<nat>, ws: seq<real>)
    ensures DecodeLayers(t, ws).Ok? <==> |ws| >= FlatLength(t)
    decreases |t|
  {
    if |t| >= 2 {
      var size := Layers.Size(t[0], t[1]);
      var first := Layers.FromWeights(t[0], t[1], ws);
      if first.Ok? {
        var (l, afterLayer) := first.value;
        assert |afterLayer| == |ws| - size;
        DecodeLayersLength(t[1..], afterLayer);
        var others := DecodeLayers(t[1..], afterLayer);
        if others.Ok? {
          var (ls, rest) := others.value;
          assert DecodeLayers(t, ws) == Ok(([l] + ls, rest));
        }
      }
    }
  }

  /** Decoded layers have the shape the topology asks for. */
  lemma {:induction false} DecodeLayersFits(t: seq<nat>, ws: seq<real>)
    requires DecodeLayers(t, ws).Ok?
    ensures Fits(DecodeLayers(t, ws).value.0, t)
    decreases |t|
  {
    if |t| >= 2 {
      var (l, afterLayer) := Layers.FromWeights(t[0], t[1], ws).value;
      DecodeLayersFits(t[1..], afterLayer);
      var (ls, rest) := DecodeLayers(t[1..], afterLayer).value;
      var all := [l] + ls;
      assert DecodeLayers(t, ws) == Ok((all, rest));
      assert all[0] == l && all[1..] == ls;
    }
  }

  /** Decoding consumes exactly the encoding of the layers it returns. */
  lemma {:induction false} DecodeLayersPrefix(t: seq<nat>, ws: seq<real>)
    requires DecodeLayers(t, ws).Ok?
    ensures FlattenLayers(DecodeLayers(t, ws).value.0) + DecodeLayers(t, ws).value.1 == ws
    decreases |t|
  {
    if |t| >= 2 {
      var (l, afterLayer) := Layers.FromWeights(t[0], t[1], ws).value;
      DecodeLayersPrefix(t[1..], afterLayer);
      var (ls, rest) := DecodeLayers(t[1..], afterLayer).value;
      var all := [l] + ls;
      assert DecodeLayers(t, ws) == Ok((all, rest));
      assert all[0] == l && all[1..] == ls;
      assert FlattenLayers(all) == Layers.Flatten(l) + FlattenLayers(ls);
      assert ws == Layers.Flatten(l) + (FlattenLayers(ls) + rest);
    }
  }

  /** `Network::from_weights`: rebuilds the network layer by layer from the
      wire format; fails if the weights run out, or if any are left over. */
  function FromWeights(t: seq<nat>, ws: seq<real>): (res: Result<Network>)
    requires |t| > 1
    ensures res.Ok? <==> |ws| == FlatLength(t)
    ensures res.Err? ==> (res.error == NotEnoughWeights <==> |ws| < FlatLength(t))
    ensures res.Err? ==> (res.error == TooManyWeights <==> |ws| > FlatLength(t))
    ensures res.Ok? ==> Shaped(res.value, t) && Weights(res.value) == ws
  {
    DecodeLayersLength(t, ws);
    var (layers, rest) :- DecodeLayers(t, ws);
    DecodeLayersFits(t, ws);
    DecodeLayersPrefix(t, ws);
    WeightsLength(layers, t);
    if rest != [] then Err(TooManyWeights) else Ok(Network(layers))
  }

  lemma {:induction false} WeightsLength(layers: seq<Layers.Layer>, t: seq<nat>)
    requires Fits(layers, t)
    ensures |FlattenLayers(layers)| == FlatLength(t)
    decreases |t|
  {
    if |t| >= 2 {
      Layers.FlattenLength(layers[0].neurons, t[0]);
      WeightsLength(layers[1..], t[1..]);
    }
  }

  lemma {:induction false} DecodeLayersOfFlatten(layers: seq<Layers.Layer>, t: seq<nat>, rest: seq<real>)
    requires Fits(layers, t)
    ensures DecodeLayers(t, FlattenLayers(layers) + rest) == Ok((layers, rest))
    decreases |t|
  {
    if |t| >= 2 {
      var tail := FlattenLayers(layers[1..]) + rest;
      assert FlattenLayers(layers) + rest == Layers.Flatten(layers[0]) + tail;
      Layers.FromWeightsOfFlatten(layers[0], t[0], t[1], tail);
      DecodeLayersOfFlatten(layers[1..], t[1..], rest);
      assert [layers[0]] + layers[1..] == layers;
      assert DecodeLayers(t, FlattenLayers(layers) + rest) == Ok(([layers[0]] + layers[1..], rest));
    } else {
      assert FlattenLayers(layers) + rest == rest;
    }
  }

  /** The other direction of the round trip: decoding a network's own wire
      format rebuilds that network. */
  lemma FromWeightsOfWeights(net: Network, t: seq<nat>)
    requires Shaped(net, t)
    ensures FromWeights(t, Weights(net)) == Ok(net)
  {
    DecodeLayersOfFlatten(net.layers, t, []);
    assert Weights(net) + [] == Weights(net);
  }

  /** Decoding is onto the shaped networks and injective: two wire formats
      decode to the same network only if they are equal. */
  lemma FromWeightsInjective(t: seq<nat>, ws1: seq<real>, ws2: seq<real>)
    requires |t| > 1
    requires FromWeights(t, ws1).Ok? && FromWeights(t, ws2).Ok?
    requires FromWeights(t, ws1) == FromWeights(t, ws2)
    ensures ws1 == ws2
  {
  }

  /** A random network is the network its own draws decode to. */
  lemma RandomIsDecodedDraws(rng: Rng, t: seq<nat>)
    requires |t| > 1
    ensures FromWeights(t, Signeds(rng, FlatLength(t))) == Ok(Random(rng, t).0)
  {
    FromWeightsOfWeights(Random(rng, t).0, t);
  }

  /** A worked example: topology [3, 2] rebuilt from eight values gives
      back exactly those eight values. */
  lemma ScenarioThreeTwo()
    ensures FromWeights([3, 2], [0.1, 0.2, 0.3, 0.4, 0.5, 0.6, 0.7, 0.8]).Ok?
    ensures Weights(FromWeights([3, 2], [0.1, 0.2, 0.3, 0.4, 0.5, 0.6, 0.7, 0.8]).value)
         == [0.1, 0.2, 0.3, 0.4, 0.5, 0.6, 0.7, 0.8]
  {
    assert FlatLength([3, 2]) == 8 by {
      assert FlatLength([3, 2][1..]) == 0;
    }
  }

  /** Every layer accepts the output width of the one before it, the first
      one accepting `width`. */
  predicate Accepts(layers: seq<Layers.Layer>, width: nat)
    decreases |layers|
  {
    layers == [] || (Layers.Accepts(layers[0], width) && Accepts(layers[1..], |layers[0].neurons|))
  }

  /** The vector after feeding `inputs` through `layers` in order. */
  function Feed(layers: seq<Layers.Layer>, inputs: seq<real>): seq<real>
    requires Accepts(layers, |inputs|)
    decreases |layers|
  {
    if layers == [] then inputs else Feed(layers[1..], Layers.Propagate(layers[0], inputs))
  }

  /** For a network of topology `t`: the input width is exactly t[0] (when
      the first layer has a neuron to check it), the output has the last
      width of `t` and every output is non-negative. */
  lemma {:induction false} FeedShape(layers: seq<Layers.Layer>, t: seq<nat>, inputs: seq<real>)
    requires Fits(layers, t) && |t| >= 2 && |inputs| == t[0]
    ensures Accepts(layers, |inputs|)
    ensures |Feed(layers, inputs)| == t[|t| - 1]
    ensures forall i :: 0 <= i < |Feed(layers, inputs)| ==> Feed(layers, inputs)[i] >= 0.0
    decreases |t|
  {
    var out := Layers.Propagate(layers[0], inputs);
    if |t| > 2 {
      FeedShape(layers[1..], t[1..], out);
    } else {
      assert layers[1..] == [];
    }
  }

  /** A shaped network with a non-empty first layer rejects every other
      input width: the neuron-level `assert_eq!` fails. */
  lemma InputWidthExact(net: Network, t: seq<nat>, width: nat)
    requires Shaped(net, t) && t[1] > 0
    ensures Accepts(net.layers, width) <==> width == t[0]
  {
    if width == t[0] {
      FeedShape(net.layers, t, seq(width, _ => 0.0));
    } else {
      FitsAt(net.layers, t, 0);
      assert |net.layers[0].neurons[0].weights| == t[0];
    }
  }

  /** `Network::propogate`: each layer's output becomes the next layer's
      input, in layer order. */
  method Propagate(net: Network, inputs: seq<real>) returns (outputs: seq<real>)
    requires Accepts(net.layers, |inputs|)
    ensures outputs == Feed(net.layers, inputs)
  {
    outputs := inputs;
    var i := 0;
    while i < |net.layers|
      invariant 0 <= i <= |net.layers|
      invariant Accepts(net.layers[i..], |outputs|)
      invariant Feed(net.layers[i..], outputs) == Feed(net.layers, inputs)
    {
      assert net.layers[i..][1..] == net.layers[i + 1..];
      outputs := Layers.Propagate(net.layers[i], outputs);
      i := i + 1;
    }
    assert net.layers[i..] == [];
  }
}
