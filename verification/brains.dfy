/** An agent's brain: a network whose topology is fixed by the eye it reads
    from, and whose wire format is the agent's chromosome
    (libs/simulation/src/brain.rs). */
module Brains {
  import opened Results
  import opened Randomness
  import Layers
  import Networks

  /** The eye: only its cell count matters to the brain. Its field of view
      and the vision transform itself live in the eye module, which is not
      part of this model. */
  datatype Eye = Eye(cells: nat)

  datatype Brain = Brain(nn: Networks.Network)

  /** `Brain::topology`: `cells` inputs, a hidden layer twice as wide, and
      two outputs (speed and rotation). */
  function Topology(eye: Eye): (t: seq<nat>)
    ensures |t| == 3 && t[0] == eye.cells && t[1] == 2 * eye.cells && t[2] == 2
  {
    [eye.cells, 2 * eye.cells, 2]
  }

  /** A brain built for this eye. */
  predicate Fits(brain: Brain, eye: Eye) {
    Networks.Shaped(brain.nn, Topology(eye))
  }

  /** The number of genes of a brain for this eye. */
  function GenomeLength(eye: Eye): nat {
    Networks.FlatLength(Topology(eye))
  }

  /** The genome has 2c(c + 1) genes for the hidden layer and 2(2c + 1) for
      the output layer: 2c^2 + 6c + 2 in all. */
  lemma GenomeLengthFormula(eye: Eye)
    ensures GenomeLength(eye) == 2 * eye.cells * eye.cells + 6 * eye.cells + 2
  {
    var c := eye.cells;
    var t := Topology(eye);
    assert t[1..][1..][1..] == [];
    Layers.SizeIsProduct(c, 2 * c);
    Layers.SizeIsProduct(2 * c, 2);
    assert GenomeLength(eye) == Layers.Size(c, 2 * c) + Layers.Size(2 * c, 2);
  }

  /** `Brain::random`: a random network of the eye's topology. */
  function Random(rng: Rng, eye: Eye): (res: (Brain, Rng))
    ensures Fits(res.0, eye)
    ensures AsChromosome(res.0) == Signeds(rng, GenomeLength(eye))
    ensures res.1 == rng.Skip(GenomeLength(eye))
  {
    var (nn, r) := Networks.Random(rng, Topology(eye));
    (Brain(nn), r)
  }

  /** `Brain::from_chromosome`: decodes with the same topology `random`
      uses; a chromosome of any other length fails as the network does. */
  function FromChromosome(chromosome: seq<real>, eye: Eye): (res: Result<Brain>)
    ensures res.Ok? <==> |chromosome| == GenomeLength(eye)
    ensures res.Err? ==> (res.error == NotEnoughWeights <==> |chromosome| < GenomeLength(eye))
    ensures res.Err? ==> (res.error == TooManyWeights <==> |chromosome| > GenomeLength(eye))
    ensures res.Ok? ==> Fits(res.value, eye) && AsChromosome(res.value) == chromosome
  {
    var nn :- Networks.FromWeights(Topology(eye), chromosome);
    Ok(Brain(nn))
  }

  /** `Brain::as_chromosome`: the network's weights in wire order. */
  function AsChromosome(brain: Brain): seq<real> {
    Networks.Weights(brain.nn)
  }

  /** A brain built for the eye has a chromosome of the genome length. */
  lemma AsChromosomeLength(brain: Brain, eye: Eye)
    requires Fits(brain, eye)
    ensures |AsChromosome(brain)| == GenomeLength(eye)
  {
    Networks.WeightsLength(brain.nn.layers, Topology(eye));
  }

  /** Flattening a brain and decoding it again gives the same brain. */
  lemma FromAsChromosome(brain: Brain, eye: Eye)
    requires Fits(brain, eye)
    ensures FromChromosome(AsChromosome(brain), eye) == Ok(brain)
  {
    Networks.FromWeightsOfWeights(brain.nn, Topology(eye));
  }

  /** A random brain is the brain its own draws decode to. */
  lemma RandomIsDecodedDraws(rng: Rng, eye: Eye)
    ensures FromChromosome(Signeds(rng, GenomeLength(eye)), eye) == Ok(Random(rng, eye).0)
  {
    FromAsChromosome(Random(rng, eye).0, eye);
  }

  /** A brain built for the eye takes a vision of `cells` readings and
      answers with two non-negative outputs. */
  lemma Decides(brain: Brain, eye: Eye, vision: seq<real>)
    requires Fits(brain, eye) && |vision| == eye.cells
    ensures Networks.Accepts(brain.nn.layers, |vision|)
    ensures |Networks.Feed(brain.nn.layers, vision)| == 2
    ensures Networks.Feed(brain.nn.layers, vision)[0] >= 0.0
    ensures Networks.Feed(brain.nn.layers, vision)[1] >= 0.0
  {
    Networks.FeedShape(brain.nn.layers, Topology(eye), vision);
  }
}
