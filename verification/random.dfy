/** The single random source that the simulation threads through every
    operation. Its internals (ChaCha8, the `rand` distributions) are not
    modelled: the source is an unbounded stream of draws, each uniform in
    [0, 1), and a cursor that says how many draws have been consumed. Every
    call into the source consumes exactly one draw, except a 2-D point,
    which consumes two (x, then y). */
module Randomness {
  import opened Results

  /** One draw of the source. */
  type Unit = u: real | 0.0 <= u < 1.0 witness 0.0

  datatype Rng = Rng(stream: nat -> Unit, pos: nat) {
    /** The k-th draw still to come. */
    function Peek(k: nat): Unit { stream(pos + k) }

    /** The source after n more draws. */
    function Skip(n: nat): Rng { Rng(stream, pos + n) }
  }

  /** The k-th upcoming draw as `gen_range(-1.0..=1.0)` reads it. */
  function SignedAt(rng: Rng, k: nat): (v: real)
    ensures -1.0 <= v <= 1.0
  {
    2.0 * rng.Peek(k) - 1.0
  }

  /** The next n draws, each read as `gen_range(-1.0..=1.0)`. */
  function Signeds(rng: Rng, n: nat): (s: seq<real>)
    ensures |s| == n
  {
    seq(n, k requires 0 <= k < n => SignedAt(rng, k))
  }

  predicate InSignedRange(s: seq<real>) {
    forall k :: 0 <= k < |s| ==> -1.0 <= s[k] <= 1.0
  }

  lemma SignedsInRange(rng: Rng, n: nat)
    ensures InSignedRange(Signeds(rng, n))
  {
  }

  /** Drawing a + b values is drawing a values, then b more. */
  lemma SignedsSplit(rng: Rng, a: nat, b: nat)
    ensures Signeds(rng, a + b) == Signeds(rng, a) + Signeds(rng.Skip(a), b)
  {
    assert forall k :: 0 <= k < b ==> SignedAt(rng.Skip(a), k) == SignedAt(rng, a + k);
  }

  /** `rng.gen_range(-1.0..=1.0)` */
  function GenRange(rng: Rng): (res: (real, Rng))
    ensures -1.0 <= res.0 <= 1.0
    ensures res.0 == SignedAt(rng, 0) && res.1 == rng.Skip(1)
  {
    (2.0 * rng.Peek(0) - 1.0, rng.Skip(1))
  }

  /** n successive `gen_range(-1.0..=1.0)` calls, as a `map` over `0..n`. */
  function GenRanges(rng: Rng, n: nat): (res: (seq<real>, Rng))
    ensures res.0 == Signeds(rng, n) && res.1 == rng.Skip(n)
    decreases n
  {
    if n == 0 then ([], rng)
    else
      var (v, r1) := GenRange(rng);
      var (vs, r2) := GenRanges(r1, n - 1);
      SignedsSplit(rng, 1, n - 1);
      ([v] + vs, r2)
  }

  /** `rng.gen_bool(p)`: `rand` panics unless 0 <= p <= 1. A `Bernoulli`
      of probability 1 answers true without consulting the source; any
      other probability takes one draw and comes up when it falls below p. */
  function GenBool(rng: Rng, p: real): (res: (bool, Rng))
    requires 0.0 <= p <= 1.0
    ensures p == 1.0 ==> res == (true, rng)
    ensures p < 1.0 ==> res.1 == rng.Skip(1) && (res.0 <==> rng.Peek(0) < p)
    ensures p == 0.0 ==> !res.0
  {
    if p == 1.0 then (true, rng) else (rng.Peek(0) < p, rng.Skip(1))
  }

  /** `(0..count).map(|_| step(rng)).collect()`: `count` values, each drawn
      from the source the previous one left behind. */
  function Repeat<T>(step: Rng -> (T, Rng), rng: Rng, count: nat): (res: (seq<T>, Rng))
    ensures |res.0| == count
    decreases count
  {
    if count == 0 then ([], rng)
    else
      var (x, r1) := step(rng);
      var (xs, r2) := Repeat(step, r1, count - 1);
      ([x] + xs, r2)
  }

  /** Every value drawn satisfies what every call of the step guarantees. */
  lemma {:induction false} RepeatAll<T>(step: Rng -> (T, Rng), rng: Rng, count: nat, keep: T -> bool)
    requires forall r :: keep(step(r).0)
    ensures forall i :: 0 <= i < count ==> keep(Repeat(step, rng, count).0[i])
    decreases count
  {
    if count > 0 {
      var (x, r1) := step(rng);
      RepeatAll(step, r1, count - 1, keep);
      var xs := Repeat(step, r1, count - 1).0;
      assert Repeat(step, rng, count).0 == [x] + xs;
      assert forall i :: 1 <= i < count ==> ([x] + xs)[i] == xs[i - 1];
    }
  }

  /** A step that reads the same source and only moves its cursor forward
      does so however often it is repeated. */
  lemma {:induction false} RepeatStream<T>(step: Rng -> (T, Rng), rng: Rng, count: nat)
    requires forall r :: step(r).1.stream == r.stream && step(r).1.pos >= r.pos
    ensures Repeat(step, rng, count).1.stream == rng.stream
    ensures Repeat(step, rng, count).1.pos >= rng.pos
    decreases count
  {
    if count > 0 {
      RepeatStream(step, step(rng).1, count - 1);
    }
  }

  /** `xs[k..].map(|x| step(x, rng)).collect()` after the values `done`
      already made: each from the source the previous one left behind, the
      first failure ending the whole. */
  function MapFrom<A, B>(step: (A, Rng) -> Result<(B, Rng)>, xs: seq<A>, k: nat, done: seq<B>, rng: Rng): (res: Result<(seq<B>, Rng)>)
    requires k <= |xs|
    ensures res.Ok? ==> |res.value.0| == |done| + |xs| - k
    decreases |xs| - k
  {
    if k == |xs| then Ok((done, rng))
    else
      var (y, r) :- step(xs[k], rng);
      MapFrom(step, xs, k + 1, done + [y], r)
  }

  /** A step that cannot fail on the values left makes the map succeed. */
  lemma {:induction false} MapFromOk<A, B>(step: (A, Rng) -> Result<(B, Rng)>, xs: seq<A>, k: nat, done: seq<B>, rng: Rng)
    requires k <= |xs|
    requires forall m, r :: k <= m < |xs| ==> step(xs[m], r).Ok?
    ensures MapFrom(step, xs, k, done, rng).Ok?
    decreases |xs| - k
  {
    if k < |xs| {
      MapFromOk(step, xs, k + 1, done + [step(xs[k], rng).value.0], step(xs[k], rng).value.1);
    }
  }

  /** The values already made stay as they are. */
  lemma {:induction false} MapFromKeepsDone<A, B>(step: (A, Rng) -> Result<(B, Rng)>, xs: seq<A>, k: nat, done: seq<B>, rng: Rng)
    requires k <= |xs| && MapFrom(step, xs, k, done, rng).Ok?
    ensures MapFrom(step, xs, k, done, rng).value.0[..|done|] == done
    decreases |xs| - k
  {
    if k < |xs| {
      var (y, r) := step(xs[k], rng).value;
      MapFromKeepsDone(step, xs, k + 1, done + [y], r);
      var ys := MapFrom(step, xs, k + 1, done + [y], r).value.0;
      assert ys[..|done|] == ys[..|done| + 1][..|done|];
    }
  }

  /** Value m of the result is made from xs[m - |done| + k] by a call of
      the step, so it is related to it as every call of the step relates
      its input and output. */
  lemma {:induction false} MapFromRelates<A, B>(step: (A, Rng) -> Result<(B, Rng)>, xs: seq<A>, k: nat, done: seq<B>, rng: Rng, m: nat, rel: (A, B) -> bool)
    requires k <= |xs| && MapFrom(step, xs, k, done, rng).Ok?
    requires |done| <= m < |done| + |xs| - k
    requires forall x, r :: step(x, r).Ok? ==> rel(x, step(x, r).value.0)
    ensures rel(xs[m - |done| + k], MapFrom(step, xs, k, done, rng).value.0[m])
    decreases |xs| - k
  {
    var (y, r) := step(xs[k], rng).value;
    if m == |done| {
      MapFromKeepsDone(step, xs, k + 1, done + [y], r);
      var ys := MapFrom(step, xs, k + 1, done + [y], r).value.0;
      assert ys[m] == ys[..|done| + 1][m];
    } else {
      MapFromRelates(step, xs, k + 1, done + [y], r, m, rel);
    }
  }
}
