/**
 * The neighbourhood size passed to clustering as `min_samples`. A seeded
 * search estimates it from the number of seed reflections that simulated
 * random grains put on the detector; a full-grid search uses 1. The
 * simulation itself is foreign; its per-grain counts come in as data.
 */
module NeighborhoodSize {

  /** The number of random grains simulated. */
  const NGrains: nat := 100

  /** Full quaternion-grid search, or seeded search with the configured completeness and the simulated counts. */
  datatype SearchMode =
    | FullGrid
    | Seeded(completeness: real, numSeedRefls: seq<nat>)

  function Sum(counts: seq<nat>): nat
  {
    if counts == [] then 0 else Sum(counts[..|counts| - 1]) + counts[|counts| - 1]
  }

  /** `np.average` of the per-grain counts. */
  function Average(counts: seq<nat>): (avg: real)
    requires counts != []
    ensures avg >= 0.0
  {
    (Sum(counts) as real) / (|counts| as real)
  }

  /** `completeness * floor(average)`: the expected number of seed reflections a grain's cluster needs. */
  function Estimate(completeness: real, counts: seq<nat>): real
    requires counts != []
  {
    completeness * (Average(counts).Floor as real)
  }

  /** `max(completeness * floor(average), 2)` on the seeded path, 1 on the full grid. */
  function MinSamples(mode: SearchMode): (m: real)
    requires mode.Seeded? ==> |mode.numSeedRefls| == NGrains
    ensures mode.FullGrid? ==> m == 1.0
    ensures mode.Seeded? ==>
      var estimate := Estimate(mode.completeness, mode.numSeedRefls);
      && m >= 2.0 && m >= estimate
      && (m == 2.0 || m == estimate)
  {
    match mode
    case FullGrid => 1.0
    case Seeded(c, counts) =>
      var estimate := Estimate(c, counts);
      if estimate > 2.0 then estimate else 2.0
  }

  lemma {:induction false} SumMonotone(a: seq<nat>, b: seq<nat>)
    requires |a| == |b|
    requires forall i :: 0 <= i < |a| ==> a[i] <= b[i]
    ensures Sum(a) <= Sum(b)
  {
    if a != [] {
      SumMonotone(a[..|a| - 1], b[..|b| - 1]);
    }
  }

  lemma DivideMonotone(x: real, y: real, n: real)
    requires x <= y && n > 0.0
    ensures x / n <= y / n
  {
    assert y / n - x / n == (y - x) / n;
    assert (y - x) / n >= 0.0;
  }

  lemma AverageMonotone(a: seq<nat>, b: seq<nat>)
    requires |a| == |b| > 0
    requires Sum(a) <= Sum(b)
    ensures Average(a).Floor <= Average(b).Floor
  {
    DivideMonotone(Sum(a) as real, Sum(b) as real, |a| as real);
  }

  lemma ScaleMonotone(c: real, x: int, y: int)
    requires c >= 0.0 && x <= y
    ensures c * (x as real) <= c * (y as real)
  {
    assert c * (y as real) - c * (x as real) == c * ((y - x) as real);
  }

  lemma EstimateMonotone(c: real, a: seq<nat>, b: seq<nat>)
    requires c >= 0.0
    requires |a| == |b| > 0
    requires forall i :: 0 <= i < |a| ==> a[i] <= b[i]
    ensures Estimate(c, a) <= Estimate(c, b)
  {
    SumMonotone(a, b);
    AverageMonotone(a, b);
    ScaleMonotone(c, Average(a).Floor, Average(b).Floor);
  }

  /**
   * With a non-negative completeness, grains that see at least as many seed
   * reflections never give a smaller neighbourhood.
   */
  lemma MinSamplesMonotone(c: real, a: seq<nat>, b: seq<nat>)
    requires c >= 0.0
    requires |a| == |b| == NGrains
    requires forall i :: 0 <= i < |a| ==> a[i] <= b[i]
    ensures MinSamples(Seeded(c, a)) <= MinSamples(Seeded(c, b))
  {
    EstimateMonotone(c, a, b);
  }
}
