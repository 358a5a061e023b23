/**
 * The packing part of generate_orientation_fibers: for each seed reflection,
 * the fibers of its labelled spots are written one after another into a
 * buffer sized for `fiber_ndiv` columns per spot, the buffer is cut at the
 * cursor, and the per-reflection results are stacked in seed order.
 * Labelling the maps, the bin-centre conversion and the fiber itself
 * (discreteFiber followed by uniqueVectors) are foreign and come in as data
 * and as the function `fiber`.
 */
module OrientationFibers {
  import opened Wrappers
  import opened Quaternions

  /** A centre-of-mass coordinate, in fractional bins; NaN for a degenerate spot. */
  datatype Coord = NaN | Finite(bins: real)

  /** The centre of mass of one labelled spot, in (omega bin, eta bin). */
  datatype SpotCentroid = SpotCentroid(omeBin: Coord, etaBin: Coord)

  /** One seed reflection: its index in the reflection list and the centroids of its spots. */
  datatype SeedSpots = SeedSpots(hklId: nat, coms: seq<SpotCentroid>)

  /** `np.hstack` of an empty list fails. */
  datatype FiberError = NothingToStack

  /** The written test looks at the omega coordinate only. */
  predicate Skipped(c: SpotCentroid)
  {
    c.omeBin.NaN?
  }

  /** The columns one seed reflection contributes: its spots' fibers, in spot order, NaN spots left out. */
  function SeedFibers(hklId: nat, coms: seq<SpotCentroid>, fiber: (nat, SpotCentroid) -> seq<Quat>): seq<Quat>
  {
    if coms == [] then []
    else
      var last := coms[|coms| - 1];
      SeedFibers(hklId, coms[..|coms| - 1], fiber) + (if Skipped(last) then [] else fiber(hklId, last))
  }

  /** The pool: the seed reflections' columns, concatenated in seed order. */
  function AllFibers(seeds: seq<SeedSpots>, fiber: (nat, SpotCentroid) -> seq<Quat>): seq<Quat>
  {
    if seeds == [] then []
    else
      var last := seeds[|seeds| - 1];
      AllFibers(seeds[..|seeds| - 1], fiber) + SeedFibers(last.hklId, last.coms, fiber)
  }

  /** The source's assumption on the foreign fiber: at most `fiberNdiv` columns per spot. */
  ghost predicate FibersBounded(seeds: seq<SeedSpots>, fiberNdiv: nat, fiber: (nat, SpotCentroid) -> seq<Quat>)
  {
    forall i, s :: 0 <= i < |seeds| && 0 <= s < |seeds[i].coms| ==>
      |fiber(seeds[i].hklId, seeds[i].coms[s])| <= fiberNdiv
  }

  /**
   * The packing loops. For each seed reflection the cursor `ii` is the number
   * of columns written so far and stays within the `fiberNdiv * numSpots`
   * columns allocated; the result is the in-order concatenation.
   */
  method GenerateOrientationFibers(seeds: seq<SeedSpots>, fiberNdiv: nat, fiber: (nat, SpotCentroid) -> seq<Quat>)
    returns (r: Result<seq<Quat>, FiberError>)
    requires FibersBounded(seeds, fiberNdiv, fiber)
    ensures seeds == [] ==> r == Failure(NothingToStack)
    ensures seeds != [] ==> r == Success(AllFibers(seeds, fiber))
  {
    var qfib: seq<Quat> := [];
    for i := 0 to |seeds|
      invariant qfib == AllFibers(seeds[..i], fiber)
    {
      var hklId := seeds[i].hklId;
      var coms := seeds[i].coms;
      var numSpots := |coms|;
      var ii := 0;
      var qfibTmp := new Quat[fiberNdiv * numSpots](_ => Zero);
      for ispot := 0 to numSpots
        invariant ii <= fiberNdiv * ispot
        invariant qfibTmp[..ii] == SeedFibers(hklId, coms[..ispot], fiber)
      {
        assert coms[..ispot + 1][..ispot] == coms[..ispot];
        if !Skipped(coms[ispot]) {
          var tmp := fiber(hklId, coms[ispot]);
          assert |tmp| <= fiberNdiv;
          CursorStaysInBuffer(fiberNdiv, ispot, numSpots);
          var jj := ii + |tmp|;
          forall j | ii <= j < jj {
            qfibTmp[j] := tmp[j - ii];
          }
          assert qfibTmp[..jj] == qfibTmp[..ii] + tmp;
          ii := jj;
        }
      }
      assert coms[..numSpots] == coms;
      assert seeds[..i + 1][..i] == seeds[..i];
      qfib := qfib + qfibTmp[..ii];
    }
    assert seeds[..|seeds|] == seeds;
    if seeds == [] {
      return Failure(NothingToStack);
    }
    return Success(qfib);
  }

  lemma CursorStaysInBuffer(fiberNdiv: nat, ispot: nat, numSpots: nat)
    requires ispot < numSpots
    ensures fiberNdiv * ispot + fiberNdiv == fiberNdiv * (ispot + 1) <= fiberNdiv * numSpots
  {
  }

  /** One reflection contributes at most `fiberNdiv` columns per spot. */
  lemma {:induction false} SeedFibersBounded(hklId: nat, coms: seq<SpotCentroid>, fiberNdiv: nat, fiber: (nat, SpotCentroid) -> seq<Quat>)
    requires forall s :: 0 <= s < |coms| ==> |fiber(hklId, coms[s])| <= fiberNdiv
    ensures |SeedFibers(hklId, coms, fiber)| <= fiberNdiv * |coms|
  {
    if coms != [] {
      SeedFibersBounded(hklId, coms[..|coms| - 1], fiberNdiv, fiber);
      CursorStaysInBuffer(fiberNdiv, |coms| - 1, |coms|);
    }
  }

  /** The columns of consecutive runs of spots follow each other. */
  lemma {:induction false} SeedFibersAppend(hklId: nat, a: seq<SpotCentroid>, b: seq<SpotCentroid>, fiber: (nat, SpotCentroid) -> seq<Quat>)
    ensures SeedFibers(hklId, a + b, fiber) == SeedFibers(hklId, a, fiber) + SeedFibers(hklId, b, fiber)
    decreases |b|
  {
    if b == [] {
      assert a + b == a;
    } else {
      var b' := b[..|b| - 1];
      assert (a + b)[..|a + b| - 1] == a + b';
      SeedFibersAppend(hklId, a, b', fiber);
    }
  }

  /** A spot whose omega centroid is NaN contributes no column, wherever it stands. */
  lemma SkippedSpotContributesNothing(hklId: nat, a: seq<SpotCentroid>, c: SpotCentroid, b: seq<SpotCentroid>, fiber: (nat, SpotCentroid) -> seq<Quat>)
    requires Skipped(c)
    ensures SeedFibers(hklId, a + [c] + b, fiber) == SeedFibers(hklId, a + b, fiber)
  {
    SeedFibersAppend(hklId, a + [c], b, fiber);
    SeedFibersAppend(hklId, a, [c], fiber);
    SeedFibersAppend(hklId, a, b, fiber);
    assert SeedFibers(hklId, [c], fiber) == [] by {
      assert [c][..0] == [];
    }
  }

  /** Seed reflections are stacked in order: the pool of a concatenation is the concatenation of the pools. */
  lemma {:induction false} AllFibersAppend(s: seq<SeedSpots>, t: seq<SeedSpots>, fiber: (nat, SpotCentroid) -> seq<Quat>)
    ensures AllFibers(s + t, fiber) == AllFibers(s, fiber) + AllFibers(t, fiber)
    decreases |t|
  {
    if t == [] {
      assert s + t == s;
    } else {
      var t' := t[..|t| - 1];
      assert (s + t)[..|s + t| - 1] == s + t';
      AllFibersAppend(s, t', fiber);
    }
  }
}
