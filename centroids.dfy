/**
 * compute_centroids: one averaged orientation per non-zero cluster id,
 * columns ordered by ascending id. The symmetry-aware quaternion average
 * is a foreign routine and is passed in as `average`.
 */
module ClusterCentroids {
  import opened Wrappers
  import opened Quaternions
  import opened Masks

  predicate StrictlyIncreasing(u: seq<int>)
  {
    forall i, j :: 0 <= i < j < |u| ==> u[i] < u[j]
  }

  /** Adds `x` to an ascending sequence of distinct ids unless it is there already. */
  function Insert(x: int, u: seq<int>): (v: seq<int>)
    requires StrictlyIncreasing(u)
    ensures StrictlyIncreasing(v)
    ensures forall y :: y in v <==> y == x || y in u
  {
    if u == [] then [x]
    else if x < u[0] then [x] + u
    else if x == u[0] then u
    else
      var rest := Insert(x, u[1..]);
      assert forall k :: 0 <= k < |rest| ==> u[0] < rest[k] by {
        forall k | 0 <= k < |rest| ensures u[0] < rest[k] {
          assert rest[k] in rest;
        }
      }
      [u[0]] + rest
  }

  /** `np.unique`: the distinct values, in ascending order. */
  function Unique(cl: seq<int>): (u: seq<int>)
    ensures StrictlyIncreasing(u)
    ensures forall x :: x in u <==> x in cl
  {
    if cl == [] then [] else Insert(cl[0], Unique(cl[1..]))
  }

  /** The assertion on the smallest id, and indexing the empty result of `np.unique`. */
  datatype CentroidError = EmptyAssignment | NegativeClusterId

  /** The mask `cl == id`. */
  function IdMask(cl: seq<int>, id: int): (m: seq<bool>)
    ensures |m| == |cl|
  {
    seq(|cl|, j requires 0 <= j < |cl| => cl[j] == id)
  }

  /** The orientations assigned to cluster `id` (`qfib_r[:, cl == id]`). */
  function Members(qfib: seq<Quat>, cl: seq<int>, id: int): seq<Quat>
    requires |cl| == |qfib|
  {
    Mask(qfib, IdMask(cl, id))
  }

  /** The ids that get a column: the distinct ids with the noise id 0 dropped. */
  function ClusterIds(clusters: seq<int>): seq<int>
  {
    if clusters != [] && clusters[0] == 0 then clusters[1..] else clusters
  }

  /** What compute_centroids returns, column by column. */
  function Centroids(qfib: seq<Quat>, cl: seq<int>, qsym: QSym, average: (seq<Quat>, QSym) -> Quat): Result<seq<Quat>, CentroidError>
    requires |cl| == |qfib|
  {
    var clusters := Unique(cl);
    if clusters == [] then Failure(EmptyAssignment)
    else if clusters[0] < 0 then Failure(NegativeClusterId)
    else
      var ids := ClusterIds(clusters);
      Success(seq(|ids|, i requires 0 <= i < |ids| => average(Members(qfib, cl, ids[i]), qsym)))
  }

  /** compute_centroids: fills one column per remaining id, in the order `np.unique` gives. */
  method ComputeCentroids(qfib: seq<Quat>, cl: seq<int>, qsym: QSym, average: (seq<Quat>, QSym) -> Quat)
    returns (r: Result<seq<Quat>, CentroidError>)
    requires |cl| == |qfib|
    ensures r == Centroids(qfib, cl, qsym, average)
  {
    var clusters := Unique(cl);
    if clusters == [] {
      return Failure(EmptyAssignment);
    }
    if clusters[0] < 0 {
      return Failure(NegativeClusterId);
    }
    if clusters[0] == 0 {
      clusters := clusters[1..];
    }
    var qbar := new Quat[|clusters|](_ => Zero);
    for i := 0 to |clusters|
      invariant forall k :: 0 <= k < i ==> qbar[k] == average(Members(qfib, cl, clusters[k]), qsym)
    {
      qbar[i] := average(Members(qfib, cl, clusters[i]), qsym);
    }
    assert qbar[..] == seq(|clusters|, i requires 0 <= i < |clusters| => average(Members(qfib, cl, clusters[i]), qsym));
    return Success(qbar[..]);
  }

  /** The non-zero cluster ids present in an assignment. */
  ghost function NonZeroIds(cl: seq<int>): set<int>
  {
    set x | x in cl && x != 0
  }

  /** The ids of `ids` below `k`: `k` is the i-th smallest exactly when there are i of them. */
  ghost function IdsBelow(ids: set<int>, k: int): set<int>
  {
    set x | x in ids && x < k
  }

  /** An assignment's members carry exactly that id. */
  lemma MembersExactly(qfib: seq<Quat>, cl: seq<int>, id: int, q: Quat)
    requires |cl| == |qfib|
    ensures q in Members(qfib, cl, id) <==> exists j :: 0 <= j < |cl| && cl[j] == id && qfib[j] == q
  {
    MaskMembers(qfib, IdMask(cl, id), q);
  }

  /**
   * Members keeps multiplicity and column order: appending an orientation
   * appends it to the members of its own id and of no other.
   */
  lemma MembersAppend(qfib: seq<Quat>, cl: seq<int>, q: Quat, c: int, id: int)
    requires |cl| == |qfib|
    ensures Members(qfib + [q], cl + [c], id) == Members(qfib, cl, id) + (if c == id then [q] else [])
  {
    assert IdMask(cl + [c], id) == IdMask(cl, id) + [c == id];
    MaskAppend(qfib, IdMask(cl, id), [q], [c == id]);
  }

  /** The values of a sequence, as a set. */
  ghost function Elements(u: seq<int>): set<int>
  {
    set x | x in u
  }

  lemma {:induction false} DistinctCard(u: seq<int>)
    requires StrictlyIncreasing(u)
    ensures |Elements(u)| == |u|
  {
    if u != [] {
      DistinctCard(u[1..]);
      assert Elements(u) == {u[0]} + Elements(u[1..]);
      assert u[0] !in Elements(u[1..]);
    }
  }

  lemma BelowIsPrefix(u: seq<int>, i: nat)
    requires StrictlyIncreasing(u) && i < |u|
    ensures IdsBelow(Elements(u), u[i]) == Elements(u[..i])
  {
  }

  /** Dropping a leading 0 from the distinct ids leaves exactly the non-zero ids, still ascending. */
  lemma ClusterIdsAreNonZeroIds(cl: seq<int>)
    requires Unique(cl) != [] && Unique(cl)[0] >= 0
    ensures StrictlyIncreasing(ClusterIds(Unique(cl)))
    ensures Elements(ClusterIds(Unique(cl))) == NonZeroIds(cl)
  {
    var clusters := Unique(cl);
    var ids := ClusterIds(clusters);
    forall x | x in NonZeroIds(cl) ensures x in ids {
      assert x in clusters;
      if clusters[0] == 0 {
        var j :| 0 <= j < |clusters| && clusters[j] == x;
        assert j > 0;
        assert ids[j - 1] == x;
      }
    }
    forall x | x in ids ensures x in NonZeroIds(cl) {
      var j :| 0 <= j < |ids| && ids[j] == x;
      if clusters[0] == 0 {
        assert x == clusters[j + 1] && clusters[0] < clusters[j + 1];
      } else {
        assert x == clusters[j] && clusters[0] <= clusters[j];
      }
    }
  }

  /** In an ascending sequence of distinct ids, the position of k is the number of ids below k. */
  lemma RankIsPosition(ids: seq<int>, k: int)
    requires StrictlyIncreasing(ids) && k in ids
    ensures |IdsBelow(Elements(ids), k)| < |ids|
    ensures ids[|IdsBelow(Elements(ids), k)|] == k
  {
    var i :| 0 <= i < |ids| && ids[i] == k;
    BelowIsPrefix(ids, i);
    DistinctCard(ids[..i]);
  }

  /**
   * compute_centroids succeeds exactly when the assignment is non-empty and
   * every id is >= 0. It then returns one column per distinct non-zero id,
   * and the column of id k, at the position given by the number of smaller
   * non-zero ids, averages exactly the members of k.
   */
  lemma {:induction false} CentroidsCorrect(qfib: seq<Quat>, cl: seq<int>, qsym: QSym, average: (seq<Quat>, QSym) -> Quat)
    requires |cl| == |qfib|
    ensures var r := Centroids(qfib, cl, qsym, average);
      && (r.Success? <==> cl != [] && forall j :: 0 <= j < |cl| ==> cl[j] >= 0)
      && (r == Failure(EmptyAssignment) <==> cl == [])
    ensures var r := Centroids(qfib, cl, qsym, average);
      r.Success? ==>
        && |r.value| == |NonZeroIds(cl)|
        && forall k :: k in NonZeroIds(cl) ==>
             && |IdsBelow(NonZeroIds(cl), k)| < |r.value|
             && r.value[|IdsBelow(NonZeroIds(cl), k)|] == average(Members(qfib, cl, k), qsym)
  {
    var clusters := Unique(cl);
    if clusters == [] {
      assert cl == [] by {
        assert forall x :: x !in cl;
      }
    } else if clusters[0] < 0 {
      assert clusters[0] in cl;
    } else {
      assert forall j :: 0 <= j < |cl| ==> cl[j] >= 0 by {
        forall j | 0 <= j < |cl| ensures cl[j] >= 0 {
          assert cl[j] in clusters;
        }
      }
      var ids := ClusterIds(clusters);
      ClusterIdsAreNonZeroIds(cl);
      DistinctCard(ids);
      var r := Centroids(qfib, cl, qsym, average);
      forall k | k in NonZeroIds(cl)
        ensures |IdsBelow(NonZeroIds(cl), k)| < |r.value|
        ensures r.value[|IdsBelow(NonZeroIds(cl), k)|] == average(Members(qfib, cl, k), qsym)
      {
        RankIsPosition(ids, k);
      }
    }
  }
}
