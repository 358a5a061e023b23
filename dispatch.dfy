/**
 * run_cluster: keep the trial orientations whose completeness is strictly
 * above the threshold, short-circuit when fewer than two remain, otherwise
 * walk the configured algorithm's fallback chain until a strategy whose
 * backend is available produces an assignment, then compute the centroids.
 */
module ClusterDispatch {
  import opened Wrappers
  import opened Quaternions
  import opened Masks
  import opened ClusteringRegistry
  import opened ClusteringStrategies
  import opened ClusterCentroids

  /** The RuntimeErrors of the dispatch loop, and the AttributeError of the handler as written. */
  datatype ClusterError =
    | NotRecognized(name: string)
    | NoFallback(name: string)
    | AttributeError(attribute: string)

  /** The clustering section of the configuration. */
  datatype ClusteringConfig = ClusteringConfig(algorithm: string, radius: real, completeness: real)

  /** The centroid columns and the raw cluster assignment. */
  datatype Clustering = Clustering(centroids: seq<Quat>, assignment: seq<int>)

  /** A keyword argument that overrides the configured value unless it is None. */
  function Override<T>(arg: Option<T>, configured: T): (v: T)
    ensures arg.None? ==> v == configured
    ensures arg.Some? ==> v == arg.value
  {
    if arg.Some? then arg.value else configured
  }

  /** The mask `compl > min_compl`: an orientation exactly at the threshold is dropped. */
  function AboveMask(compl: seq<real>, minCompl: real): (m: seq<bool>)
    ensures |m| == |compl|
    ensures forall i :: 0 <= i < |compl| ==> (m[i] <==> compl[i] > minCompl)
  {
    seq(|compl|, i requires 0 <= i < |compl| => compl[i] > minCompl)
  }

  /**
   * The intended dispatch protocol: an unknown name fails; an available
   * strategy's labels are the result; an unavailable one hands over to its
   * fallback, or fails when it has none.
   */
  ghost function Dispatch(table: Table<Strategy>, env: Env, name: string, args: ClusterArgs, rank: string -> nat): (r: Result<seq<int>, ClusterError>)
    requires Ranked(table, rank)
    decreases rank(name)
    ensures r.Failure? ==> r.error.NotRecognized? || r.error.NoFallback?
    ensures r.Failure? && r.error.NotRecognized? ==>
      r.error.name !in table && (name in table ==> rank(r.error.name) < rank(name))
    ensures r.Failure? && r.error.NoFallback? ==>
      && r.error.name in table
      && table[r.error.name].fallback.None?
      && !Available(table[r.error.name].fn, env)
  {
    if name !in table then Failure(NotRecognized(name))
    else match Invoke(table[name].fn, env, args)
      case Labels(l) => Success(l)
      case Unavailable(_) =>
        if table[name].fallback.None? then Failure(NoFallback(name))
        else Dispatch(table, env, table[name].fallback.value, args, rank)
  }

  /**
   * The supported names are exactly the names the dispatch loop recognises:
   * a configured name is rejected as unknown precisely when it is not
   * registered, whatever its fallbacks do.
   */
  lemma SupportedNamesAreRecognised(reg: Registry<Strategy>, env: Env, name: string, args: ClusterArgs, rank: string -> nat)
    requires Ranked(reg.table, rank)
    ensures name in reg.Supported() <==> Dispatch(reg.table, env, name, args, rank) != Failure(NotRecognized(name))
  {
  }

  /** Raising the completeness threshold never keeps more orientations. */
  lemma ThresholdMonotone(compl: seq<real>, lo: real, hi: real)
    requires lo <= hi
    ensures CountTrue(AboveMask(compl, hi)) <= CountTrue(AboveMask(compl, lo))
  {
    CountTrueMonotone(AboveMask(compl, hi), AboveMask(compl, lo));
  }

  /** The names the dispatch loop may visit from `name`, following declared fallbacks. */
  ghost function Chain(table: Table<Strategy>, name: string, rank: string -> nat): (c: seq<string>)
    requires Ranked(table, rank)
    decreases rank(name)
    ensures c != [] && c[0] == name
  {
    if name in table && table[name].fallback.Some? then
      [name] + Chain(table, table[name].fallback.value, rank)
    else
      [name]
  }

  /** The k-th name of the chain is the first registered one whose backend is available. */
  ghost predicate FirstAvailableAt(table: Table<Strategy>, env: Env, c: seq<string>, k: nat)
  {
    && k < |c|
    && (forall j :: 0 <= j < k ==> c[j] in table && !Available(table[c[j]].fn, env))
    && c[k] in table && Available(table[c[k]].fn, env)
  }

  /**
   * Dispatch succeeds exactly when some strategy along the fallback chain is
   * available, and then returns the assignment of the first such strategy,
   * called with the same arguments.
   */
  lemma {:induction false} DispatchUsesFirstAvailable(table: Table<Strategy>, env: Env, name: string, args: ClusterArgs, rank: string -> nat, k: nat)
    requires Ranked(table, rank)
    requires FirstAvailableAt(table, env, Chain(table, name, rank), k)
    ensures var s := table[Chain(table, name, rank)[k]].fn;
      Dispatch(table, env, name, args, rank) == Success(Normalise(s, env.raw(s, args)))
    decreases rank(name)
  {
    var c := Chain(table, name, rank);
    if k > 0 {
      assert c[0] == name && name in table && !Available(table[name].fn, env);
      var fb := table[name].fallback.value;
      var c' := Chain(table, fb, rank);
      assert c == [name] + c';
      assert FirstAvailableAt(table, env, c', k - 1) by {
        forall j | 0 <= j < k - 1 ensures c'[j] in table && !Available(table[c'[j]].fn, env) {
          assert c'[j] == c[j + 1];
        }
        assert c'[k - 1] == c[k];
      }
      DispatchUsesFirstAvailable(table, env, fb, args, rank, k - 1);
    }
  }

  /** When dispatch succeeds, some strategy along the fallback chain is the first available one. */
  lemma DispatchSuccessHasFirstAvailable(table: Table<Strategy>, env: Env, name: string, args: ClusterArgs, rank: string -> nat)
    requires Ranked(table, rank)
    requires Dispatch(table, env, name, args, rank).Success?
    ensures exists k :: 0 <= k < |Chain(table, name, rank)| && FirstAvailableAt(table, env, Chain(table, name, rank), k)
  {
    var k := FirstAvailableIndex(table, env, name, args, rank);
  }

  /** The position along the chain of the strategy that answers a successful dispatch. */
  lemma {:induction false} FirstAvailableIndex(table: Table<Strategy>, env: Env, name: string, args: ClusterArgs, rank: string -> nat)
    returns (k: nat)
    requires Ranked(table, rank)
    requires Dispatch(table, env, name, args, rank).Success?
    ensures FirstAvailableAt(table, env, Chain(table, name, rank), k)
    decreases rank(name)
  {
    var c := Chain(table, name, rank);
    if Available(table[name].fn, env) {
      k := 0;
    } else {
      var fb := table[name].fallback.value;
      var c' := Chain(table, fb, rank);
      assert c == [name] + c';
      var k' := FirstAvailableIndex(table, env, fb, args, rank);
      forall j | 0 <= j < k' + 1 ensures c[j] in table && !Available(table[c[j]].fn, env) {
        if j > 0 {
          assert c[j] == c'[j - 1];
        }
      }
      assert c[k' + 1] == c'[k'];
      k := k' + 1;
    }
  }

  /**
   * When dispatch fails, every name of the chain but the last is registered
   * and unavailable, and the last one is either not registered (not
   * recognised) or registered, unavailable and without fallback.
   */
  lemma {:induction false} DispatchFailsAtChainEnd(table: Table<Strategy>, env: Env, name: string, args: ClusterArgs, rank: string -> nat)
    requires Ranked(table, rank)
    requires Dispatch(table, env, name, args, rank).Failure?
    ensures var c := Chain(table, name, rank);
      forall j :: 0 <= j < |c| - 1 ==> c[j] in table && !Available(table[c[j]].fn, env)
    ensures var c := Chain(table, name, rank); var last := c[|c| - 1];
      && (last !in table ==> Dispatch(table, env, name, args, rank) == Failure(NotRecognized(last)))
      && (last in table ==> !Available(table[last].fn, env) && table[last].fallback.None?
                            && Dispatch(table, env, name, args, rank) == Failure(NoFallback(last)))
    decreases rank(name)
  {
    var c := Chain(table, name, rank);
    if name in table && table[name].fallback.Some? {
      var fb := table[name].fallback.value;
      var c' := Chain(table, fb, rank);
      assert c == [name] + c';
      DispatchFailsAtChainEnd(table, env, fb, args, rank);
      assert forall j :: 0 <= j < |c'| ==> c'[j] == c[j + 1];
    }
  }

  /** An available strategy's assignment satisfies the backend contract, wherever along the chain it comes from. */
  lemma {:induction false} DispatchLabelsValid(table: Table<Strategy>, env: Env, name: string, args: ClusterArgs, rank: string -> nat)
    requires Ranked(table, rank)
    requires BackendContract(env)
    ensures var d := Dispatch(table, env, name, args, rank);
      d.Success? ==> |d.value| == |args.orientations| && forall j :: 0 <= j < |d.value| ==> d.value[j] >= 0
    decreases rank(name)
  {
    if name in table {
      var s := table[name].fn;
      if !Available(s, env) && table[name].fallback.Some? {
        DispatchLabelsValid(table, env, table[name].fallback.value, args, rank);
      }
    }
  }

  /**
   * The loop as written: the handler first reads `error.msg`, which the
   * exception does not have, so the first unavailable strategy ends the call
   * with an AttributeError before its fallback is consulted.
   */
  function DispatchAsWritten(table: Table<Strategy>, env: Env, name: string, args: ClusterArgs): (r: Result<seq<int>, ClusterError>)
    ensures r.Success? <==> name in table && Available(table[name].fn, env)
    ensures r.Failure? ==> !r.error.NoFallback?
  {
    if name !in table then Failure(NotRecognized(name))
    else match Invoke(table[name].fn, env, args)
      case Labels(l) => Success(l)
      case Unavailable(_) => Failure(AttributeError("msg"))
  }

  /** The written loop agrees with the protocol only when no fallback is needed. */
  lemma AsWrittenNeverFallsBack(table: Table<Strategy>, env: Env, name: string, args: ClusterArgs, rank: string -> nat)
    requires Ranked(table, rank)
    ensures name in table && !Available(table[name].fn, env) ==>
      DispatchAsWritten(table, env, name, args) == Failure(AttributeError("msg"))
    ensures (name !in table || Available(table[name].fn, env)) ==>
      DispatchAsWritten(table, env, name, args) == Dispatch(table, env, name, args, rank)
  {
  }

  /**
   * With scikit-learn but without parallel_dbscan, configuring omp-dbscan
   * raises AttributeError as written, while the intended protocol clusters
   * with homochoric-dbscan.
   */
  lemma AsWrittenOmpDbscanCounterexample(env: Env, args: ClusterArgs)
    requires env.haveSklearn && !env.haveParallelDbscan
    ensures DispatchAsWritten(DefaultTable(), env, "omp-dbscan", args) == Failure(AttributeError("msg"))
    ensures Dispatch(DefaultTable(), env, "omp-dbscan", args, DefaultRank)
      == Success(Normalise(HomochoricDbscan, env.raw(HomochoricDbscan, args)))
  {
  }

  /** The fallback chains the default table declares. */
  lemma DefaultChains()
    ensures Chain(DefaultTable(), "omp-dbscan", DefaultRank) == ["omp-dbscan", "homochoric-dbscan", "dbscan", "fclusterdata"]
    ensures Chain(DefaultTable(), "qim-fclusterdata", DefaultRank) == ["qim-fclusterdata", "fclusterdata"]
    ensures Chain(DefaultTable(), "qim-dbscan", DefaultRank) == ["qim-dbscan"]
  {
    var t := DefaultTable();
    DefaultTableAcyclic();
    assert Chain(t, "fclusterdata", DefaultRank) == ["fclusterdata"];
    assert Chain(t, "dbscan", DefaultRank) == ["dbscan", "fclusterdata"];
    assert Chain(t, "homochoric-dbscan", DefaultRank) == ["homochoric-dbscan", "dbscan", "fclusterdata"];
  }

  /** The strategy that ends up clustering for each configured name of the default table. */
  function DefaultStrategyUsed(name: string, env: Env): Strategy
  {
    if name == "qim-dbscan" then QimDbscan
    else if name == "omp-dbscan" && env.haveParallelDbscan then OmpDbscan
    else if (name == "omp-dbscan" || name == "homochoric-dbscan") && env.haveSklearn then HomochoricDbscan
    else if name == "qim-fclusterdata" && env.haveSklearn then QimFclusterdata
    else if name == "dbscan" && env.haveSklearn then Dbscan
    else Fclusterdata
  }

  /**
   * How the default table degrades: every registered name but qim-dbscan
   * always yields an assignment, because each chain ends at fclusterdata,
   * which never reports unavailable; qim-dbscan fails without scikit-learn.
   */
  lemma DefaultDegradation(env: Env, name: string, args: ClusterArgs)
    requires name in DefaultTable()
    ensures var d := Dispatch(DefaultTable(), env, name, args, DefaultRank);
      && (d.Failure? <==> name == "qim-dbscan" && !env.haveSklearn)
      && (d.Failure? ==> d.error == NoFallback("qim-dbscan"))
      && (d.Success? ==> var s := DefaultStrategyUsed(name, env); d.value == Normalise(s, env.raw(s, args)))
  {
    DefaultSteps(env, args);
    assert name in {"qim-dbscan", "omp-dbscan", "homochoric-dbscan", "fclusterdata", "qim-fclusterdata", "dbscan"};
    if name == "qim-dbscan" {
    } else if name == "omp-dbscan" {
    } else if name == "homochoric-dbscan" {
    } else if name == "dbscan" {
    } else if name == "qim-fclusterdata" {
    } else {
      assert name == "fclusterdata";
    }
  }

  /** One dispatch step along each declared fallback edge of the default table. */
  lemma DefaultSteps(env: Env, args: ClusterArgs)
    ensures var t := DefaultTable(); var sk := env.haveSklearn;
      && Dispatch(t, env, "fclusterdata", args, DefaultRank) == Success(Normalise(Fclusterdata, env.raw(Fclusterdata, args)))
      && Dispatch(t, env, "dbscan", args, DefaultRank)
         == (if sk then Success(Normalise(Dbscan, env.raw(Dbscan, args))) else Dispatch(t, env, "fclusterdata", args, DefaultRank))
      && Dispatch(t, env, "homochoric-dbscan", args, DefaultRank)
         == (if sk then Success(Normalise(HomochoricDbscan, env.raw(HomochoricDbscan, args))) else Dispatch(t, env, "dbscan", args, DefaultRank))
      && Dispatch(t, env, "omp-dbscan", args, DefaultRank)
         == (if env.haveParallelDbscan then Success(Normalise(OmpDbscan, env.raw(OmpDbscan, args)))
             else Dispatch(t, env, "homochoric-dbscan", args, DefaultRank))
      && Dispatch(t, env, "qim-fclusterdata", args, DefaultRank)
         == (if sk then Success(Normalise(QimFclusterdata, env.raw(QimFclusterdata, args))) else Dispatch(t, env, "fclusterdata", args, DefaultRank))
      && Dispatch(t, env, "qim-dbscan", args, DefaultRank)
         == (if sk then Success(Normalise(QimDbscan, env.raw(QimDbscan, args))) else Failure(NoFallback("qim-dbscan")))
  {
    DefaultTableAcyclic();
  }

  /**
   * With the corrected probe, any scikit-learn release from 0.14 on lets
   * every name of the default table cluster.
   */
  lemma ProbedDefaultsCluster(sklearn: Option<Version>, parallelDbscan: bool, raw: (Strategy, ClusterArgs) -> seq<int>, name: string, args: ClusterArgs)
    requires name in DefaultTable()
    requires sklearn.Some? && AtLeast(sklearn.value, Version(0, 14))
    ensures Dispatch(DefaultTable(), Probe(sklearn, parallelDbscan, raw), name, args, DefaultRank).Success?
  {
    DefaultDegradation(Probe(sklearn, parallelDbscan, raw), name, args);
  }

  /**
   * With line 46's probe and a 1.x scikit-learn release, the intended
   * fallback loop (`Dispatch`) fails qim-dbscan with "no fallback" and
   * falls back from dbscan to fclusterdata, logging the substitution; the
   * loop as written raises AttributeError for both at line 358.
   * The case is latent: the module imports cPickle and so runs only under
   * Python 2, where no 1.x release installs; it shows once the module is
   * ported to Python 3.
   */
  lemma AsWrittenProbeLosesSklearn(minor: nat, parallelDbscan: bool, raw: (Strategy, ClusterArgs) -> seq<int>, args: ClusterArgs)
    ensures var env := Env(SklearnProbeAsWritten(Some(Version(1, minor))), parallelDbscan, raw);
      && Dispatch(DefaultTable(), env, "qim-dbscan", args, DefaultRank) == Failure(NoFallback("qim-dbscan"))
      && Dispatch(DefaultTable(), env, "dbscan", args, DefaultRank) == Success(Normalise(Fclusterdata, raw(Fclusterdata, args)))
      && DispatchAsWritten(DefaultTable(), env, "qim-dbscan", args) == Failure(AttributeError("msg"))
      && DispatchAsWritten(DefaultTable(), env, "dbscan", args) == Failure(AttributeError("msg"))
  {
    var env := Env(SklearnProbeAsWritten(Some(Version(1, minor))), parallelDbscan, raw);
    DefaultDegradation(env, "qim-dbscan", args);
    DefaultDegradation(env, "dbscan", args);
  }

  /**
   * run_cluster. Nothing above the threshold gives no centroids and no
   * assignment; one orientation above it is its own cluster, id 1; two or
   * more are dispatched along the fallback chain and their centroids
   * computed. Given the backends' contract, the centroid step never fails.
   */
  method RunCluster(
    compl: seq<real>, qfib: seq<Quat>, qsym: QSym, cfg: ClusteringConfig,
    minSamples: Option<real>, complThresh: Option<real>, radius: Option<real>,
    table: Table<Strategy>, env: Env, average: (seq<Quat>, QSym) -> Quat, ghost rank: string -> nat)
    returns (r: Result<Clustering, ClusterError>)
    requires |compl| == |qfib|
    requires Ranked(table, rank)
    requires BackendContract(env)
    ensures var mask := AboveMask(compl, Override(complThresh, cfg.completeness));
      CountTrue(mask) == 0 ==> r == Success(Clustering([], []))
    ensures var minCompl := Override(complThresh, cfg.completeness);
      forall j :: 0 <= j < |qfib| && compl[j] > minCompl && CountTrue(AboveMask(compl, minCompl)) == 1 ==>
        r == Success(Clustering([qfib[j]], [1]))
    ensures var mask := AboveMask(compl, Override(complThresh, cfg.completeness));
      var sel := Mask(qfib, mask);
      var d := Dispatch(table, env, cfg.algorithm, ClusterArgs(sel, qsym, Override(radius, cfg.radius), minSamples), rank);
      CountTrue(mask) >= 2 ==>
        && (d.Failure? ==> r == Failure(d.error))
        && (d.Success? ==>
              && |d.value| == |sel|
              && Centroids(sel, d.value, qsym, average).Success?
              && r == Success(Clustering(Centroids(sel, d.value, qsym, average).value, d.value)))
  {
    var minCompl := Override(complThresh, cfg.completeness);
    var clRadius := Override(radius, cfg.radius);
    var mask := AboveMask(compl, minCompl);
    var numAbove := CountTrue(mask);
    if numAbove == 0 {
      return Success(Clustering([], []));
    } else if numAbove == 1 {
      forall j | 0 <= j < |qfib| && compl[j] > minCompl ensures Mask(qfib, mask) == [qfib[j]] {
        MaskSingle(qfib, mask, j);
      }
      return Success(Clustering(Mask(qfib, mask), [1]));
    }
    var qfibR := Mask(qfib, mask);
    var args := ClusterArgs(qfibR, qsym, clRadius, minSamples);
    ghost var goal := Dispatch(table, env, cfg.algorithm, args, rank);
    var algorithm: Option<string> := Some(cfg.algorithm);
    var cl: seq<int> := [];
    while algorithm.Some?
      invariant algorithm.Some? ==> Dispatch(table, env, algorithm.value, args, rank) == goal
      invariant algorithm.None? ==> goal == Success(cl)
      decreases if algorithm.Some? then rank(algorithm.value) + 1 else 0
    {
      var name := algorithm.value;
      if name !in table {
        return Failure(NotRecognized(name));
      }
      match Invoke(table[name].fn, env, args)
      case Labels(l) =>
        cl := l;
        algorithm := None;
      case Unavailable(_) =>
        var fb := table[name].fallback;
        if fb.None? {
          return Failure(NoFallback(name));
        }
        algorithm := fb;
    }
    DispatchLabelsValid(table, env, cfg.algorithm, args, rank);
    CentroidsCorrect(qfibR, cl, qsym, average);
    var qbar := ComputeCentroids(qfibR, cl, qsym, average);
    assert qbar.Success?;
    return Success(Clustering(qbar.value, cl));
  }
}
