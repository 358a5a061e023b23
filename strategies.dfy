/**
 * The six registered clustering strategies. Each one stands for a foreign
 * clustering backend (scikit-learn's dbscan, the optional parallel_dbscan
 * module, scipy's fclusterdata) and the label convention the strategy
 * applies to that backend's output: cluster ids are positive and 0 is
 * reserved for noise.
 */
module ClusteringStrategies {
  import opened Wrappers
  import opened Quaternions
  import opened ClusteringRegistry

  /** The registered clustering functions, one per decorated definition. */
  datatype Strategy =
    | QimDbscan         // dbscan on the vector parts of the quaternions
    | OmpDbscan         // parallel_dbscan on homochoric coordinates
    | HomochoricDbscan  // dbscan on homochoric coordinates
    | Fclusterdata      // hierarchical clustering with the symmetric misorientation metric
    | QimFclusterdata   // hierarchical clustering on the vector parts
    | Dbscan            // dbscan on a precomputed misorientation matrix

  /** The arguments every strategy along a fallback chain receives unchanged. */
  datatype ClusterArgs = ClusterArgs(orientations: seq<Quat>, qsym: QSym, radius: real, minSamples: Option<real>)

  /**
   * What the optional-import probes found, and the foreign backends:
   * `raw(s, args)` is the label array the backend behind `s` computes,
   * before `s` normalises it.
   */
  datatype Env = Env(haveSklearn: bool, haveParallelDbscan: bool, raw: (Strategy, ClusterArgs) -> seq<int>)

  /** A strategy either returns labels or raises ClusterMethodUnavailableError. */
  datatype StrategyOutcome = Labels(labels: seq<int>) | Unavailable(message: string)

  const SklearnMissing := "required module sklearn >= 0.14 not found."
  const ParallelDbscanMissing := "required module parallel_dbscan not found."

  /**
   * Whether the backend a strategy needs was found. fclusterdata needs only
   * scipy, so without either optional backend it is the only usable
   * strategy; with both, every strategy is usable.
   */
  function Available(s: Strategy, env: Env): (ok: bool)
    ensures s == Fclusterdata ==> ok
    ensures !env.haveSklearn && !env.haveParallelDbscan ==> (ok <==> s == Fclusterdata)
    ensures env.haveSklearn && env.haveParallelDbscan ==> ok
    ensures ok && s != Fclusterdata ==> env.haveSklearn || env.haveParallelDbscan
  {
    match s
    case OmpDbscan => env.haveParallelDbscan
    case Fclusterdata => true
    case _ => env.haveSklearn
  }

  /** Strategies whose backend is dbscan and so may label points as noise (-1). */
  predicate DensityBased(s: Strategy)
  {
    s in {QimDbscan, OmpDbscan, HomochoricDbscan, Dbscan}
  }

  /**
   * The label shift: for every strategy but fclusterdata, backend noise -1
   * becomes 0 and backend clusters (>= 0) become ids >= 1; fclusterdata's
   * labels are returned as they are.
   */
  function Normalise(s: Strategy, raw: seq<int>): (labels: seq<int>)
    ensures |labels| == |raw|
    ensures s == Fclusterdata ==> labels == raw
    ensures s != Fclusterdata ==> forall i :: 0 <= i < |raw| ==>
      && (raw[i] == -1 <==> labels[i] == 0)
      && (raw[i] >= 0 <==> labels[i] >= 1)
  {
    if s == Fclusterdata then raw
    else seq(|raw|, i requires 0 <= i < |raw| => raw[i] + 1)
  }

  /** Normalising renames clusters without merging or splitting any. */
  lemma NormalisePreservesClusters(s: Strategy, raw: seq<int>, i: nat, j: nat)
    requires i < |raw| && j < |raw|
    ensures Normalise(s, raw)[i] == Normalise(s, raw)[j] <==> raw[i] == raw[j]
  {
  }

  /**
   * Calling a strategy. Without its backend it raises, naming the missing
   * module; otherwise, given the backends' contract, it honours the
   * registry's label contract: one id per orientation, ids are
   * non-negative, and 0 (noise) comes only from the dbscan-based strategies.
   */
  function Invoke(s: Strategy, env: Env, args: ClusterArgs): (o: StrategyOutcome)
    ensures o.Unavailable? <==> !Available(s, env)
    ensures o.Unavailable? ==> o.message == (if s == OmpDbscan then ParallelDbscanMissing else SklearnMissing)
    ensures BackendContract(env) && o.Labels? ==>
      && |o.labels| == |args.orientations|
      && (forall j :: 0 <= j < |o.labels| ==> o.labels[j] >= 0)
      && (!DensityBased(s) ==> forall j :: 0 <= j < |o.labels| ==> o.labels[j] >= 1)
  {
    if !Available(s, env) then
      Unavailable(if s == OmpDbscan then ParallelDbscanMissing else SklearnMissing)
    else
      Labels(Normalise(s, env.raw(s, args)))
  }

  /** The smallest label each backend produces: dbscan marks noise with -1, fclusterdata numbers clusters from 1. */
  function LowestRawLabel(s: Strategy): int
  {
    if DensityBased(s) then -1 else 1
  }

  /** What the foreign backends guarantee: one label per orientation, none below the backend's lowest label. */
  ghost predicate BackendContract(env: Env)
  {
    forall s, args ::
      && |env.raw(s, args)| == |args.orientations|
      && forall j :: 0 <= j < |env.raw(s, args)| ==> env.raw(s, args)[j] >= LowestRawLabel(s)
  }

  /**
   * The table the six decorated definitions build, in source order.
   */
  function DefaultTable(): Table<Strategy>
  {
    map[
      "qim-dbscan" := ClusteringOption(QimDbscan, None),
      "omp-dbscan" := ClusteringOption(OmpDbscan, Some("homochoric-dbscan")),
      "homochoric-dbscan" := ClusteringOption(HomochoricDbscan, Some("dbscan")),
      "fclusterdata" := ClusteringOption(Fclusterdata, None),
      "qim-fclusterdata" := ClusteringOption(QimFclusterdata, Some("fclusterdata")),
      "dbscan" := ClusteringOption(Dbscan, Some("fclusterdata"))
    ]
  }

  /**
   * The default table registers six names for six distinct strategies, and
   * every declared fallback names a registered algorithm.
   */
  lemma DefaultTableWellFormed()
    ensures |DefaultTable().Keys| == 6
    ensures forall a, b :: a in DefaultTable() && b in DefaultTable() && DefaultTable()[a].fn == DefaultTable()[b].fn ==> a == b
    ensures forall n :: n in DefaultTable() && DefaultTable()[n].fallback.Some? ==> DefaultTable()[n].fallback.value in DefaultTable()
  {
  }

  /** Module load: the six registrations, none of which hits the duplicate-name assertion. */
  method DefaultRegistry() returns (reg: Registry<Strategy>)
    ensures fresh(reg)
    ensures reg.table == DefaultTable()
    ensures reg.Supported() == {"qim-dbscan", "omp-dbscan", "homochoric-dbscan", "fclusterdata", "qim-fclusterdata", "dbscan"}
  {
    reg := new Registry();
    var r := reg.Register("qim-dbscan", QimDbscan, None);
    assert r.Pass?;
    r := reg.Register("omp-dbscan", OmpDbscan, Some("homochoric-dbscan"));
    assert r.Pass?;
    r := reg.Register("homochoric-dbscan", HomochoricDbscan, Some("dbscan"));
    assert r.Pass?;
    r := reg.Register("fclusterdata", Fclusterdata, None);
    assert r.Pass?;
    r := reg.Register("qim-fclusterdata", QimFclusterdata, Some("fclusterdata"));
    assert r.Pass?;
    r := reg.Register("dbscan", Dbscan, Some("fclusterdata"));
    assert r.Pass?;
  }

  /** Distance to the end of the longest fallback chain through each name. */
  function DefaultRank(name: string): nat
  {
    if name == "omp-dbscan" then 3
    else if name == "homochoric-dbscan" then 2
    else if name == "dbscan" || name == "qim-fclusterdata" then 1
    else 0
  }

  /**
   * The declared fallback edges omp-dbscan -> homochoric-dbscan -> dbscan ->
   * fclusterdata and qim-fclusterdata -> fclusterdata form no cycle.
   */
  lemma DefaultTableAcyclic()
    ensures Ranked(DefaultTable(), DefaultRank)
  {
  }

  /** A scikit-learn release number (major.minor). */
  datatype Version = Version(major: nat, minor: nat)

  /** Release order on versions. */
  predicate AtLeast(v: Version, w: Version)
  {
    v.major > w.major || (v.major == w.major && v.minor >= w.minor)
  }

  /**
   * The scikit-learn probe as written: the major number must be '0'. It
   * never accepts a release older than 0.14.
   */
  function SklearnProbeAsWritten(installed: Option<Version>): (found: bool)
    ensures found ==> installed.Some? && AtLeast(installed.value, Version(0, 14))
  {
    installed.Some? && installed.value.major == 0 && installed.value.minor >= 14
  }

  /** The probe the error message asks for: scikit-learn 0.14 or later. */
  function SklearnProbe(installed: Option<Version>): (found: bool)
    ensures found <==> installed.Some? && AtLeast(installed.value, Version(0, 14))
  {
    installed.Some? && (installed.value.major > 0 || installed.value.minor >= 14)
  }

  /** The two probes agree on every 0.x release, but the written one refuses 1.0. */
  lemma SklearnProbeAsWrittenRefusesLaterReleases()
    ensures forall m: nat :: SklearnProbeAsWritten(Some(Version(0, m))) == SklearnProbe(Some(Version(0, m)))
    ensures SklearnProbe(Some(Version(1, 0))) && !SklearnProbeAsWritten(Some(Version(1, 0)))
  {
  }

  /**
   * The environment the import probes establish, with the corrected
   * scikit-learn test: which strategies may be called, given the installed
   * releases.
   */
  function Probe(sklearn: Option<Version>, parallelDbscan: bool, raw: (Strategy, ClusterArgs) -> seq<int>): (env: Env)
    ensures env.raw == raw
    ensures Available(Fclusterdata, env)
    ensures Available(OmpDbscan, env) <==> parallelDbscan
    ensures forall s :: s != OmpDbscan && s != Fclusterdata ==>
      (Available(s, env) <==> sklearn.Some? && AtLeast(sklearn.value, Version(0, 14)))
  {
    Env(SklearnProbe(sklearn), parallelDbscan, raw)
  }
}
