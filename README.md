# Orientation candidates and clustering in hexrd's findorientations

This project models the discrete control logic of `hexrd/findorientations.py`.
That module turns eta-omega intensity maps into a set of crystal orientations.
It does this in four steps:

- It generates fibers of trial orientations from labelled diffraction spots.
- An external scorer rates each trial orientation's completeness.
- It keeps the orientations above a completeness threshold and clusters them with a named strategy.
- It averages each cluster into one centroid orientation.

The numerical work is foreign code. It is modelled as opaque, function-typed parameters:

- the clustering backends (scikit-learn's `dbscan`, `parallel_dbscan`, scipy's `fclusterdata`);
- the symmetry-aware quaternion average;
- the discretised fiber of one spot.

What the model proves is the bookkeeping around these calls:

- the strategy registry and its fallback-chain dispatch;
- the label convention of each strategy;
- the ordering and membership of the centroid columns;
- the packing of fibers into per-reflection buffers;
- the neighbourhood-size rule.

Modules:

- `Wrappers`: `Option`, `Result` and `Outcome`. They stand in for the exceptions the source raises.
- `Quaternions`: the quaternion column type and the symmetry operators `QSym`.
- `Masks`: numpy boolean-mask selection (`a[:, mask]`, `sum(mask)`).
- `ClusteringRegistry`: the module-level dictionary as a class `Registry` whose `Register` method mutates its `table` field. Also holds `Ranked`, the acyclicity condition on fallback edges.
- `ClusteringStrategies`: the six registered strategies, their availability flags and their label normalisation. Also holds the default table that module load builds, and the scikit-learn import probe.
- `ClusterCentroids`: `compute_centroids`, as a method that fills an array column by column. It is proved against the function `Centroids`.
- `ClusterDispatch`: the intended dispatch protocol `Dispatch` and the fallback `Chain`. Also holds `run_cluster` as a method whose `while` loop walks the chain, and the dispatch loop as written.
- `OrientationFibers`: the packing loops of `generate_orientation_fibers`. They write into an `array` buffer at a cursor.
- `NeighborhoodSize`: the `min_samples` rule.

## Model

| member | source | states |
|---|---|---|
| `Masks.CountTrue` | hexrd/findorientations.py:325 | the number of orientations above the threshold is at most their total, and is zero exactly when none is above |
| `Masks.MaskMembers` | hexrd/findorientations.py:337 | masking keeps exactly the columns whose flag is set |
| `Masks.MaskSingle` | hexrd/findorientations.py:329-332 | with exactly one flag set, the masked array is that single column |
| `Masks.MaskAppend` | hexrd/findorientations.py:337 | masking preserves column order: masking a concatenation concatenates the masked parts |
| `Masks.CountTrueMonotone` | hexrd/findorientations.py:325 | a mask whose set flags are among another's counts no more of them |
| `ClusteringRegistry.Registry.constructor` | hexrd/findorientations.py:152 | the table starts empty |
| `ClusterDispatch.SupportedNamesAreRecognised` | hexrd/findorientations.py:157-161 | a name is among the supported names (`Registry.Supported`) exactly when the dispatch loop does not reject it as unrecognised, whatever its fallbacks do, so the names the configuration may give are the names dispatch accepts |
| `ClusteringRegistry.Registry.Register` | hexrd/findorientations.py:164-180 | registering a name already present fails and leaves the table unchanged; otherwise the table gains exactly that name mapped to (fn, fallback) and every other entry is kept |
| `ClusteringStrategies.Available` | hexrd/findorientations.py:183-272 | the `have_*` guards: fclusterdata is always usable; without either optional backend it is the only usable strategy; with both, every strategy is usable; any other usable strategy needs at least one backend |
| `ClusteringStrategies.Normalise` | hexrd/findorientations.py:183-272 | the `+ 1` returns at lines 193, 205, 219, 248 and 272: noise -1 becomes 0 and clusters >= 0 become ids >= 1; fclusterdata's labels (line 234) are returned unshifted; the length is kept |
| `ClusteringStrategies.NormalisePreservesClusters` | hexrd/findorientations.py:183-272 | normalising renames clusters without merging or splitting any: two orientations share a label exactly when the backend put them together |
| `ClusteringStrategies.Invoke` | hexrd/findorientations.py:167-272 | a strategy raises unavailable exactly when its backend was not found, with the message naming the missing module; otherwise, given the backends' contract, it returns one id per orientation, every id >= 0, and 0 (noise) only from the dbscan-based strategies, as lines 167-171 promise |
| `ClusteringStrategies.DefaultRegistry` | hexrd/findorientations.py:183-251 | the six decorations register without hitting the duplicate-name assertion; the resulting table is exactly the six names with their declared fallbacks |
| `ClusteringStrategies.DefaultTableWellFormed` | hexrd/findorientations.py:183-251 | the table `DefaultTable` builds has six names for six distinct strategies, and every declared fallback names a registered algorithm |
| `ClusteringStrategies.DefaultTableAcyclic` | hexrd/findorientations.py:196-251 | the declared fallback edges strictly decrease a rank, so the fallback graph has no cycle |
| `ClusteringStrategies.SklearnProbe` | hexrd/findorientations.py:42-51 | scikit-learn counts as present exactly when an installed release is 0.14 or later |
| `ClusteringStrategies.SklearnProbeAsWritten` | hexrd/findorientations.py:42-51 | the probe as written never accepts a release older than 0.14 |
| `ClusteringStrategies.SklearnProbeAsWrittenRefusesLaterReleases` | hexrd/findorientations.py:45-46 | the written probe agrees with the intended one on every 0.x release but refuses release 1.0 |
| `ClusteringStrategies.Probe` | hexrd/findorientations.py:42-58 | with the corrected scikit-learn test: fclusterdata is always callable, omp-dbscan exactly when parallel_dbscan imports, and every other strategy exactly when a scikit-learn release 0.14 or later is installed |
| `ClusterCentroids.Unique` | hexrd/findorientations.py:290 | `np.unique` yields the distinct ids in strictly ascending order, no more and no fewer |
| `ClusterCentroids.ComputeCentroids` | hexrd/findorientations.py:275-304 | the array filled column by column equals the function `Centroids`, including its two failure cases |
| `ClusterCentroids.CentroidsCorrect` | hexrd/findorientations.py:290-302 | success exactly when the assignment is non-empty and all ids are >= 0; one column per distinct non-zero id; the column of id k sits at k's rank among the non-zero ids and averages exactly k's members |
| `ClusterCentroids.ClusterIdsAreNonZeroIds` | hexrd/findorientations.py:290-294 | dropping a leading 0 from the unique ids leaves exactly the non-zero ids, still ascending |
| `ClusterCentroids.MembersExactly` | hexrd/findorientations.py:299 | the members averaged for an id are exactly the orientations assigned that id |
| `ClusterCentroids.MembersAppend` | hexrd/findorientations.py:299 | the members keep multiplicity and column order: appending an orientation appends it to the members of its own id and of no other |
| `ClusterDispatch.Override` | hexrd/findorientations.py:316-321 | a keyword argument given as None leaves the configured value; any other value replaces it |
| `ClusterDispatch.AboveMask` | hexrd/findorientations.py:325 | one flag per orientation, set exactly when its completeness is strictly above the threshold, so an orientation at the threshold is dropped |
| `ClusterDispatch.ThresholdMonotone` | hexrd/findorientations.py:325 | raising the completeness threshold never keeps more orientations |
| `ClusterDispatch.Dispatch` | hexrd/findorientations.py:346-365 | the intended loop fails only with "not recognized" or "no fallback"; a name reported unrecognised is not registered and, when the configured name is, has a lower rank than it (its place at the chain's end is `DispatchFailsAtChainEnd`); a name reported without fallback is registered, unavailable and has none |
| `ClusterDispatch.DispatchUsesFirstAvailable` | hexrd/findorientations.py:344-365 | if the k-th name on the fallback chain is the first registered, available one, dispatch returns that strategy's labels for the same arguments |
| `ClusterDispatch.DispatchSuccessHasFirstAvailable` | hexrd/findorientations.py:344-365 | dispatch succeeds only if some name on the chain is the first registered, available one |
| `ClusterDispatch.DispatchFailsAtChainEnd` | hexrd/findorientations.py:346-362 | on failure every name but the last is registered and unavailable; the last is either unregistered (not recognised) or unavailable without a fallback |
| `ClusterDispatch.DispatchLabelsValid` | hexrd/findorientations.py:344-356 | whichever strategy along the chain answers, its assignment has one non-negative id per orientation |
| `ClusterDispatch.DispatchAsWritten` | hexrd/findorientations.py:346-358 | as written, dispatch succeeds exactly when the configured name is registered and its own backend is available, and never reaches the "no fallback" error |
| `ClusterDispatch.AsWrittenNeverFallsBack` | hexrd/findorientations.py:357-358 | as written, an unavailable strategy ends dispatch with an AttributeError; the written and intended loops agree only when no fallback is needed |
| `ClusterDispatch.AsWrittenOmpDbscanCounterexample` | hexrd/findorientations.py:357-365 | with scikit-learn but without parallel_dbscan, omp-dbscan raises as written but clusters with homochoric-dbscan under the intended protocol |
| `ClusterDispatch.DefaultChains` | hexrd/findorientations.py:196-251 | the chains are omp-dbscan, homochoric-dbscan, dbscan, fclusterdata; then qim-fclusterdata, fclusterdata; qim-dbscan stands alone |
| `ClusterDispatch.DefaultSteps` | hexrd/findorientations.py:346-365 | under the intended protocol (`Dispatch`), one loop iteration along each fallback edge of the default table: a name's own labels when its backend is found, otherwise the result of its fallback, or "no fallback" for qim-dbscan |
| `ClusterDispatch.DefaultDegradation` | hexrd/findorientations.py:346-365 | under the intended protocol (`Dispatch`), with the default table every registered name but qim-dbscan always yields an assignment; qim-dbscan fails only without scikit-learn; the strategy used is the first available one on the chain |
| `ClusterDispatch.ProbedDefaultsCluster` | hexrd/findorientations.py:42-58 | under the intended protocol (`Dispatch`), with the corrected probe and any scikit-learn release from 0.14 on, every name of the default table clusters |
| `ClusterDispatch.AsWrittenProbeLosesSklearn` | hexrd/findorientations.py:45-46 | with line 46's probe, a 1.x release and the intended fallback loop (`Dispatch`), qim-dbscan fails with "no fallback" and dbscan falls back to fclusterdata (logged at 363-364); as written (`DispatchAsWritten`), line 358 makes both raise AttributeError; latent, because the module imports `cPickle` (line 4) and so runs only under Python 2, where no 1.x release installs |
| `ClusterDispatch.RunCluster` | hexrd/findorientations.py:307-392 | nothing above the threshold gives empty centroids and assignment; exactly one gives that orientation as sole centroid with assignment [1]; two or more give the dispatch error, or the dispatched assignment with its centroids, and the centroid step cannot fail; it follows the intended fallback protocol of lines 359-365, not the handler as written at line 358 (see Findings, 357-358) |
| `OrientationFibers.GenerateOrientationFibers` | hexrd/findorientations.py:86-147 | the buffer packing equals the in-order concatenation of the fibers of the non-NaN spots, per reflection and across reflections in seed order; the cursor never passes the allocated columns; an empty seed list fails to stack |
| `OrientationFibers.SeedFibersBounded` | hexrd/findorientations.py:113 | a reflection contributes at most `fiber_ndiv` columns per spot, so the buffer allocated at line 113 suffices |
| `OrientationFibers.SeedFibersAppend` | hexrd/findorientations.py:140-142 | the columns of consecutive runs of spots follow each other |
| `OrientationFibers.SkippedSpotContributesNothing` | hexrd/findorientations.py:115 | a spot with a NaN omega centroid contributes no column, wherever it stands |
| `OrientationFibers.AllFibersAppend` | hexrd/findorientations.py:145-147 | reflections are stacked in seed order |
| `NeighborhoodSize.MinSamples` | hexrd/findorientations.py:596-601 | the seeded path gives max(completeness * floor(average), 2): at least 2, at least the estimate, and one of the two; the full grid gives 1 |
| `NeighborhoodSize.MinSamplesMonotone` | hexrd/findorientations.py:596-597 | with non-negative completeness, grains that see more seed reflections never give a smaller neighbourhood |

## Left out

- Map loading, caching and generation (`load_eta_ome_maps`, `generate_eta_ome_maps`) are left out. They are pickle file I/O and detector-frame collapsing.
- The setup of `find_orientations` is left out: experiment, instrument and distortion initialisation, reading the quaternion-grid file, `paintGrid` scoring and every `savetxt`/`save` dump. The choice between full grid and seeded search (the try/except around `np.loadtxt`, lines 501-510) is not modelled either: `NeighborhoodSize.SearchMode` is an input that carries its outcome.
- The Monte-Carlo simulation of 100 random grains is left out. It uses random numbers and `simulateGVecs`. Its per-grain seed-reflection counts are inputs to `MinSamples`.
- `mean_rpg` is left out. It is only logged.
- Spot labelling (`ndimage.label`, `center_of_mass`) is foreign. Each seed reflection's spot centroids are given as data, and `numSpots` is their number.
- The bin-centre conversion and `anglesToGVec` are floating-point geometry and are left out. `discreteFiber` and `uniqueVectors` are foreign. The whole per-spot computation is the function parameter `fiber`.
- `rot.quatAverage` is the function parameter `average`. The homogeneous-cluster idempotence of the average is a property of that foreign routine and is not stated.
- The clustering backends are foreign. `Env.raw` gives the labels each backend computes. `BackendContract` states what they guarantee: one label per orientation, nothing below -1 for dbscan and nothing below 1 for fclusterdata.
- Logging, timing, the `clusters.dat` dump, the unused `algorithm_used`, `nblobs` and `npts` values, and the 2-D reshaping by `np.atleast_2d` are left out.
- Error reports name only the algorithm that failed, not the whole chain attempted, as in the source.
- A configured algorithm name is always present. A missing name would leave `cl` unbound at line 367; this is not modelled.
- ClusterDispatch.RunCluster: requires the completeness vector to be as long as the orientation pool, because numpy refuses a mask of another length.
- ClusterDispatch.RunCluster: requires `Ranked`, an acyclic fallback graph. Cyclic tables are excluded altogether, although the source still returns labels on one when an available strategy is reached before the cycle closes and loops forever only when every strategy on the cycle is unavailable. The exclusion is harmless for the module's own table, which is acyclic (`DefaultTableAcyclic`).
- ClusterDispatch.RunCluster: follows the intended fallback loop of lines 359-365. As written, the handler at line 358 raises AttributeError at the first unavailable strategy; that behaviour is `DispatchAsWritten` (see Findings).
- ClusterDispatch.RunCluster: requires `BackendContract`, so backends that break their contract are not covered. With a wrong-length label array numpy would raise; with a label below the backend's minimum, compute_centroids could fail its assertion.
- OrientationFibers.GenerateOrientationFibers: requires each spot's fiber to have at most `fiber_ndiv` columns. Otherwise the slice assignment at line 141 would fail; that error path is not modelled.
- ClusteringStrategies.Probe: uses the corrected scikit-learn test `SklearnProbe` of the Findings table instead of line 46's `major == 0` test, so for a 1.x release it reports scikit-learn present where the source reports it missing. The difference cannot be observed in the source's own environment: the module imports `cPickle` (line 4) and so runs only under Python 2, where every installable scikit-learn release is 0.x and the two tests agree (`SklearnProbeAsWrittenRefusesLaterReleases`). The source's behaviour is `SklearnProbeAsWritten`, and `AsWrittenProbeLosesSklearn` states its consequence.
- ClusteringStrategies.Probe: takes the installed scikit-learn release as two numbers. A version string whose minor part is not an integer would make `int()` raise at import; this is not modelled.
- qim-fclusterdata adds 1 to fclusterdata's labels, which start at 1, so its ids start at 2. This is modelled as written (`Normalise`). It still meets the positive-id contract.
- Strategies are meant to be registered once, at import time. The code fills the dictionary by decorator, and the model follows the code: `Registry.Register` mutates the table and `DefaultRegistry` performs the six registrations.

## Findings

| source | as written | input that shows it | evidently intended | confidence | as-written member | corrected member |
|---|---|---|---|---|---|---|
| hexrd/findorientations.py:357-358 | the handler logs `error.msg`, but `ClusterMethodUnavailableError` (lines 154-155) has no `msg` attribute, so the handler raises AttributeError before reading the fallback | algorithm `omp-dbscan` with parallel_dbscan missing and scikit-learn present | fall back to `homochoric-dbscan` and cluster with it (lines 359-365) | not executed; high | `ClusterDispatch.AsWrittenOmpDbscanCounterexample` | `ClusterDispatch.DefaultDegradation` |
| hexrd/findorientations.py:45-46 | the probe accepts scikit-learn only when the major version string is `'0'` | latent: the module is Python 2 only (`cPickle` at line 4), where scikit-learn stops at 0.x and both tests agree; once ported to Python 3, scikit-learn 1.0 leaves `have_sklearn` False and every sklearn strategy reports "sklearn >= 0.14 not found" | accept every release at or after 0.14, as the message says | not executed; medium, latent until a Python 3 port | `ClusteringStrategies.SklearnProbeAsWrittenRefusesLaterReleases` | `ClusteringStrategies.SklearnProbe` |
