# Mu2e offline reconstruction core, modelled in Dafny

This project models four pieces of the Mu2e offline software:

- **`KalFitHack`**, the annealing driver of the calorimeter-seeded Kalman track fit.
  - It builds the fit's hits and keeps them sorted by flight length.
  - It groups hits into same-panel doublets and resolves their left/right ambiguities from the track slope. The results go into two 40000-entry scratch tables whose sentinel is -9999.
  - It assigns each annealing step's external hit error, with a reduced error for resolved doublet hits.
  - It iterates resolve / refit / T0 update / weed until nothing changes, the fit fails or the iteration cap is reached.
  - It weeds the worst outlier, or restores the best inactive hit, recursively.
- **`TrackAnalysisReco`**, the per-event analyzer.
  - It picks the best downstream track, the upstream track in the reflection window and the muon track with the largest hit overlap.
  - It fills the trigger word, the event weights and the proton count.
  - It fills a tree row only when a downstream track exists or empty events are processed.
- **`FilterStepPointsByTime`**, an event filter. It copies the step points inside an open time window and passes the event iff any were copied.
- **`HelixFilter`**, an event filter. It passes the event iff some helix seed meets the status, calorimeter, hit-count and momentum cuts, and counts events and passes.

The things that change state in the source are classes here: `KalFitHack`, `KalFitResult`, `TrackAnalysisReco`, `FilterStepPointsByTime` and `HelixFilter`. Their methods are proved against pure specification functions:
- `MarkAll`, `ExtErrors` and `ApplyTable` for the doublet and error logic;
- `WeedRun` and `UnweedRun` for weeding;
- `BestRecoScan`, `UpstreamAsWritten`, `MuonScan` and `TriggerWord` for the analyzer;
- `Selected` and `FirstPassing` for the filters.

Lemmas then prove what those functions mean. Where the code departs from its evident intent (see "## Findings"), the classes follow the code as written, and a separate corrected definition carries the intended property.

**External computations.** The fit engine, the ambiguity resolvers, the T0 estimators, trajectory sampling, the local track slope, the tangent-line geometry and the physical-drift test are not modelled. They are the fields of a `Services` value of total functions, which every operation receives as a parameter. The resolver sees the hits, the last fit and T0 and answers with ambiguities. The refit sees the hits and T0 and answers with a fit. The track sample and the local slope are taken from the hits (and, for the sample, T0).

**Where the specification and the code disagree, the model follows the code:**
- Doublet building guarantees only that *consecutive* doublets differ in station or panel (`Separated`). It does not guarantee one doublet per (station, panel): the same panel reappearing after another panel opens a second doublet.
- Inside `fitIteration`, a failed refit ends the loop at once, before the iteration is counted. A refit that fails inside weeding ends the loop only through the loop condition, after the iteration has been counted.

Files:
- `base.dfy`: the `Option` and `Result` types and `Abs`.
- `kalfit_types.dfy`: hits, doublets, fits and services.
- `kalfit_config.dfy`: construction of the fit driver.
- `doublets.dfy`: doublet grouping.
- `doublet_resolver.dfy`: the doublet decision.
- `hit_updates.dfy`: per-hit updates and the flight-length order.
- `weeding.dfy`: weeding and unweeding.
- `kalfit.dfy`: the driver classes.
- `track_analysis.dfy`: the analyzer.
- `filter_step_points.dfy` and `helix_filter.dfy`: the two filters.

## Model

| member | source | states |
|---|---|---|
| KalFitConfig.StrategyOf | CalPatRec/src/KalFitHack.cc:154-172 | The resolver for a step. An unknown strategy id gets the fixed resolver. The hack resolver is chosen exactly for its own id and carries that step's hit error. |
| KalFitConfig.FitableThreshold | CalPatRec/src/KalFitHack.cc:1068-1070 | fitable is a threshold on the straw-hit count at minnstraws: more hits never make a fitable definition unfitable, exactly minnstraws is fitable and one fewer is not. |
| KalFitConfig.Configure | CalPatRec/src/KalFitHack.cc:78-173 | Construction. It fails, in this order: on an empty hit-error list, then on a strategy list of another length, then on a T0-tolerance list of another length (each error iff its condition). Otherwise the result is valid, has one resolver per step, and absent parameters take their defaults (weed on, max chi 4, 10 weeds, T0 update on, Dave mode 0, 15 straws, 10 iterations, remove-failed on). |
| KalFit.KalFitHack.constructor | CalPatRec/src/KalFitHack.cc:78-108 | The driver starts with doublet marking off (fMarkDoublets 0), no iterations counted (fNIter 0) and two distinct 40000-entry tables. |
| Doublets.FindDoublets | CalPatRec/src/KalFitHack.cc:218-282 | The doublets' member hits, concatenated, are exactly the input hits whose drift radius is not below HitMinDrift, in input order. Every doublet is non-empty, lies on one station and panel, has the wire direction of its first hit and one track sample per hit. Consecutive doublets differ in station or panel. |
| Doublets.SmallDriftHitsInNoDoublet | CalPatRec/src/KalFitHack.cc:259 | Every doublet member is an input hit, and none has a drift radius below the minimum. |
| DoubletResolver.FindLines | CalPatRec/src/KalFitHack.cc:721-742 | Each of the four tangents keeps its slope. A hit's ambiguity is +1 exactly when its side dot product is positive, and -1 otherwise. |
| DoubletResolver.SlopeSign | CalPatRec/src/KalFitHack.cc:464-466 | The track-slope sign lies in -1..1, is opposite in sign to the slope, and is zero only for a zero slope. |
| DoubletResolver.ScanMeaning | CalPatRec/src/KalFitHack.cc:472-485 | The candidate loop: nsol is the number of tangents strictly inside the 0.10 window. No candidate is picked iff none is inside the window, and then the distance stays 0.10. Otherwise the pick is inside the window, is at the minimal distance, and every earlier candidate is strictly farther (the first closest wins). When nsol is 1, the pick is the only candidate in the window. |
| DoubletResolver.PairDecision | CalPatRec/src/KalFitHack.cc:472-542 | One pair. Only its two straws change in either table, and nothing changes when no tangent is inside the window. The ambiguity table changes only under the commit rule: exactly one solution, both radii above the (halved after step 0) minimum, and opposite slope signs or a drift difference above deltaDriftDoublet. It then takes slope sign times the unique candidate's ambiguities, which are ±1 for a non-zero slope. |
| DoubletResolver.SentinelDiscipline | CalPatRec/src/KalFitHack.cc:614-626 | After the reset and marking, every table entry is the sentinel or a sign. A straw outside every two-hit doublet keeps the sentinel. An entry is above -10 exactly when it is not the sentinel. |
| KalFit.KalFitHack.ResetTables | CalPatRec/src/KalFitHack.cc:615-618 | Every entry of both tables becomes -9999. |
| KalFit.KalFitHack.MarkDoublet | CalPatRec/src/KalFitHack.cc:419-542 | The tables after one doublet equal `MarkOne` of the tables before (groups of other sizes are skipped). |
| KalFit.KalFitHack.MarkDoublets | CalPatRec/src/KalFitHack.cc:385-422 | The tables after the loop equal `MarkAll` of the tables before, with the doublets taken in order. |
| KalFit.KalFitHack.FindAndMarkMultiplets | CalPatRec/src/KalFitHack.cc:614-633 | Reset, group and mark. The tables equal `MarkAll(FreshTables(), dcol)`, and the doublets have every property `FindDoublets` promises. |
| HitUpdates.PermutedKeys | CalPatRec/src/KalFitHack.cc:1102 | Hit lists that are permutations of each other have permuted straw keys. |
| HitUpdates.SameStrawsKeys | CalPatRec/src/KalFitHack.cc:1004-1060 | Two hit lists are on the same straws, index by index, exactly when their key lists are equal. |
| HitUpdates.KeysAppend | CalPatRec/src/KalFitHack.cc:1099 | The keys of two hit lists joined are the keys of each, joined. |
| HitUpdates.ApplyTable | CalPatRec/src/KalFitHack.cc:647-665 | A hit whose table entry is above -10 takes that entry as its ambiguity and stops updating it. Every other hit is unchanged. |
| KalFit.KalFitHack.SetMultipletsAmbig | CalPatRec/src/KalFitHack.cc:637-666 | The hits become `ApplyTable` of the old hits. Fit, T0 and counters are unchanged. |
| HitUpdates.ExtErrors | CalPatRec/src/KalFitHack.cc:976-990 | On a marking step, a hit gets herr/scaleErrDoublet when its entry is not below -10, and herr otherwise. On other steps it gets herr. Nothing else about the hit changes. |
| HitUpdates.ScaledIffConsumed | CalPatRec/src/KalFitHack.cc:653-655 | On a marking step, a hit gets the reduced error exactly when setMultipletsAmbig fixes its ambiguity. |
| KalFit.KalFitHack.AssignExtErrors | CalPatRec/src/KalFitHack.cc:976-990 | The hits become `ExtErrors` of the old hits for this step, reading the table whenever the step is below iLoopMarkDoublets (`TableGateAsWritten`), as the code does. |
| KalFit.AsWrittenGateReadsUnmarkedTable | CalPatRec/src/KalFitHack.cc:981-985 | With marking off on step 0 and a table entry left at +1, the gate as written gives the hit herr/scale where the marking's own gate gives herr. |
| KalFit.IntendedGateIgnoresUnmarkedTable | CalPatRec/src/KalFitHack.cc:959-985 | Under the marking's gate, with marking off or past the marking steps every hit gets herr; a hit gets anything else only when doublets were marked on this step. |
| KalFit.ReducedIffResolved | CalPatRec/src/KalFitHack.cc:637-666 | On a sentinel-or-sign table, after setMultipletsAmbig and the error assignment of a marking step, a hit gets the reduced error iff its entry is not the sentinel, and then it carries that entry as its ambiguity with updates off. |
| KalFit.IntendedGateReducesExactlyResolved | CalPatRec/src/KalFitHack.cc:959-985 | When the table is read only on a marking step with marking on, the table is the fresh marking of this track's doublets: a straw in no pair keeps the sentinel, and the reduced error goes exactly to the hits a doublet of this track resolved, which carry the resolved ambiguity. |
| HitUpdates.ApplyResolved | CalPatRec/src/KalFitHack.cc:1004 | The resolver changes only the hits' ambiguities. Hits beyond its answer keep theirs. |
| KalFit.KalFitHack.ResolveTrk | CalPatRec/src/KalFitHack.cc:1004 | The step's resolver sets the ambiguities. Straws, activity and errors are kept. |
| Weeding.WorstScanMeaning | CalPatRec/src/KalFitHack.cc:1232-1247 | The worst hit is found iff some active hit has a residual pull above maxhitchi. It is then the first active hit with the largest pull, and every such hit's pull is at most its value. |
| KalFit.KalFitHack.FindWorst | CalPatRec/src/KalFitHack.cc:1232-1247 | The scan loop's pick equals `WorstScan`, so it has the properties `WorstScanMeaning` proves. |
| Weeding.Deactivate | CalPatRec/src/KalFitHack.cc:1250-1251 | A weeded hit is inactive with usability 5. |
| Weeding.ActiveCountUpdate | CalPatRec/src/KalFitHack.cc:1250 | Switching one hit changes the active count by exactly that hit. |
| Weeding.WeedRunMeaning | CalPatRec/src/KalFitHack.cc:1229-1261 | Weeding keeps the number of hits. Each hit is unchanged or was active and is now deactivated. Each recursion level removes exactly one active hit. The result is true iff a hit was weeded. The counter ends at most at max(start + 1, maxweed). If it ends below the cap with a successful fit, no active hit remains above maxhitchi. |
| KalFit.KalFitHack.WeedHits | CalPatRec/src/KalFitHack.cc:1229-1261 | The recursive method's hits, fit, counter and result equal `WeedRun`'s. T0 and the unweed counter are unchanged. |
| Weeding.BestScanMeaning | CalPatRec/src/KalFitHack.cc:1267-1283 | The best inactive hit is found iff some inactive hit has a pull below maxchi and a physical drift. It is then the first with the smallest pull, and the scan starts from 1e12. |
| KalFit.KalFitHack.FindBestInactive | CalPatRec/src/KalFitHack.cc:1267-1283 | The scan loop's pick equals `BestScan`, so it has the properties `BestScanMeaning` proves. |
| Weeding.Reactivate | CalPatRec/src/KalFitHack.cc:1286-1287 | A restored hit is active with usability 4. |
| Weeding.UnweedRunMeaning | CalPatRec/src/KalFitHack.cc:1264-1297 | The mirror of `WeedRunMeaning`: each level reactivates exactly one hit. |
| KalFit.KalFitHack.UnweedHits | CalPatRec/src/KalFitHack.cc:1264-1297 | The recursive method's hits, fit, counter and result equal `UnweedRun`'s. |
| KalFit.WeedRunKeeps | CalPatRec/src/KalFitHack.cc:1248-1258 | A whole weed run keeps the straws and external errors and reactivates nothing. |
| KalFit.KalFitHack.RemarkMultiplets | CalPatRec/src/KalFitHack.cc:1009-1012 | Re-marking changes only ambiguities and their update flags: the hits become `ApplyTable` of the old hits under the new table. Every table entry is the sentinel or a sign, and it is above -10 iff it is not the sentinel. |
| KalFit.KalFitHack.Step | CalPatRec/src/KalFitHack.cc:1004-1016 | Resolve, then re-mark on a marking step. Straws, activity and errors are kept, and fit and T0 are unchanged. |
| KalFit.KalFitHack.Iterate | CalPatRec/src/KalFitHack.cc:1003-1037 | One pass of the inner loop. On a failed refit it reports the failure with nothing changed. Straws and errors are kept, and no hit is reactivated. |
| KalFit.StepErrorsKept | CalPatRec/src/KalFitHack.cc:976-1060 | After the updates that follow the error assignment, every hit still has this step's external error. |
| KalFit.KalFitHack.FitIteration | CalPatRec/src/KalFitHack.cc:942-1064 | fAnnealingStep becomes iherr, and fNIter grows by the iterations run, which never exceed MaxIterations. A successful fit that stopped below the cap stopped because nothing changed. The hits keep their straws and order, none is reactivated, and each carries herr (or herr/scaleErrDoublet on a marking step). |
| KalFit.KalFitHack.PrepareStep | CalPatRec/src/KalFitHack.cc:958-990 | fAnnealingStep becomes iherr. Doublets are re-marked only on a marking step. Afterwards every hit keeps its straw, none is reactivated, and each has this step's error (or the reduced error, on a marking step). |
| KalFit.KalFitHack.Anneal | CalPatRec/src/KalFitHack.cc:993-1060 | fNIter grows by exactly the iterations run, which never exceed MaxIterations. A successful fit that stopped below the cap stopped because nothing changed. The hits keep their straws and errors, and none is reactivated. |
| KalFit.KalFitHack.FitTrack | CalPatRec/src/KalFitHack.cc:910-937 | The steps run in order and stop at the first failed fit. A successful fit means every step ran. Straws are kept and nothing is reactivated. |
| KalFit.NewHit | CalPatRec/src/KalFitHack.cc:1090-1098 | A new hit carries its straw, gets the first step's error, and is inactive when its POCA update failed. |
| KalFit.KalFitHack.MakeHits | CalPatRec/src/KalFitHack.cc:1073-1103 | The new hits, one per straw-hit index, are appended to the hits the result already holds, and the whole list is sorted by fltlencomp: the result is sorted and a permutation of the old hits plus the new ones. |
| HitUpdates.FltLenLess | CalPatRec/src/KalFitHack.cc:62-68 | fltlencomp orders by increasing flight length downstream and by decreasing flight length upstream. |
| HitUpdates.FltLenStrictWeakOrder | CalPatRec/src/KalFitHack.cc:62-68 | fltlencomp is irreflexive, asymmetric and transitive, and its incomparability is transitive: the strict weak order std::sort requires. |
| HitUpdates.SortedMeansNoInversion | CalPatRec/src/KalFitHack.cc:1102 | Sorted by flight length means that no hit is fltlencomp-less than an earlier hit. |
| HitUpdates.InsertByFlt | CalPatRec/src/KalFitHack.cc:1102 | One insertion step of the sort. A sorted list with one hit inserted is sorted and holds the old hits plus that one. |
| HitUpdates.SortByFlt | CalPatRec/src/KalFitHack.cc:1102 | The result is sorted and is a permutation of the input. |
| KalFit.KalFitHack.MakeTrack | CalPatRec/src/KalFitHack.cc:746-816 | The fit starts failed. A definition with fewer than minnstraws hits stays failed with its hits untouched. Otherwise one hit per index is appended to the hits already held, and after the fit the straw keys are a permutation of the old hits' keys plus the new hits' keys, the marking switch is the caller's, and the hits are still sorted after the fit. On the unfitable path T0 and the marking switch are unchanged too. |
| KalFit.FindBoundingHits | CalPatRec/src/KalFitHack.cc:1575-1582 | `low` is the last hit not beyond flt0, or -1 for rend(). `high` is the first hit not before flt0, or the end. |
| KalFit.BoundingHitsBracket | CalPatRec/src/KalFitHack.cc:1575-1582 | On downstream-sorted hits the bounds bracket flt0. They are adjacent exactly when no hit sits at flt0, and otherwise `high <= low`. |
| TrackAnalysis.BestRecoMeaning | TrkDiag/src/TrackAnalysisReco_module.cc:425-439 | The best track is the first with the strictly greatest momentum. There is none iff every momentum is at most -9999. |
| TrackAnalysis.TrackAnalysisReco.FindBestRecoTrack | TrkDiag/src/TrackAnalysisReco_module.cc:425-439 | The loop's pick equals `BestRecoScan`, and nde is the collection size. |
| TrackAnalysis.UpstreamAsWrittenIsLast | TrkDiag/src/TrackAnalysisReco_module.cc:441-460 | As written, the pick is the last in-window track whose momentum difference is below \|p_de\|, the downstream momentum's size. It is none iff no in-window track passes that test. |
| TrackAnalysis.UpstreamAsWrittenPicksFarther | TrkDiag/src/TrackAnalysisReco_module.cc:441-460 | A two-track input where the code as written picks the track farther in momentum. |
| TrackAnalysis.UpstreamClosestMeaning | TrkDiag/src/TrackAnalysisReco_module.cc:441-460 | Corrected pick: an in-window track that beats a running best starting at 0, with no in-window track strictly closer in momentum, the first such on ties. |
| TrackAnalysis.TrackAnalysisReco.FindUpstreamTrack | TrkDiag/src/TrackAnalysisReco_module.cc:441-460 | The loop's pick equals `UpstreamAsWritten`, the code as written with `closest_momentum` left at 0, and nue is the collection size. |
| TrackAnalysis.MuonMeaning | TrkDiag/src/TrackAnalysisReco_module.cc:462-476 | maxnover is the largest overlap, or 0. No track is picked iff every overlap is 0. Otherwise the pick is the first with the maximal, positive overlap. |
| TrackAnalysis.TrackAnalysisReco.FindMuonTrack | TrkDiag/src/TrackAnalysisReco_module.cc:462-476 | The loop's pick equals `MuonScan`, ndm is the collection size, and ndmo is the maximal overlap. |
| TrackAnalysis.TriggerWordBits | TrkDiag/src/TrackAnalysisReco_module.cc:508-513 | Bit id of the word is set iff path id exists and accepted the event. |
| TrackAnalysis.TrackAnalysisReco.FillTriggerBits | TrkDiag/src/TrackAnalysisReco_module.cc:503-513 | The word is cleared and then equals `TriggerWord` of the accept flags. |
| TrackAnalysis.WeightsInOrder | TrkDiag/src/TrackAnalysisReco_module.cc:487-500 | The weight list holds every handle's weight, in handle order. |
| TrackAnalysis.LastPbi | TrkDiag/src/TrackAnalysisReco_module.cc:488-497 | The handle that sets the proton count is the last one made by the PBI-weight module, or none if no handle comes from it. |
| TrackAnalysis.TrackAnalysisReco.FillEventInfo | TrkDiag/src/TrackAnalysisReco_module.cc:478-501 | The event ids are copied and the weights collected in order. The proton count is meanPBI times the last PBI weight when meanPBI > 0, 1 otherwise, and unchanged with no PBI handle. |
| TrackAnalysis.TrackAnalysisReco.BeginSubRun | TrkDiag/src/TrackAnalysisReco_module.cc:243-251 | meanPBI takes the intensity when the product is present and is otherwise kept. |
| TrackAnalysis.TrackAnalysisReco.ResetBranches | TrkDiag/src/TrackAnalysisReco_module.cc:523-543 | Counts, event info and weights are cleared. |
| TrackAnalysis.DefaultAnalysisConfig | TrkDiag/src/TrackAnalysisReco_module.cc:100-108 | Reflection window 20 to 200 ns; empty events and trigger bits off. |
| TrackAnalysis.TrackAnalysisReco.Analyze | TrkDiag/src/TrackAnalysisReco_module.cc:309-422 | The best track is the first of greatest momentum. The upstream pick (as written, `UpstreamAsWritten`) and the muon pick are made, and ndec set, only when it exists. A row is filled iff it exists or empty events are processed, and then it carries the event's weights and ids. The trigger word is filled iff requested. |
| StepPointFilter.CutsOf | Filters/src/FilterStepPointsByTime_module.cc:50-52 | The defaults: cutTimeMin = DBL_MIN (2^-1022), cutTimeMax = DBL_MAX, uncertainty 0. |
| StepPointFilter.SelectedMeaning | Filters/src/FilterStepPointsByTime_module.cc:72-77 | Every copied point is in the open window (cutTimeMin - \|unc\|, cutTimeMax). Each in-window point is copied as often as it occurs, and no out-of-window point is copied. |
| StepPointFilter.SelectedEmpty | Filters/src/FilterStepPointsByTime_module.cc:68-76 | Nothing is copied iff no point lies in the window. |
| StepPointFilter.DefaultCutsRejectNonPositive | Filters/src/FilterStepPointsByTime_module.cc:50-52 | With default cuts no step point at time 0 or earlier passes. |
| StepPointFilter.TotalsBounded | Filters/src/FilterStepPointsByTime_module.cc:81-82 | Over any run of events, no more points are written than read. |
| StepPointFilter.FilterStepPointsByTime.constructor | Filters/src/FilterStepPointsByTime_module.cc:46-56 | The cuts come from the parameters with their defaults, and both counters start at 0. |
| StepPointFilter.FilterStepPointsByTime.Filter | Filters/src/FilterStepPointsByTime_module.cc:67-89 | The output equals `Selected` in input order. The event passes iff the output is non-empty. The counters grow by the input and output sizes, so output ≤ input is kept. |
| HelixEventFilter.SelectionOf | TrkFilters/src/HelixFilter_module.cc:43-48 | The defaults: calo cluster not required, 11 hits, momentum window (280, 380), flag HelixOK. |
| HelixEventFilter.FirstPassingMeaning | TrkFilters/src/HelixFilter_module.cc:60-73 | A seed is found iff one passes, and it is the earliest passing seed. |
| HelixEventFilter.CountsBounded | TrkFilters/src/HelixFilter_module.cc:54-71 | Every event is counted exactly once, and passes never exceed events. |
| HelixEventFilter.HelixFilter.constructor | TrkFilters/src/HelixFilter_module.cc:42-51 | The selection comes from the parameters with their defaults, and both counters start at 0. |
| HelixEventFilter.HelixFilter.Filter | TrkFilters/src/HelixFilter_module.cc:53-75 | The result is true iff some seed has every required status flag, a cluster if required, at least MinNHits hits and a momentum strictly inside the window. nevt grows by 1 and npass by 1 exactly when the result is true, so npass ≤ nevt is kept. |

## Left out

**Geometry and numerics**
- Tangent-line numerics of `findLines` (cos/sin and slopes): these are floating-point geometry. The slopes and side dot products are inputs (`Services.lines`); only the sign rule is modelled.
- DOCA/POCA computations, panel rotations and the track helix: these are geometry. The local track slope and the track samples come from `Services.localSlope` and `Services.sample`.
- The second loop of `findDoublets` (CalPatRec/src/KalFitHack.cc:286-379): it only computes debug values and changes nothing.
- DoubletResolver.SlopeSign: for a zero average slope the source computes int(0/0), which is undefined; the model uses 0.
- StepPointFilter.FilterStepPointsByTime.Filter: the uncertainty's absolute value is taken as a real. The source calls unqualified `abs` on a double (Filters/src/FilterStepPointsByTime_module.cc:72) without including `<cmath>`. If that call resolved to the integer `abs`, the uncertainty would be truncated (0.5 gives 0), which the model does not capture.
- HelixEventFilter.HelixFilter.Filter: `hmom` is sqrt(r² + λ²) in single precision. It is an input field of the seed.

**External engines**
- The Kalman refit, the ambiguity resolvers' internals, and `initT0`, `initCaloT0`, `updateCalT0`, `updateT0` and `updateHitTimes`: these are numerical engines. They are oracles in `Services` (refit, resolve, updateT0).
- `addHits`, `makeMaterials`, `removeFailed`, `printHits`, `bField`, `trkVolume`, the history records and the intersection count: these are not part of this model.
- KalFit.KalFitHack.MakeTrack: T0 is a parameter, because the choice between `initT0`/`initCaloT0`/the definition's T0 is in the estimators left out.
- KalFit.KalFitHack.MakeTrack: `updateHitTimes` for calorimeter seeds is left out.
- KalFit.KalFitHack.MakeHits: the per-hit T0 shift by flight time is left out.
- KalFit.KalFitHack.MakeTrack: requires every straw index of the hits already held to fit the 40000-entry tables, as it requires of the new ones; the source indexes the tables with them unchecked.
- KalFitConfig.Configure: the KalContext tolerances and the field-integration settings (lines 111-148) are not read by the modelled code.
- KalFitConfig.Configure: the strategy ids are assumed to be 0 fixed, 1 poca, 2 hit, 3 panel, 4 hack. The enum is declared in a header that is not part of this model.
- KalFitConfig.Configure: both length checks throw with the same message in the source. The model gives them separate error values.

**Preconditions and ordering**
- KalFit.KalFitHack.constructor: requires a configuration `Configure` accepted and a non-zero scaleErrDoublet. A zero value would divide by zero in the error assignment.
- HitUpdates.SortByFlt: `std::sort` is not stable. The model uses a stable insertion sort and promises only "sorted and a permutation", which every `std::sort` outcome also satisfies.
- KalFit.KalFitHack.ResolveTrk: the resolver (`Services.resolve`) receives the hits, the last fit and T0 but returns only new ambiguities. In the source it works on the whole fit result, so the claims that activity and errors are kept rest on resolvers touching only ambiguities.
- KalFit.KalFitHack.Step: its "none reactivated" and "errors kept" claims rest on the same resolver assumption.
- KalFit.KalFitHack.Iterate: the refit (`Services.refit`) returns a fit and never changes the hits. In the source a hit whose ambigUpdate flag is set may update its own ambiguity during the fit (CalPatRec/src/KalFitHack.cc:866-867); the flag is carried in the model but not read.
- KalFit.KalFitHack.FitIteration: its claims about kept straws, activity and errors rest on the resolver and refit assumptions above.
- KalFit.KalFitHack.Anneal: its claims rest on the same resolver and refit assumptions.
- KalFit.KalFitHack.FitTrack: its claims rest on the same resolver and refit assumptions.
- KalFit.KalFitHack.FindAndMarkMultiplets: the track sample and local slope come from `Services.sample` and `Services.localSlope` applied to the hits and T0, not from the Kalman trajectory state. The local slope does not depend on T0.
- KalFit.KalFitHack.FitTrack: stating only "succeeded ⟹ every step ran" and the straw facts, not the exact hit contents, because those depend on the oracles.

**Integer widths and undefined values**
- Unsigned 32-bit counters (`fNIter`, `numInputHits_`, `numOutputHits_`, `_nevt`, `_npass`, weed counters) are unbounded `nat`. Wrap-around after 2^32 events is not modelled.
- TrackAnalysis.TrackAnalysisReco.FillTriggerBits: `1 << id` for id ≥ 32 is undefined in the source. The model ignores paths 32 and above.
- TrackAnalysis.TrackAnalysisReco.BeginSubRun: `_meanPBI` is never initialised in the source, and the model leaves it unconstrained until the first sub-run with the product. The proton count is modelled as a real.
- TrackAnalysis.TrackAnalysisReco.ResetBranches: the `reset()` members of the branch structs are in headers not part of this model. Reset is taken to mean zero counts and ids and an empty weight list.

**Parts of the analyzer not modelled**
- Everything in `analyze` that copies track, MC, calorimeter, CRV, helix or hit information into branches. These are reads through helpers not part of this model.
- Configuration parsing from fhicl, and the exceptions for missing required keys.

## Findings

| source | as written | input that shows it | evidently intended | confidence | as-written member | corrected member |
|---|---|---|---|---|---|---|
| TrkDiag/src/TrackAnalysisReco_module.cc:446-456 | `closest_momentum` stays 0, so the test is \|p − p_de\| < \|p_de\|. The last in-window track passing it is returned, not the closest. | downstream p=100, t0=500; upstream tracks (p=100, t0=400) and (p=90, t0=400); window 20-200 ns: returns the second (p=90) | keep the in-window track closest in momentum (the loop's comment), updating `closest_momentum` on each pick | not executed | TrackAnalysis.UpstreamAsWrittenPicksFarther | TrackAnalysis.UpstreamClosestMeaning |
| CalPatRec/src/KalFitHack.cc:981-985 | On every step below fILoopMarkDoublets the error assignment reads fAmbigVec, even when fMarkDoublets is 0 (its constructor value, line 98). Then nothing has reset the table on this track (lines 614-618), so entries left by an earlier track, or never initialised, decide the reduced error. | fMarkDoublets 0, fILoopMarkDoublets 1, step 0; a hit on straw 0 whose entry is +1 from an earlier track; herr 1, scale 2: the hit gets error 0.5 | read the table only under the marking's own gate, `iherr < fILoopMarkDoublets && fMarkDoublets == 1` (lines 959, 1009, 1050); then the reduced error goes exactly to the hits this track's doublets resolved (`KalFit.IntendedGateReducesExactlyResolved`) | not executed | KalFit.AsWrittenGateReadsUnmarkedTable | KalFit.IntendedGateIgnoresUnmarkedTable |
