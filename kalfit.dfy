/**
 * The Kalman-fit driver KalFitHack: the fit result it works on, the two
 * scratch ambiguity tables it owns, doublet marking, the annealing loop over
 * external hit errors and its inner fit iteration, and hit weeding.
 */
module KalFit {
  import opened Base
  import opened KalFitTypes
  import opened KalFitConfig
  import opened Doublets
  import opened DoubletResolver
  import opened Weeding
  import opened HitUpdates

  /** The track sampled from the current fit, as findDoublets sees it. */
  function TrackAt(svc: Services, hs: seq<TrkHit>, t0: real): TrkHit -> TrackSample
  {
    h => svc.sample(hs, t0, h)
  }

  /** Doublets built from in-table hits can be marked. */
  lemma DoubletsMarkable(hits: seq<TrkHit>, m: real, trackAt: TrkHit -> TrackSample, dcol: seq<Doublet>)
    requires IdsInTable(hits)
    requires AllHits(dcol) == RetainedHits(hits, m)
    requires forall k :: 0 <= k < |dcol| ==> WellFormed(dcol[k], trackAt)
    ensures forall k :: 0 <= k < |dcol| ==> Markable(dcol[k])
  {
    forall k | 0 <= k < |dcol| ensures Markable(dcol[k]) {
      forall j | 0 <= j < |dcol[k].hits| ensures dcol[k].hits[j].shId < TableSize {
        SmallDriftHitsInNoDoublet(hits, m, dcol, k, j);
      }
    }
  }

  /** What makeHits starts from per straw-hit index: the hit and whether its POCA update succeeded. */
  datatype HitSeed = HitSeed(hit: TrkHit, pocaOk: bool)

  /** A hit as makeHits creates it. */
  function NewHit(s: HitSeed, herr0: real): (h: TrkHit)
    ensures KeyOf(h) == KeyOf(s.hit) && h.extErr == herr0
    ensures !s.pocaOk ==> !h.active
  {
    s.hit.(extErr := herr0, active := s.pocaOk)
  }

  function NewHits(seeds: seq<HitSeed>, herr0: real): (hs: seq<TrkHit>)
    ensures |hs| == |seeds|
  {
    if seeds == [] then [] else NewHits(seeds[..|seeds| - 1], herr0) + [NewHit(seeds[|seeds| - 1], herr0)]
  }

  /** Sorting the prior hits together with the created ones keeps every straw index in the tables. */
  lemma NewHitsInTable(prior: seq<TrkHit>, seeds: seq<HitSeed>, herr0: real, hs: seq<TrkHit>)
    requires IdsInTable(prior) && forall i :: 0 <= i < |seeds| ==> seeds[i].hit.shId < TableSize
    requires multiset(hs) == multiset(prior) + multiset(NewHits(seeds, herr0))
    ensures IdsInTable(hs) && |hs| == |prior| + |seeds|
  {
    NewHitsIds(seeds, herr0);
    forall i | 0 <= i < |hs| ensures hs[i].shId < TableSize {
      assert hs[i] in multiset(hs);
      if hs[i] in multiset(prior) {
        var j :| 0 <= j < |prior| && prior[j] == hs[i];
      }
    }
    assert |hs| == |multiset(hs)|;
  }

  lemma {:induction false} NewHitsIds(seeds: seq<HitSeed>, herr0: real)
    requires forall i :: 0 <= i < |seeds| ==> seeds[i].hit.shId < TableSize
    ensures forall h :: h in NewHits(seeds, herr0) ==> h.shId < TableSize
  {
    if seeds != [] {
      NewHitsIds(seeds[..|seeds| - 1], herr0);
    }
  }

  /** The state of one track fit: its hits, the last fit outcome, T0 and the weeding counters. */
  class KalFitResult {
    var hits: seq<TrkHit>
    var fit: Fit
    var t0: real
    var nweediter: nat
    var nunweediter: nat

    constructor(hits: seq<TrkHit>, t0: real)
      ensures this.hits == hits && this.t0 == t0
      ensures !fit.success && nweediter == 0 && nunweediter == 0
    {
      this.hits := hits;
      this.t0 := t0;
      this.fit := Fit(false, []);
      this.nweediter := 0;
      this.nunweediter := 0;
    }
  }

  class KalFitHack {
    const cfg: Config
    const svc: Services
    /** fAmbigVec: the committed ambiguity per straw index. */
    const ambigVec: array<int>
    /** fAmbigVecSlope: the slope-based sign per straw index. */
    const ambigVecSlope: array<int>
    /** fMarkDoublets: doublet marking is on when this is 1. */
    var markDoublets: int
    /** fAnnealingStep: index of the current external-error step. */
    var annealingStep: int
    /** fNIter: inner fit iterations summed over all steps. */
    var nIter: nat

    ghost predicate Valid()
      reads this
    {
      && cfg.Valid() && cfg.scaleErrDoublet != 0.0
      && ambigVec.Length == TableSize && ambigVecSlope.Length == TableSize
      && ambigVec != ambigVecSlope
    }

    /** The two tables as values. */
    function TablesNow(): Tables
      reads this, ambigVec, ambigVecSlope
    {
      Tables(ambigVec[..], ambigVecSlope[..])
    }

    /** The decision cuts of the current annealing step. */
    function CutsNow(): Cuts
      reads this
    {
      Cuts(cfg.minDriftDoublet, cfg.deltaDriftDoublet, annealingStep)
    }

    /** Built from a configuration Configure accepted; the tables start uninitialised. */
    constructor(cfg: Config, svc: Services)
      requires cfg.Valid() && cfg.scaleErrDoublet != 0.0
      ensures Valid() && fresh(ambigVec) && fresh(ambigVecSlope)
      ensures this.cfg == cfg && this.svc == svc
      ensures markDoublets == 0 && nIter == 0
    {
      this.cfg := cfg;
      this.svc := svc;
      ambigVec := new int[TableSize];
      ambigVecSlope := new int[TableSize];
      markDoublets := 0;
      annealingStep := 0;
      nIter := 0;
    }

    /** The reset at the top of findAndMarkMultiplets: every entry of both tables becomes the sentinel. */
    method ResetTables()
      requires Valid()
      modifies ambigVec, ambigVecSlope
      ensures TablesNow() == FreshTables()
    {
      for i := 0 to TableSize
        invariant forall k :: 0 <= k < i ==> ambigVec[k] == Sentinel && ambigVecSlope[k] == Sentinel
      {
        ambigVec[i] := Sentinel;
        ambigVecSlope[i] := Sentinel;
      }
      assert ambigVec[..] == FreshTables().amb;
      assert ambigVecSlope[..] == FreshTables().slope;
    }

    /** The body of markDoublets' loop for one doublet. */
    method MarkDoublet(d: Doublet)
      requires Valid() && Markable(d)
      modifies ambigVec, ambigVecSlope
      ensures TablesNow() == MarkOne(old(TablesNow()), d, svc, CutsNow())
    {
      if |d.hits| < 2 {
        return;
      }
      if |d.hits| == 2 {
        var h1, h2 := d.hits[0], d.hits[1];
        var id1, id2 := h1.shId, h2.shId;
        var rdrift1, rdrift2 := h1.rdrift, h2.rdrift;
        var trkslope1 := svc.localSlope(h1, d.trkDirs[0]);
        var trkslope2 := svc.localSlope(h1, d.trkDirs[1]);
        var trkslope := (trkslope1 + trkslope2) / 2.0;
        var trkSlopeSign := SlopeSign(trkslope);
        var lines := FindLines(svc.lines(h1, h2));
        ghost var p := PairOf(d, svc);
        assert p == Pair(id1, id2, rdrift1, rdrift2, trkslope, lines);

        var nsol: nat := 0;
        var slopeDist := MaxSlopeDist;
        ghost var best: Option<nat> := None;
        ghost var slope0 := ambigVecSlope[..];
        for i := 0 to 4
          invariant ScanState(nsol, best, slopeDist) == Scan(trkslope, lines, i)
          invariant ambigVecSlope[..] == SlopeAfter(slope0, id1, id2, trkslope, lines, i)
          invariant ambigVec[..] == old(ambigVec[..])
        {
          var dsl := Abs(trkslope - lines.At(i).slope);
          if dsl < MaxSlopeDist {
            if dsl < slopeDist {
              ambigVecSlope[id1] := trkSlopeSign * lines.At(i).ambA;
              ambigVecSlope[id2] := trkSlopeSign * lines.At(i).ambB;
              slopeDist := dsl;
              best := Some(i);
            }
            nsol := nsol + 1;
          }
        }

        var minDriftRadius := cfg.minDriftDoublet;
        if annealingStep > 0 {
          minDriftRadius := cfg.minDriftDoublet / 2.0;
        }
        if nsol == 1 {
          if rdrift2 > minDriftRadius && rdrift1 > minDriftRadius {
            if ambigVecSlope[id1] + ambigVecSlope[id2] == 0 {
              ambigVec[id1] := ambigVecSlope[id1];
              ambigVec[id2] := ambigVecSlope[id2];
            } else if Abs(rdrift1 - rdrift2) > cfg.deltaDriftDoublet {
              ambigVec[id1] := ambigVecSlope[id1];
              ambigVec[id2] := ambigVecSlope[id2];
            }
          }
        }
      }
    }

    /** markDoublets: the doublets are processed in order. */
    method MarkDoublets(dcol: seq<Doublet>)
      requires Valid() && forall k :: 0 <= k < |dcol| ==> Markable(dcol[k])
      modifies ambigVec, ambigVecSlope
      ensures TablesNow() == MarkAll(old(TablesNow()), dcol, svc, CutsNow())
    {
      for i := 0 to |dcol|
        invariant TablesNow() == MarkAll(old(TablesNow()), dcol[..i], svc, CutsNow())
      {
        assert dcol[..i + 1][..i] == dcol[..i];
        MarkDoublet(dcol[i]);
      }
      assert dcol[..|dcol|] == dcol;
    }

    /**
     * findAndMarkMultiplets: reset both tables, group the hits into doublets
     * along the current fit, and mark them. The doublet collection, local in
     * the source, is returned so that the contract can name it.
     */
    method FindAndMarkMultiplets(hits: seq<TrkHit>, t0: real) returns (dcol: seq<Doublet>)
      requires Valid() && IdsInTable(hits)
      modifies ambigVec, ambigVecSlope
      ensures AllHits(dcol) == RetainedHits(hits, cfg.minHitDrift)
      ensures forall k :: 0 <= k < |dcol| ==> WellFormed(dcol[k], TrackAt(svc, hits, t0))
      ensures Separated(dcol)
      ensures forall k :: 0 <= k < |dcol| ==> Markable(dcol[k])
      ensures TablesNow() == MarkAll(FreshTables(), dcol, svc, CutsNow())
    {
      ResetTables();
      dcol := FindDoublets(hits, cfg.minHitDrift, TrackAt(svc, hits, t0));
      DoubletsMarkable(hits, cfg.minHitDrift, TrackAt(svc, hits, t0), dcol);
      if |dcol| > 0 {
        MarkDoublets(dcol);
      }
    }

    /** setMultipletsAmbig: hits whose entry is above -10 take it as their fixed ambiguity. */
    method SetMultipletsAmbig(kres: KalFitResult)
      requires Valid() && IdsInTable(kres.hits)
      modifies kres
      ensures kres.hits == ApplyTable(old(kres.hits), ambigVec[..])
      ensures kres.fit == old(kres.fit) && kres.t0 == old(kres.t0)
      ensures kres.nweediter == old(kres.nweediter) && kres.nunweediter == old(kres.nunweediter)
    {
      var hs := kres.hits;
      ghost var table := ambigVec[..];
      var out: seq<TrkHit> := [];
      for i := 0 to |hs|
        invariant out == ApplyTable(hs[..i], table)
      {
        assert hs[..i + 1][..i] == hs[..i];
        var hit := hs[i];
        var shId := hit.shId;
        if ambigVec[shId] > ResolvedAbove {
          out := out + [hit.(ambig := ambigVec[shId], ambigUpdate := false)];
        } else {
          out := out + [hit];
        }
      }
      assert hs[..|hs|] == hs;
      kres.hits := out;
    }

    /** The external-error assignment at the top of fitIteration for step iherr. */
    method AssignExtErrors(kres: KalFitResult, iherr: nat)
      requires Valid() && IdsInTable(kres.hits) && iherr < |cfg.herr|
      modifies kres
      ensures kres.hits == ExtErrors(old(kres.hits), ambigVec[..], cfg.herr[iherr], cfg.scaleErrDoublet,
                                     TableGateAsWritten(iherr, cfg.iLoopMarkDoublets, markDoublets))
      ensures kres.fit == old(kres.fit) && kres.t0 == old(kres.t0)
      ensures kres.nweediter == old(kres.nweediter) && kres.nunweediter == old(kres.nunweediter)
    {
      var hs := kres.hits;
      ghost var table := ambigVec[..];
      ghost var useTable := TableGateAsWritten(iherr, cfg.iLoopMarkDoublets, markDoublets);
      var out: seq<TrkHit> := [];
      for i := 0 to |hs|
        invariant out == ExtErrors(hs[..i], table, cfg.herr[iherr], cfg.scaleErrDoublet, useTable)
      {
        assert hs[..i + 1][..i] == hs[..i];
        var hit := hs[i];
        var shId := hit.shId;
        var err: real;
        if iherr < cfg.iLoopMarkDoublets {
          if ambigVec[shId] < ResolvedAbove {
            err := cfg.herr[iherr];
          } else {
            err := cfg.herr[iherr] / cfg.scaleErrDoublet;
          }
        } else {
          err := cfg.herr[iherr];
        }
        out := out + [hit.(extErr := err)];
      }
      assert hs[..|hs|] == hs;
      kres.hits := out;
    }

    /** weedHits' scan: the active hit with the largest pull above maxhitchi, the first on ties. */
    method FindWorst(hs: seq<TrkHit>, f: Fit) returns (worstHot: Option<nat>)
      ensures worstHot == WorstScan(hs, f, cfg.maxHitChi, |hs|).index
    {
      var worst := -1.0;
      worstHot := None;
      for i := 0 to |hs|
        invariant Pick(worstHot, worst) == WorstScan(hs, f, cfg.maxHitChi, i)
      {
        if hs[i].active {
          var chi := ChiAt(f, i);
          if chi.Some? {
            var value := Abs(chi.value);
            if value > cfg.maxHitChi && value > worst {
              worst := value;
              worstHot := Some(i);
            }
          }
        }
      }
    }

    /** unweedHits' scan: the inactive, physical hit with the smallest pull below maxChi, the first on ties. */
    method FindBestInactive(hs: seq<TrkHit>, f: Fit, maxChi: real) returns (bestHot: Option<nat>)
      ensures bestHot == BestScan(hs, f, maxChi, svc.physicalDrift, |hs|).index
    {
      var best := UnweedStart;
      bestHot := None;
      for i := 0 to |hs|
        invariant Pick(bestHot, best) == BestScan(hs, f, maxChi, svc.physicalDrift, i)
      {
        if !hs[i].active {
          var chi := ChiAt(f, i);
          if chi.Some? {
            var chival := Abs(chi.value);
            if chival < maxChi && svc.physicalDrift(hs[i], maxChi) && chival < best {
              best := chival;
              bestHot := Some(i);
            }
          }
        }
      }
    }

    /** weedHits: the recursion is the source's; the counter lives in the fit result. */
    method WeedHits(kres: KalFitResult) returns (retval: bool)
      requires Valid()
      modifies kres
      ensures var r := WeedRun(old(kres.hits), old(kres.fit), old(kres.t0), old(kres.nweediter),
                               cfg.maxWeed, cfg.maxHitChi, svc.refit);
        kres.hits == r.hits && kres.fit == r.fit && kres.nweediter == r.iter && retval == r.changed
      ensures kres.t0 == old(kres.t0) && kres.nunweediter == old(kres.nunweediter)
      decreases cfg.maxWeed - kres.nweediter
    {
      var hs, f := kres.hits, kres.fit;
      retval := false;
      var worstHot := FindWorst(hs, f);
      if worstHot.Some? {
        retval := true;
        var k := worstHot.value;
        kres.hits := hs[k := Deactivate(hs[k])];
        kres.fit := svc.refit(kres.hits, kres.t0);
        kres.nweediter := kres.nweediter + 1;
        if kres.fit.success && kres.nweediter < cfg.maxWeed {
          var more := WeedHits(kres);
          retval := retval || more;
        }
      }
    }

    /** unweedHits: the mirror image, restoring inactive hits below maxChi. */
    method UnweedHits(kres: KalFitResult, maxChi: real) returns (retval: bool)
      requires Valid()
      modifies kres
      ensures var r := UnweedRun(old(kres.hits), old(kres.fit), old(kres.t0), old(kres.nunweediter),
                                 cfg.maxWeed, maxChi, svc.refit, svc.physicalDrift);
        kres.hits == r.hits && kres.fit == r.fit && kres.nunweediter == r.iter && retval == r.changed
      ensures kres.t0 == old(kres.t0) && kres.nweediter == old(kres.nweediter)
      decreases cfg.maxWeed - kres.nunweediter
    {
      var hs, f := kres.hits, kres.fit;
      retval := false;
      var bestHot := FindBestInactive(hs, f, maxChi);
      if bestHot.Some? {
        retval := true;
        var k := bestHot.value;
        kres.hits := hs[k := Reactivate(hs[k])];
        kres.fit := svc.refit(kres.hits, kres.t0);
        kres.nunweediter := kres.nunweediter + 1;
        if kres.fit.success && kres.nunweediter < cfg.maxWeed {
          var more := UnweedHits(kres, maxChi);
          retval := retval || more;
        }
      }
    }

    /** The step's resolver sets the hits' ambiguities. */
    method ResolveTrk(kres: KalFitResult, iherr: nat)
      requires Valid() && iherr < |cfg.herr|
      modifies kres
      ensures kres.hits == ApplyResolved(old(kres.hits), svc.resolve(cfg.resolvers[iherr], old(kres.hits), old(kres.fit), old(kres.t0)))
      ensures kres.fit == old(kres.fit) && kres.t0 == old(kres.t0)
      ensures kres.nweediter == old(kres.nweediter) && kres.nunweediter == old(kres.nunweediter)
      ensures Keeps(old(kres.hits), kres.hits)
    {
      kres.hits := ApplyResolved(kres.hits, svc.resolve(cfg.resolvers[iherr], kres.hits, kres.fit, kres.t0));
    }

    /**
     * Re-search doublets along the current fit and fix the ambiguities of the
     * hits they resolve: only ambiguities and their update flags change.
     */
    method RemarkMultiplets(kres: KalFitResult)
      requires Valid() && IdsInTable(kres.hits)
      modifies ambigVec, ambigVecSlope, kres
      ensures kres.hits == ApplyTable(old(kres.hits), ambigVec[..])
      ensures kres.fit == old(kres.fit) && kres.t0 == old(kres.t0)
      ensures kres.nweediter == old(kres.nweediter) && kres.nunweediter == old(kres.nunweediter)
      ensures Keeps(old(kres.hits), kres.hits)
      ensures SentinelOrSign(ambigVec[..])
      ensures forall k :: 0 <= k < TableSize ==> (ambigVec[k] > ResolvedAbove <==> ambigVec[k] != Sentinel)
    {
      var dcol := FindAndMarkMultiplets(kres.hits, kres.t0);
      SentinelDiscipline(dcol, svc, CutsNow());
      SetMultipletsAmbig(kres);
    }

    /**
     * fitIteration for step iherr: mark doublets when this is a marking step,
     * assign the step's external errors, then iterate resolve / refit / T0
     * update / weed while the fit succeeds, something changed and the
     * iteration cap is not reached; a failed refit ends the loop before the
     * iteration is counted. The hits keep their straws and order, no hit is
     * reactivated, and every hit keeps the external error of this step.
     */
    method FitIteration(kres: KalFitResult, iherr: nat, calo: bool) returns (niter: nat, changed: bool)
      requires Valid() && IdsInTable(kres.hits) && iherr < |cfg.herr|
      modifies this, ambigVec, ambigVecSlope, kres
      ensures annealingStep == iherr && markDoublets == old(markDoublets)
      ensures nIter == old(nIter) + niter
      ensures niter <= cfg.maxIterations
      ensures kres.fit.success && niter < cfg.maxIterations ==> !changed
      ensures SameStraws(old(kres.hits), kres.hits) && NoneReactivated(old(kres.hits), kres.hits)
      ensures forall i :: 0 <= i < |kres.hits| ==>
        kres.hits[i].extErr == cfg.herr[iherr]
        || (iherr < cfg.iLoopMarkDoublets && kres.hits[i].extErr == cfg.herr[iherr] / cfg.scaleErrDoublet)
    {
      ghost var h0 := kres.hits;
      PrepareStep(kres, iherr);
      ghost var h1 := kres.hits;
      niter, changed := Anneal(kres, iherr, calo);
      StepErrorsKept(h0, h1, kres.hits, cfg.herr[iherr], cfg.scaleErrDoublet, iherr < cfg.iLoopMarkDoublets);
    }

    /** The head of fitIteration: set the step, mark doublets on a marking step, assign the errors. */
    method PrepareStep(kres: KalFitResult, iherr: nat)
      requires Valid() && IdsInTable(kres.hits) && iherr < |cfg.herr|
      modifies this, ambigVec, ambigVecSlope, kres
      ensures annealingStep == iherr && markDoublets == old(markDoublets) && nIter == old(nIter)
      ensures SameStraws(old(kres.hits), kres.hits) && NoneReactivated(old(kres.hits), kres.hits)
      ensures IdsInTable(kres.hits)
      ensures forall i :: 0 <= i < |kres.hits| ==>
        kres.hits[i].extErr == cfg.herr[iherr]
        || (iherr < cfg.iLoopMarkDoublets && kres.hits[i].extErr == cfg.herr[iherr] / cfg.scaleErrDoublet)
    {
      ghost var h0 := kres.hits;
      annealingStep := iherr;
      if iherr < cfg.iLoopMarkDoublets && markDoublets == 1 {
        RemarkMultiplets(kres);
        IdsKept(h0, kres.hits);
      }
      AssignExtErrors(kres, iherr);
      IdsKept(h0, kres.hits);
    }

    /**
     * The loop of fitIteration and the final resolve after it: fNIter grows
     * by the iterations run, a successful fit below the cap means nothing
     * changed, and the hits keep their straws, activity bound and errors.
     */
    method Anneal(kres: KalFitResult, iherr: nat, calo: bool) returns (niter: nat, changed: bool)
      requires Valid() && IdsInTable(kres.hits) && iherr < |cfg.herr|
      modifies this, ambigVec, ambigVecSlope, kres
      ensures annealingStep == old(annealingStep) && markDoublets == old(markDoublets)
      ensures nIter == old(nIter) + niter
      ensures niter <= cfg.maxIterations
      ensures kres.fit.success && niter < cfg.maxIterations ==> !changed
      ensures Keeps(old(kres.hits), kres.hits)
    {
      ghost var h1 := kres.hits;
      var oldt0 := kres.t0;
      niter := 0;
      changed := true;
      kres.fit := kres.fit.(success := true);
      while kres.fit.success && changed && niter < cfg.maxIterations
        invariant niter <= cfg.maxIterations
        invariant annealingStep == old(annealingStep) && markDoublets == old(markDoublets) && nIter == old(nIter)
        invariant Keeps(h1, kres.hits) && IdsInTable(kres.hits)
        decreases cfg.maxIterations - niter
      {
        ghost var pre := kres.hits;
        var fitOk;
        fitOk, changed, oldt0 := Iterate(kres, iherr, calo, oldt0);
        KeepsChain(h1, pre, kres.hits);
        IdsKept(pre, kres.hits);
        if !fitOk {
          break;
        }
        niter := niter + 1;
      }
      nIter := nIter + niter;
      if kres.fit.success {
        ghost var pre := kres.hits;
        Step(kres, iherr);
        KeepsChain(h1, pre, kres.hits);
      }
    }

    /**
     * fitTrack: one fitIteration per external-error step, in order, stopping
     * at the first step whose fit fails. When the fit succeeds every step ran;
     * when it stopped early, the fit failed.
     */
    method FitTrack(kres: KalFitResult, calo: bool)
      requires Valid() && IdsInTable(kres.hits)
      modifies this, ambigVec, ambigVecSlope, kres
      ensures 0 <= annealingStep < |cfg.herr|
      ensures kres.fit.success ==> annealingStep == |cfg.herr| - 1
      ensures markDoublets == old(markDoublets) && nIter >= old(nIter)
      ensures SameStraws(old(kres.hits), kres.hits) && NoneReactivated(old(kres.hits), kres.hits)
    {
      ghost var h0 := kres.hits;
      var iherr := 0;
      while iherr < |cfg.herr|
        invariant 0 <= iherr <= |cfg.herr|
        invariant iherr > 0 ==> annealingStep == iherr - 1
        invariant markDoublets == old(markDoublets) && nIter >= old(nIter)
        invariant SameStraws(h0, kres.hits) && NoneReactivated(h0, kres.hits) && IdsInTable(kres.hits)
      {
        ghost var pre := kres.hits;
        var niter, changed := FitIteration(kres, iherr, calo);
        ChainSteps(h0, pre, kres.hits);
        IdsKept(pre, kres.hits);
        if !kres.fit.success {
          break;
        }
        iherr := iherr + 1;
      }
    }

    /**
     * makeHits: one hit per straw-hit index, created with the first external
     * error and switched off when its point of closest approach could not be
     * computed, appended to the hits the result already holds; then the whole
     * list is sorted by fltlencomp.
     */
    method MakeHits(kres: KalFitResult, seeds: seq<HitSeed>, dir: FitDirection)
      requires Valid()
      modifies kres
      ensures SortedByFlt(dir, kres.hits)
      ensures multiset(kres.hits) == multiset(old(kres.hits)) + multiset(NewHits(seeds, cfg.herr[0]))
      ensures kres.t0 == old(kres.t0) && kres.fit == old(kres.fit)
    {
      var hits := kres.hits;
      for i := 0 to |seeds|
        invariant hits == old(kres.hits) + NewHits(seeds[..i], cfg.herr[0])
      {
        assert seeds[..i + 1] == seeds[..i] + [seeds[i]];
        hits := hits + [NewHit(seeds[i], cfg.herr[0])];
      }
      assert seeds[..|seeds|] == seeds;
      kres.hits := SortByFlt(dir, hits);
    }

    /**
     * makeTrack: a track definition with too few straw hits is not fitted
     * and its fit is left failed. Otherwise the hits are made and sorted, the
     * doublet-marking switch is taken from the caller, the fit runs over all
     * steps (calorimeter-seeded T0 updates only outside Dave mode), and the
     * hits stay sorted by flight length.
     */
    method MakeTrack(kres: KalFitResult, seeds: seq<HitSeed>, dir: FitDirection, t0: real,
                     calo: bool, markDoubs: int)
      requires Valid() && IdsInTable(kres.hits) && forall i :: 0 <= i < |seeds| ==> seeds[i].hit.shId < TableSize
      modifies this, ambigVec, ambigVecSlope, kres
      ensures !Fitable(cfg, |seeds|) ==>
        && !kres.fit.success && kres.hits == old(kres.hits)
        && kres.t0 == old(kres.t0) && markDoublets == old(markDoublets)
      ensures Fitable(cfg, |seeds|) ==> markDoublets == markDoubs && SortedByFlt(dir, kres.hits)
      ensures Fitable(cfg, |seeds|) ==> |kres.hits| == |old(kres.hits)| + |seeds|
      ensures Fitable(cfg, |seeds|) ==>
        multiset(Keys(kres.hits)) == multiset(Keys(old(kres.hits))) + multiset(Keys(NewHits(seeds, cfg.herr[0])))
    {
      kres.fit := kres.fit.(success := false);
      if Fitable(cfg, |seeds|) {
        kres.t0 := t0;
        ghost var prior := kres.hits;
        MakeHits(kres, seeds, dir);
        NewHitsInTable(prior, seeds, cfg.herr[0], kres.hits);
        ghost var sorted := kres.hits;
        markDoublets := markDoubs;
        PermutedKeys(sorted, prior + NewHits(seeds, cfg.herr[0]));
        KeysAppend(prior, NewHits(seeds, cfg.herr[0]));
        FitTrack(kres, cfg.daveMode == 0 && calo);
        SortedKept(dir, sorted, kres.hits);
        SameStrawsKeys(sorted, kres.hits);
      }
    }

    /**
     * One pass of fitIteration's loop: resolve (and mark), refit; after a
     * successful refit, update T0 (a change beyond the step's tolerance counts
     * as a change) and weed (a weeded hit counts as a change). `fitOk` is the
     * outcome of the refit, on whose failure the loop breaks; a failed refit
     * inside weeding ends the loop only through its condition.
     */
    method Iterate(kres: KalFitResult, iherr: nat, calo: bool, oldt0: real)
      returns (fitOk: bool, changed: bool, newt0: real)
      requires Valid() && iherr < |cfg.herr| && IdsInTable(kres.hits)
      modifies ambigVec, ambigVecSlope, kres
      ensures !fitOk ==> !kres.fit.success && !changed
      ensures Keeps(old(kres.hits), kres.hits)
    {
      changed := false;
      newt0 := oldt0;
      ghost var h0 := kres.hits;
      Step(kres, iherr);
      kres.fit := svc.refit(kres.hits, kres.t0);
      fitOk := kres.fit.success;
      if !fitOk {
        return;
      }
      if cfg.updateT0 {
        kres.t0 := svc.updateT0(calo, kres.hits, kres.t0);
        changed := changed || Abs(kres.t0 - newt0) > cfg.t0tol[iherr];
        newt0 := kres.t0;
      }
      if cfg.weedHits {
        kres.nweediter := 0;
        ghost var h1, f1 := kres.hits, kres.fit;
        var weeded := WeedHits(kres);
        WeedRunKeeps(h1, f1, kres.t0, 0, cfg.maxWeed, cfg.maxHitChi, svc.refit);
        KeepsChain(h0, h1, kres.hits);
        changed := changed || weeded;
      }
    }

    /** The resolver, then doublet marking when this is a marking step. */
    method Step(kres: KalFitResult, iherr: nat)
      requires Valid() && iherr < |cfg.herr| && IdsInTable(kres.hits)
      modifies ambigVec, ambigVecSlope, kres
      ensures Keeps(old(kres.hits), kres.hits)
      ensures kres.t0 == old(kres.t0) && kres.fit == old(kres.fit)
      ensures kres.nweediter == old(kres.nweediter)
    {
      ghost var a := kres.hits;
      ResolveTrk(kres, iherr);
      if iherr < cfg.iLoopMarkDoublets && markDoublets == 1 {
        ghost var b := kres.hits;
        IdsKept(a, b);
        RemarkMultiplets(kres);
        KeepsChain(a, b, kres.hits);
      }
    }
  }

  /**
   * Whether the error assignment of fitIteration reads the ambiguity table,
   * as written: on every step below iLoopMarkDoublets, whether or not
   * doublets were marked on this track.
   */
  predicate TableGateAsWritten(iherr: nat, iLoopMarkDoublets: int, markDoublets: int)
  {
    iherr < iLoopMarkDoublets
  }

  /** The gate the marking itself uses: a marking step with doublet marking switched on. */
  predicate TableGateIntended(iherr: nat, iLoopMarkDoublets: int, markDoublets: int)
  {
    iherr < iLoopMarkDoublets && markDoublets == 1
  }

  /**
   * With doublet marking off (fMarkDoublets 0, the constructor's value) on
   * step 0 of a configuration with iLoopMarkDoublets 1, nothing resets the
   * table, yet the gate as written reads it: a hit whose entry is left at +1
   * by an earlier track gets the reduced error herr/scale, where the gate of
   * the marking would give it herr.
   */
  lemma AsWrittenGateReadsUnmarkedTable()
    ensures var v := Vec3(0.0, 0.0, 0.0);
      var h := TrkHit(0, 0, 0, v, 0.0, 1.0, true, 0, 0, false, 0.0);
      var table := seq(TableSize, k => 1);
      && TableGateAsWritten(0, 1, 0) && !TableGateIntended(0, 1, 0)
      && ExtErrors([h], table, 1.0, 2.0, TableGateAsWritten(0, 1, 0))[0].extErr == 0.5
      && ExtErrors([h], table, 1.0, 2.0, TableGateIntended(0, 1, 0))[0].extErr == 1.0
  {
    var v := Vec3(0.0, 0.0, 0.0);
    var h := TrkHit(0, 0, 0, v, 0.0, 1.0, true, 0, 0, false, 0.0);
    var table := seq(TableSize, k => 1);
    assert IdsInTable([h]);
    assert table[0] == 1;
  }

  /**
   * Under the gate of the marking, the table is read only when this track's
   * doublets were just marked; otherwise every hit gets the step's error,
   * whatever the table holds.
   */
  lemma IntendedGateIgnoresUnmarkedTable(hs: seq<TrkHit>, table: seq<int>, herr: real, scale: real,
                                         iherr: nat, iLoopMarkDoublets: int, markDoublets: int)
    requires IdsInTable(hs) && |table| == TableSize && scale != 0.0
    ensures var r := ExtErrors(hs, table, herr, scale, TableGateIntended(iherr, iLoopMarkDoublets, markDoublets));
      && (markDoublets != 1 || iherr >= iLoopMarkDoublets ==> forall i :: 0 <= i < |hs| ==> r[i].extErr == herr)
      && (forall i :: 0 <= i < |hs| && r[i].extErr != herr ==> markDoublets == 1 && iherr < iLoopMarkDoublets)
  {
  }

  /** What a whole fit step keeps, from the error assignment and the updates after it. */
  /**
   * The reduced error goes exactly to the hits whose table entry a doublet
   * resolved, and those hits carry the resolved ambiguity, no longer updated.
   */
  predicate ReducedExactlyResolved(hs: seq<TrkHit>, table: seq<int>, reduced: real)
    requires IdsInTable(hs) && |table| == TableSize
  {
    forall i :: 0 <= i < |hs| ==>
      var e := table[hs[i].shId];
      && (hs[i].extErr == reduced <==> e != Sentinel)
      && (e != Sentinel ==> hs[i].ambig == e && !hs[i].ambigUpdate)
  }

  /**
   * On a freshly marked sentinel-or-sign table, the errors assigned after
   * setMultipletsAmbig are reduced exactly for the hits whose entry a doublet
   * resolved, and those hits carry the resolved ambiguity, no longer updated.
   */
  lemma ReducedIffResolved(h0: seq<TrkHit>, table: seq<int>, herr: real, scale: real)
    requires IdsInTable(h0) && |table| == TableSize && scale != 0.0 && herr / scale != herr
    requires SentinelOrSign(table)
    ensures var h1 := ApplyTable(h0, table);
      IdsInTable(h1) &&
      var r := ExtErrors(h1, table, herr, scale, true);
      IdsInTable(r) && ReducedExactlyResolved(r, table, herr / scale)
  {
    var h1 := ApplyTable(h0, table);
    IdsKept(h0, h1);
    var r := ExtErrors(h1, table, herr, scale, true);
    IdsKept(h1, r);
    forall i | 0 <= i < |r|
      ensures var e := table[r[i].shId];
        && (r[i].extErr == herr / scale <==> e != Sentinel)
        && (e != Sentinel ==> r[i].ambig == e && !r[i].ambigUpdate)
    {
      assert r[i].shId == h1[i].shId == h0[i].shId;
    }
  }

  /**
   * The marking step under the marking's own gate, composed from the
   * functions the methods are proved against: the table is freshly reset and
   * marked with this track's doublets (findAndMarkMultiplets), the hits take
   * its resolved ambiguities (setMultipletsAmbig), then the errors are
   * assigned. The reduced error goes exactly to the hits whose straw a
   * doublet of this track resolved, and a straw in no pair of this track
   * keeps the sentinel, so nothing left from an earlier track is read.
   */
  lemma IntendedGateReducesExactlyResolved(h0: seq<TrkHit>, dcol: seq<Doublet>, svc: Services, c: Cuts,
                                           herr: real, scale: real)
    requires IdsInTable(h0) && scale != 0.0 && herr / scale != herr
    requires forall i :: 0 <= i < |dcol| ==> Markable(dcol[i])
    ensures var table := MarkAll(FreshTables(), dcol, svc, c).amb;
      && (forall k :: 0 <= k < TableSize && k !in PairIds(dcol) ==> table[k] == Sentinel)
      && IdsInTable(ApplyTable(h0, table))
      && var r := ExtErrors(ApplyTable(h0, table), table, herr, scale, true);
         IdsInTable(r) && ReducedExactlyResolved(r, table, herr / scale)
  {
    SentinelDiscipline(dcol, svc, c);
    ReducedIffResolved(h0, MarkAll(FreshTables(), dcol, svc, c).amb, herr, scale);
  }

  lemma StepErrorsKept(h0: seq<TrkHit>, h1: seq<TrkHit>, h2: seq<TrkHit>, herr: real, scale: real, useTable: bool)
    requires SameStraws(h0, h1) && NoneReactivated(h0, h1) && Keeps(h1, h2) && scale != 0.0
    requires forall i :: 0 <= i < |h1| ==> h1[i].extErr == herr || (useTable && h1[i].extErr == herr / scale)
    ensures SameStraws(h0, h2) && NoneReactivated(h0, h2)
    ensures forall i :: 0 <= i < |h2| ==> h2[i].extErr == herr || (useTable && h2[i].extErr == herr / scale)
  {
  }

  /** Weeding only switches hits off, so it keeps the straws and the errors. */
  lemma WeedKeeps(hs: seq<TrkHit>, r: seq<TrkHit>)
    requires |r| == |hs|
    requires forall i :: 0 <= i < |hs| ==> r[i] == hs[i] || (hs[i].active && r[i] == Deactivate(hs[i]))
    ensures Keeps(hs, r)
  {
    forall i | 0 <= i < |hs| ensures KeyOf(hs[i]) == KeyOf(r[i]) && (r[i].active ==> hs[i].active) && r[i].extErr == hs[i].extErr {
      if r[i] != hs[i] {
        assert r[i] == Deactivate(hs[i]);
      }
    }
  }

  lemma WeedRunKeeps(hs: seq<TrkHit>, f: Fit, t0: real, iter: nat, maxWeed: nat, maxHitChi: real,
                     refit: (seq<TrkHit>, real) -> Fit)
    ensures Keeps(hs, WeedRun(hs, f, t0, iter, maxWeed, maxHitChi, refit).hits)
  {
    WeedRunMeaning(hs, f, t0, iter, maxWeed, maxHitChi, refit);
    WeedKeeps(hs, WeedRun(hs, f, t0, iter, maxWeed, maxHitChi, refit).hits);
  }

  /**
   * findBoundingHits: `low` walks back from the last hit past every hit
   * beyond flt0 (-1 plays rend()), `high` walks forward from the first hit
   * past every hit before flt0 (|hits| plays end()).
   */
  method FindBoundingHits(hits: seq<TrkHit>, flt0: real) returns (low: int, high: nat)
    ensures -1 <= low < |hits| && high <= |hits|
    ensures forall k :: low < k < |hits| ==> hits[k].flt > flt0
    ensures low >= 0 ==> hits[low].flt <= flt0
    ensures forall k :: 0 <= k < high ==> hits[k].flt < flt0
    ensures high < |hits| ==> hits[high].flt >= flt0
  {
    low := |hits| - 1;
    while low >= 0 && hits[low].flt > flt0
      invariant -1 <= low < |hits|
      invariant forall k :: low < k < |hits| ==> hits[k].flt > flt0
    {
      low := low - 1;
    }
    high := 0;
    while high < |hits| && hits[high].flt < flt0
      invariant high <= |hits|
      invariant forall k :: 0 <= k < high ==> hits[k].flt < flt0
    {
      high := high + 1;
    }
  }

  /**
   * On hits in increasing flight length the two bounds bracket flt0: every
   * hit up to `low` is at or before it, every hit from `high` on is at or
   * after it, and the bounds are adjacent exactly when no hit sits at flt0.
   */
  lemma BoundingHitsBracket(hits: seq<TrkHit>, flt0: real, low: int, high: nat)
    requires SortedByFlt(Downstream, hits)
    requires -1 <= low < |hits| && high <= |hits|
    requires forall k :: low < k < |hits| ==> hits[k].flt > flt0
    requires low >= 0 ==> hits[low].flt <= flt0
    requires forall k :: 0 <= k < high ==> hits[k].flt < flt0
    requires high < |hits| ==> hits[high].flt >= flt0
    ensures forall k :: 0 <= k <= low ==> hits[k].flt <= flt0
    ensures forall k :: high <= k < |hits| ==> hits[k].flt >= flt0
    ensures high <= low + 1
    ensures high == low + 1 <==> forall k :: 0 <= k < |hits| ==> hits[k].flt != flt0
  {
    assert forall k :: 0 <= k < |hits| ==> OrderKey(Downstream, hits[k]) == hits[k].flt;
    if low + 1 < |hits| {
      assert hits[low + 1].flt > flt0;
    }
  }
}
