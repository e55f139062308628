/**
 * Outlier weeding and unweeding of KalFitHack: one scan picks the worst
 * active hit (or the best inactive hit), flips its activity, refits, and the
 * procedure recurses while the fit succeeds and the iteration counter stays
 * below the cap.
 */
module Weeding {
  import opened Base
  import opened KalFitTypes

  /** |resid/residErr| of hit i, as the scans compare it. */
  function ChiVal(f: Fit, i: nat): real
    requires ChiAt(f, i).Some?
  {
    Abs(ChiAt(f, i).value)
  }

  /** Running state of a scan: the hit picked so far and its value. */
  datatype Pick = Pick(index: Option<nat>, value: real)

  /** Hit i may be weeded: it is active, has a residual, and exceeds the chi cut. */
  predicate WeedCandidate(hs: seq<TrkHit>, f: Fit, maxHitChi: real, i: nat)
    requires i < |hs|
  {
    hs[i].active && ChiAt(f, i).Some? && ChiVal(f, i) > maxHitChi
  }

  /** weedHits' scan over the first n hits; the running worst starts at -1. */
  function WorstScan(hs: seq<TrkHit>, f: Fit, maxHitChi: real, n: nat): (p: Pick)
    requires n <= |hs|
    ensures p.index.Some? ==> p.index.value < n
  {
    if n == 0 then Pick(None, -1.0)
    else
      var p := WorstScan(hs, f, maxHitChi, n - 1);
      if WeedCandidate(hs, f, maxHitChi, n - 1) && ChiVal(f, n - 1) > p.value
      then Pick(Some(n - 1), ChiVal(f, n - 1))
      else p
  }

  /**
   * The scan finds nothing iff no active hit has a residual above the cut;
   * otherwise it picks a candidate with the largest value, and every earlier
   * candidate is strictly smaller (the earliest wins ties).
   */
  lemma {:induction false} WorstScanMeaning(hs: seq<TrkHit>, f: Fit, maxHitChi: real, n: nat)
    requires n <= |hs|
    ensures WorstScan(hs, f, maxHitChi, n).index.None? <==>
      forall i: nat :: i < n ==> !WeedCandidate(hs, f, maxHitChi, i)
    ensures WorstScan(hs, f, maxHitChi, n).index.None? ==> WorstScan(hs, f, maxHitChi, n).value == -1.0
    ensures WorstScan(hs, f, maxHitChi, n).index.Some? ==>
      var k := WorstScan(hs, f, maxHitChi, n).index.value;
      && WeedCandidate(hs, f, maxHitChi, k)
      && WorstScan(hs, f, maxHitChi, n).value == ChiVal(f, k)
      && (forall i: nat :: i < n && WeedCandidate(hs, f, maxHitChi, i) ==> ChiVal(f, i) <= ChiVal(f, k))
      && (forall i: nat :: i < k && WeedCandidate(hs, f, maxHitChi, i) ==> ChiVal(f, i) < ChiVal(f, k))
  {
    if n > 0 {
      WorstScanMeaning(hs, f, maxHitChi, n - 1);
    }
  }

  /** Hit i may be restored: it is inactive, has a residual below maxchi, and a physical drift. */
  predicate UnweedCandidate(hs: seq<TrkHit>, f: Fit, maxChi: real, physical: (TrkHit, real) -> bool, i: nat)
    requires i < |hs|
  {
    !hs[i].active && ChiAt(f, i).Some? && ChiVal(f, i) < maxChi && physical(hs[i], maxChi)
  }

  /** Initial value of unweedHits' running best. */
  const UnweedStart: real := 1000000000000.0

  /** unweedHits' scan over the first n hits; the running best starts at 1e12. */
  function BestScan(hs: seq<TrkHit>, f: Fit, maxChi: real, physical: (TrkHit, real) -> bool, n: nat): (p: Pick)
    requires n <= |hs|
    ensures p.index.Some? ==> p.index.value < n
  {
    if n == 0 then Pick(None, UnweedStart)
    else
      var p := BestScan(hs, f, maxChi, physical, n - 1);
      if UnweedCandidate(hs, f, maxChi, physical, n - 1) && ChiVal(f, n - 1) < p.value
      then Pick(Some(n - 1), ChiVal(f, n - 1))
      else p
  }

  /**
   * The scan finds nothing iff no candidate is below the initial 1e12;
   * otherwise it picks a candidate with the smallest value, and every earlier
   * candidate is strictly larger (the earliest wins ties).
   */
  lemma {:induction false} BestScanMeaning(hs: seq<TrkHit>, f: Fit, maxChi: real, physical: (TrkHit, real) -> bool, n: nat)
    requires n <= |hs|
    ensures BestScan(hs, f, maxChi, physical, n).index.None? <==>
      forall i: nat :: i < n && UnweedCandidate(hs, f, maxChi, physical, i) ==> ChiVal(f, i) >= UnweedStart
    ensures BestScan(hs, f, maxChi, physical, n).index.None? ==> BestScan(hs, f, maxChi, physical, n).value == UnweedStart
    ensures BestScan(hs, f, maxChi, physical, n).index.Some? ==>
      var k := BestScan(hs, f, maxChi, physical, n).index.value;
      && UnweedCandidate(hs, f, maxChi, physical, k)
      && BestScan(hs, f, maxChi, physical, n).value == ChiVal(f, k)
      && (forall i: nat :: i < n && UnweedCandidate(hs, f, maxChi, physical, i) ==> ChiVal(f, k) <= ChiVal(f, i))
      && (forall i: nat :: i < k && UnweedCandidate(hs, f, maxChi, physical, i) ==> ChiVal(f, k) < ChiVal(f, i))
  {
    if n > 0 {
      BestScanMeaning(hs, f, maxChi, physical, n - 1);
    }
  }

  /** A hit switched off by weeding; its positive usability allows it back later. */
  function Deactivate(h: TrkHit): (r: TrkHit)
    ensures !r.active && r.usability == WeededUsability
  {
    h.(active := false, usability := WeededUsability)
  }

  /** A hit switched back on by unweeding. */
  function Reactivate(h: TrkHit): (r: TrkHit)
    ensures r.active && r.usability == UnweededUsability
  {
    h.(active := true, usability := UnweededUsability)
  }

  /** Replacing one hit changes the active count only by that hit's own activity. */
  lemma {:induction false} ActiveCountUpdate(hs: seq<TrkHit>, k: nat, h: TrkHit)
    requires k < |hs|
    ensures ActiveCount(hs[k := h]) + (if hs[k].active then 1 else 0)
         == ActiveCount(hs) + (if h.active then 1 else 0)
  {
    var last := |hs| - 1;
    if k < last {
      ActiveCountUpdate(hs[..last], k, h);
      assert hs[k := h][..last] == hs[..last][k := h];
    } else {
      assert hs[k := h][..last] == hs[..last];
    }
  }

  /** Result of a weeding or unweeding run: hits, fit, iteration counter, return value. */
  datatype WeedState = WeedState(hits: seq<TrkHit>, fit: Fit, iter: nat, changed: bool)

  /** weedHits: deactivate the worst hit, refit, recurse while the fit succeeds and iter < maxweed. */
  function WeedRun(hs: seq<TrkHit>, f: Fit, t0: real, iter: nat, maxWeed: nat, maxHitChi: real,
                   refit: (seq<TrkHit>, real) -> Fit): WeedState
    decreases maxWeed - iter
  {
    match WorstScan(hs, f, maxHitChi, |hs|).index
    case None => WeedState(hs, f, iter, false)
    case Some(k) =>
      var hs' := hs[k := Deactivate(hs[k])];
      var f' := refit(hs', t0);
      if f'.success && iter + 1 < maxWeed then
        var r := WeedRun(hs', f', t0, iter + 1, maxWeed, maxHitChi, refit);
        WeedState(r.hits, r.fit, r.iter, true)
      else WeedState(hs', f', iter + 1, true)
  }

  /**
   * What weeding does to the hits: only active hits are switched off (with
   * usability 5), one per iteration, so the number of hits deactivated is the
   * increase of the counter; it returns true iff it deactivated a hit; the
   * counter ends at most at max(iter + 1, maxweed); and when it stops with a
   * successful fit below the cap, no active hit is above the chi cut.
   */
  lemma {:induction false} WeedRunMeaning(hs: seq<TrkHit>, f: Fit, t0: real, iter: nat, maxWeed: nat,
                                         maxHitChi: real, refit: (seq<TrkHit>, real) -> Fit)
    ensures var r := WeedRun(hs, f, t0, iter, maxWeed, maxHitChi, refit);
      && |r.hits| == |hs|
      && (forall i :: 0 <= i < |hs| ==> r.hits[i] == hs[i] || (hs[i].active && r.hits[i] == Deactivate(hs[i])))
      && ActiveCount(hs) == ActiveCount(r.hits) + (r.iter - iter)
      && iter <= r.iter
      && (r.changed <==> r.iter > iter)
      && (r.changed <==> ActiveCount(r.hits) < ActiveCount(hs))
      && (r.iter <= iter + 1 || r.iter <= maxWeed)
      && (r.fit.success && r.iter < maxWeed ==>
            forall i: nat :: i < |r.hits| ==> !WeedCandidate(r.hits, r.fit, maxHitChi, i))
    decreases maxWeed - iter
  {
    WorstScanMeaning(hs, f, maxHitChi, |hs|);
    match WorstScan(hs, f, maxHitChi, |hs|).index
    case None =>
    case Some(k) =>
      var hs' := hs[k := Deactivate(hs[k])];
      ActiveCountUpdate(hs, k, Deactivate(hs[k]));
      var f' := refit(hs', t0);
      if f'.success && iter + 1 < maxWeed {
        WeedRunMeaning(hs', f', t0, iter + 1, maxWeed, maxHitChi, refit);
        var r := WeedRun(hs', f', t0, iter + 1, maxWeed, maxHitChi, refit);
      }
  }

  /** unweedHits: reactivate the best inactive hit, refit, recurse while the fit succeeds and iter < maxweed. */
  function UnweedRun(hs: seq<TrkHit>, f: Fit, t0: real, iter: nat, maxWeed: nat, maxChi: real,
                     refit: (seq<TrkHit>, real) -> Fit, physical: (TrkHit, real) -> bool): WeedState
    decreases maxWeed - iter
  {
    match BestScan(hs, f, maxChi, physical, |hs|).index
    case None => WeedState(hs, f, iter, false)
    case Some(k) =>
      var hs' := hs[k := Reactivate(hs[k])];
      var f' := refit(hs', t0);
      if f'.success && iter + 1 < maxWeed then
        var r := UnweedRun(hs', f', t0, iter + 1, maxWeed, maxChi, refit, physical);
        WeedState(r.hits, r.fit, r.iter, true)
      else WeedState(hs', f', iter + 1, true)
  }

  /**
   * The mirror image for unweeding: only inactive hits are switched on (with
   * usability 4), one per iteration; it returns true iff it reactivated a
   * hit; the counter ends at most at max(iter + 1, maxweed); and when it stops
   * with a successful fit below the cap, no inactive hit qualifies.
   */
  lemma {:induction false} UnweedRunMeaning(hs: seq<TrkHit>, f: Fit, t0: real, iter: nat, maxWeed: nat, maxChi: real,
                                           refit: (seq<TrkHit>, real) -> Fit, physical: (TrkHit, real) -> bool)
    ensures var r := UnweedRun(hs, f, t0, iter, maxWeed, maxChi, refit, physical);
      && |r.hits| == |hs|
      && (forall i :: 0 <= i < |hs| ==> r.hits[i] == hs[i] || (!hs[i].active && r.hits[i] == Reactivate(hs[i])))
      && ActiveCount(r.hits) == ActiveCount(hs) + (r.iter - iter)
      && iter <= r.iter
      && (r.changed <==> r.iter > iter)
      && (r.changed <==> ActiveCount(r.hits) > ActiveCount(hs))
      && (r.iter <= iter + 1 || r.iter <= maxWeed)
      && (r.fit.success && r.iter < maxWeed ==>
            forall i: nat :: i < |r.hits| && UnweedCandidate(r.hits, r.fit, maxChi, physical, i) ==>
              ChiVal(r.fit, i) >= UnweedStart)
    decreases maxWeed - iter
  {
    BestScanMeaning(hs, f, maxChi, physical, |hs|);
    match BestScan(hs, f, maxChi, physical, |hs|).index
    case None =>
    case Some(k) =>
      var hs' := hs[k := Reactivate(hs[k])];
      ActiveCountUpdate(hs, k, Reactivate(hs[k]));
      var f' := refit(hs', t0);
      if f'.success && iter + 1 < maxWeed {
        UnweedRunMeaning(hs', f', t0, iter + 1, maxWeed, maxChi, refit, physical);
        var r := UnweedRun(hs', f', t0, iter + 1, maxWeed, maxChi, refit, physical);
      }
  }
}
