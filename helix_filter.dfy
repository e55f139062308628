/**
 * The helix event filter: an event passes iff some helix seed has every
 * required fit-status flag, a calorimeter cluster when one is required,
 * enough hits and a momentum strictly inside the window.
 */
module HelixEventFilter {
  import opened Base

  /**
   * A helix seed as the filter reads it. The momentum sqrt(r^2 + lambda^2)
   * is computed in single precision from the helix; it is given here.
   */
  datatype HelixSeed = HelixSeed(status: set<string>, hasCaloCluster: bool, nhits: nat, hmom: real)

  datatype Params = Params(
    requireCaloCluster: Option<bool>, minNHits: Option<nat>,
    minMomentum: Option<real>, maxMomentum: Option<real>, helixFitFlag: Option<set<string>>)

  datatype Selection = Selection(hascc: bool, minnhits: nat, minmom: real, maxmom: real, goodh: set<string>)

  function SelectionOf(p: Params): (s: Selection)
    ensures s.hascc == (if p.requireCaloCluster.Some? then p.requireCaloCluster.value else false)
    ensures s.minnhits == (if p.minNHits.Some? then p.minNHits.value else 11)
    ensures s.minmom == (if p.minMomentum.Some? then p.minMomentum.value else 280.0)
    ensures s.maxmom == (if p.maxMomentum.Some? then p.maxMomentum.value else 380.0)
    ensures s.goodh == (if p.helixFitFlag.Some? then p.helixFitFlag.value else {"HelixOK"})
  {
    Selection(if p.requireCaloCluster.Some? then p.requireCaloCluster.value else false,
              if p.minNHits.Some? then p.minNHits.value else 11,
              if p.minMomentum.Some? then p.minMomentum.value else 280.0,
              if p.maxMomentum.Some? then p.maxMomentum.value else 380.0,
              if p.helixFitFlag.Some? then p.helixFitFlag.value else {"HelixOK"})
  }

  /** The selection one seed must pass. */
  predicate Passes(s: Selection, hs: HelixSeed)
  {
    s.goodh <= hs.status
    && (!s.hascc || hs.hasCaloCluster)
    && hs.nhits >= s.minnhits
    && hs.hmom > s.minmom && hs.hmom < s.maxmom
  }

  /** The first of the first n seeds that passes, if any. */
  function FirstPassing(s: Selection, seeds: seq<HelixSeed>, n: nat): Option<nat>
    requires n <= |seeds|
  {
    if n == 0 then None
    else
      var prev := FirstPassing(s, seeds, n - 1);
      if prev.None? && Passes(s, seeds[n - 1]) then Some(n - 1) else prev
  }

  /** FirstPassing finds a seed iff one passes, and then the earliest. */
  lemma {:induction false} FirstPassingMeaning(s: Selection, seeds: seq<HelixSeed>, n: nat)
    requires n <= |seeds|
    ensures FirstPassing(s, seeds, n).None? <==> forall i :: 0 <= i < n ==> !Passes(s, seeds[i])
    ensures FirstPassing(s, seeds, n).Some? ==>
              var k := FirstPassing(s, seeds, n).value;
              k < n && Passes(s, seeds[k]) && forall i :: 0 <= i < k ==> !Passes(s, seeds[i])
  {
    if n > 0 {
      FirstPassingMeaning(s, seeds, n - 1);
    }
  }

  /** Counters after a run of events: events seen and events passed. */
  function Counts(s: Selection, events: seq<seq<HelixSeed>>): (nat, nat)
  {
    if events == [] then (0, 0)
    else
      var prev := Counts(s, events[..|events| - 1]);
      var seeds := events[|events| - 1];
      (prev.0 + 1, prev.1 + if FirstPassing(s, seeds, |seeds|).Some? then 1 else 0)
  }

  /** Every event is counted once, and no more events pass than were seen. */
  lemma {:induction false} CountsBounded(s: Selection, events: seq<seq<HelixSeed>>)
    ensures Counts(s, events).0 == |events|
    ensures Counts(s, events).1 <= Counts(s, events).0
  {
    if events != [] {
      CountsBounded(s, events[..|events| - 1]);
    }
  }

  class HelixFilter {
    const sel: Selection
    var nevt: nat
    var npass: nat

    ghost predicate Valid()
      reads this
    {
      npass <= nevt
    }

    constructor(p: Params)
      ensures sel == SelectionOf(p)
      ensures nevt == 0 && npass == 0
      ensures Valid()
    {
      sel := SelectionOf(p);
      nevt := 0;
      npass := 0;
    }

    /** filter: count the event, scan the seeds and stop at the first that passes. */
    method Filter(hscol: seq<HelixSeed>) returns (retval: bool)
      requires Valid()
      modifies this
      ensures retval <==> exists i :: 0 <= i < |hscol| && Passes(sel, hscol[i])
      ensures nevt == old(nevt) + 1
      ensures npass == old(npass) + (if retval then 1 else 0)
      ensures Valid()
    {
      nevt := nevt + 1;
      retval := false;
      var i := 0;
      while i < |hscol|
        invariant 0 <= i <= |hscol|
        invariant !retval && FirstPassing(sel, hscol, i).None?
        invariant nevt == old(nevt) + 1 && npass == old(npass)
      {
        var hs := hscol[i];
        if sel.goodh <= hs.status && (!sel.hascc || hs.hasCaloCluster) && hs.nhits >= sel.minnhits
           && hs.hmom > sel.minmom && hs.hmom < sel.maxmom {
          retval := true;
          npass := npass + 1;
          break;
        }
        i := i + 1;
      }
      FirstPassingMeaning(sel, hscol, i);
    }
  }
}
