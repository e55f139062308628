/**
 * The step-point time filter: each event's step points whose time lies in
 * the open window (cutTimeMin - |cutTimeMinUnc|, cutTimeMax) are copied, in
 * order, to a new collection; the event passes iff anything was copied.
 */
module StepPointFilter {
  import opened Base

  /** A simulated step point; only its time is read by the filter. */
  datatype StepPoint = StepPoint(trackId: nat, time: real)

  function Pow2(n: nat): (r: nat)
    ensures r >= 1
  {
    if n == 0 then 1 else 2 * Pow2(n - 1)
  }

  /** numeric_limits<double>::min(): the smallest positive normal double, 2^-1022. */
  const DblMin: real := 1.0 / (Pow2(1022) as real)

  /** numeric_limits<double>::max(): (2^53 - 1) * 2^971. */
  const DblMax: real := ((Pow2(53) - 1) * Pow2(971)) as real

  /** Job parameters; an absent optional one takes its default. */
  datatype Params = Params(cutTimeMin: Option<real>, cutTimeMax: Option<real>, cutTimeMinUnc: Option<real>)

  datatype Cuts = Cuts(tmin: real, tmax: real, tminUnc: real)

  function CutsOf(p: Params): (c: Cuts)
    ensures p.cutTimeMin.None? ==> c.tmin == DblMin
    ensures p.cutTimeMin.Some? ==> c.tmin == p.cutTimeMin.value
    ensures p.cutTimeMax.None? ==> c.tmax == DblMax
    ensures p.cutTimeMax.Some? ==> c.tmax == p.cutTimeMax.value
    ensures p.cutTimeMinUnc.None? ==> c.tminUnc == 0.0
    ensures p.cutTimeMinUnc.Some? ==> c.tminUnc == p.cutTimeMinUnc.value
  {
    Cuts(if p.cutTimeMin.Some? then p.cutTimeMin.value else DblMin,
         if p.cutTimeMax.Some? then p.cutTimeMax.value else DblMax,
         if p.cutTimeMinUnc.Some? then p.cutTimeMinUnc.value else 0.0)
  }

  /** Both bounds are strict; the lower one is widened by the size of the uncertainty. */
  predicate InTimeWindow(c: Cuts, t: real)
  {
    c.tmin - Abs(c.tminUnc) < t && t < c.tmax
  }

  /** The step points of the first n that pass, in input order. */
  function Selected(c: Cuts, pts: seq<StepPoint>, n: nat): seq<StepPoint>
    requires n <= |pts|
  {
    if n == 0 then []
    else Selected(c, pts, n - 1) + (if InTimeWindow(c, pts[n - 1].time) then [pts[n - 1]] else [])
  }

  /**
   * The selection keeps exactly the points in the window: every kept point
   * is in the window, no more points than were given are kept, a point in
   * the window is kept as often as it occurs and one outside is dropped.
   */
  lemma {:induction false} SelectedMeaning(c: Cuts, pts: seq<StepPoint>, n: nat)
    requires n <= |pts|
    ensures |Selected(c, pts, n)| <= n
    ensures forall q :: q in Selected(c, pts, n) ==> InTimeWindow(c, q.time)
    ensures forall q: StepPoint :: InTimeWindow(c, q.time) ==>
              multiset(Selected(c, pts, n))[q] == multiset(pts[..n])[q]
    ensures forall q: StepPoint :: !InTimeWindow(c, q.time) ==> q !in Selected(c, pts, n)
  {
    if n > 0 {
      SelectedMeaning(c, pts, n - 1);
      assert pts[..n] == pts[..n - 1] + [pts[n - 1]];
    }
  }

  /** Nothing is selected iff no point lies in the window. */
  lemma {:induction false} SelectedEmpty(c: Cuts, pts: seq<StepPoint>, n: nat)
    requires n <= |pts|
    ensures Selected(c, pts, n) == [] <==> forall i :: 0 <= i < n ==> !InTimeWindow(c, pts[i].time)
  {
    if n > 0 {
      SelectedEmpty(c, pts, n - 1);
    }
  }

  /** With the default cuts a step point at time zero or earlier never passes. */
  lemma DefaultCutsRejectNonPositive(t: real)
    requires t <= 0.0
    ensures !InTimeWindow(CutsOf(Params(None, None, None)), t)
  {
    assert DblMin > 0.0;
  }

  /** The summed statistics over a run of events, input and output counts. */
  function Totals(c: Cuts, events: seq<seq<StepPoint>>): (nat, nat)
  {
    if events == [] then (0, 0)
    else
      var prev := Totals(c, events[..|events| - 1]);
      var pts := events[|events| - 1];
      (prev.0 + |pts|, prev.1 + |Selected(c, pts, |pts|)|)
  }

  /** Over any run of events no more step points are written than were read. */
  lemma {:induction false} TotalsBounded(c: Cuts, events: seq<seq<StepPoint>>)
    ensures Totals(c, events).1 <= Totals(c, events).0
  {
    if events != [] {
      TotalsBounded(c, events[..|events| - 1]);
      var pts := events[|events| - 1];
      SelectedMeaning(c, pts, |pts|);
    }
  }

  class FilterStepPointsByTime {
    const cuts: Cuts
    var numInputHits: nat
    var numOutputHits: nat

    ghost predicate Valid()
      reads this
    {
      numOutputHits <= numInputHits
    }

    constructor(p: Params)
      ensures cuts == CutsOf(p)
      ensures numInputHits == 0 && numOutputHits == 0
      ensures Valid()
    {
      cuts := CutsOf(p);
      numInputHits := 0;
      numOutputHits := 0;
    }

    /** filter: copy the passing points, report whether any passed, update the statistics. */
    method Filter(input: seq<StepPoint>) returns (passed: bool, out: seq<StepPoint>)
      requires Valid()
      modifies this
      ensures out == Selected(cuts, input, |input|)
      ensures passed <==> out != []
      ensures numInputHits == old(numInputHits) + |input|
      ensures numOutputHits == old(numOutputHits) + |out|
      ensures Valid()
    {
      passed := false;
      out := [];
      for i := 0 to |input|
        invariant out == Selected(cuts, input, i)
        invariant passed <==> out != []
      {
        var time := input[i].time;
        if cuts.tmin - Abs(cuts.tminUnc) < time && time < cuts.tmax {
          out := out + [input[i]];
          passed := true;
        }
      }
      SelectedMeaning(cuts, input, |input|);
      numInputHits := numInputHits + |input|;
      numOutputHits := numOutputHits + |out|;
    }
  }
}
