/**
 * Doublet grouping (KalFitHack::findDoublets, first loop): a single greedy
 * pass over the hits in flight-length order that drops hits with a small drift
 * radius and groups consecutive retained hits of the same station and panel.
 */
module Doublets {
  import opened KalFitTypes

  /** A hit takes part in doublet finding unless its drift radius is below the minimum. */
  predicate Retained(h: TrkHit, minHitDrift: real)
  {
    !(h.rdrift < minHitDrift)
  }

  /** The retained hits, in input order. */
  function RetainedHits(hs: seq<TrkHit>, minHitDrift: real): (r: seq<TrkHit>)
    ensures |r| <= |hs|
  {
    if hs == [] then []
    else RetainedHits(hs[..|hs| - 1], minHitDrift)
         + (if Retained(hs[|hs| - 1], minHitDrift) then [hs[|hs| - 1]] else [])
  }

  /** The member hits of all doublets, doublet after doublet. */
  function AllHits(ds: seq<Doublet>): seq<TrkHit>
  {
    if ds == [] then [] else AllHits(ds[..|ds| - 1]) + ds[|ds| - 1].hits
  }

  /**
   * A doublet as findDoublets builds it: non-empty, one direction and one
   * position sample per hit (taken from the track at that hit), every hit on
   * the doublet's station and panel, and the wire direction of its first hit.
   */
  predicate WellFormed(d: Doublet, trackAt: TrkHit -> TrackSample)
  {
    && |d.hits| > 0
    && |d.trkDirs| == |d.hits|
    && |d.trkPoss| == |d.hits|
    && d.shDir == d.hits[0].wdir
    && forall j :: 0 <= j < |d.hits| ==>
         && d.hits[j].station == d.station
         && d.hits[j].panel == d.panel
         && d.trkDirs[j] == trackAt(d.hits[j]).dir
         && d.trkPoss[j] == trackAt(d.hits[j]).pos
  }

  /** Every doublet of a collection is well formed. */
  predicate AllWellFormed(ds: seq<Doublet>, trackAt: TrkHit -> TrackSample)
  {
    forall k :: 0 <= k < |ds| ==> WellFormed(ds[k], trackAt)
  }

  /** Two consecutive doublets never share both station and panel. */
  predicate Separated(ds: seq<Doublet>)
  {
    forall i :: 0 < i < |ds| ==> ds[i - 1].station != ds[i].station || ds[i - 1].panel != ds[i].panel
  }

  /**
   * findDoublets, grouping loop. A new doublet is opened when the station
   * changes, or when the station is the same but the panel changes; otherwise
   * the hit and its track samples are appended to the last doublet.
   */
  method FindDoublets(hits: seq<TrkHit>, minHitDrift: real, trackAt: TrkHit -> TrackSample)
    returns (dcol: seq<Doublet>)
    ensures AllHits(dcol) == RetainedHits(hits, minHitDrift)
    ensures forall k :: 0 <= k < |dcol| ==> WellFormed(dcol[k], trackAt)
    ensures Separated(dcol)
  {
    dcol := [];
    var oldStation: int, oldPanel: int := -1, -1;
    for i := 0 to |hits|
      invariant AllHits(dcol) == RetainedHits(hits[..i], minHitDrift)
      invariant AllWellFormed(dcol, trackAt)
      invariant Separated(dcol)
      invariant dcol == [] ==> oldStation == -1
      invariant dcol != [] ==> oldStation == dcol[|dcol| - 1].station && oldPanel == dcol[|dcol| - 1].panel
    {
      var hit := hits[i];
      var s := trackAt(hit);
      RetainedStep(hits, i, minHitDrift);
      if hit.rdrift < minHitDrift {
        continue;
      }
      var opens := true;
      if hit.station == oldStation {
        opens := hit.panel != oldPanel;
      }
      if opens {
        var d := Doublet(hit.station, hit.panel, hit.wdir, [hit], [s.dir], [s.pos]);
        OpenPreserves(dcol, d, trackAt);
        dcol := dcol + [d];
        oldStation, oldPanel := hit.station, hit.panel;
      } else {
        dcol := Extend(dcol, hit, trackAt);
      }
    }
    assert hits[..|hits|] == hits;
  }

  /** One more input hit adds itself to the retained hits exactly when it passes the cut. */
  lemma RetainedStep(hits: seq<TrkHit>, i: nat, m: real)
    requires i < |hits|
    ensures RetainedHits(hits[..i + 1], m) == RetainedHits(hits[..i], m) + (if Retained(hits[i], m) then [hits[i]] else [])
  {
    assert hits[..i + 1][..i] == hits[..i];
  }

  /** Appending a freshly opened doublet keeps the grouping facts. */
  lemma {:induction false} OpenPreserves(dcol: seq<Doublet>, d: Doublet, trackAt: TrkHit -> TrackSample)
    requires WellFormed(d, trackAt) && AllWellFormed(dcol, trackAt)
    requires dcol != [] ==> dcol[|dcol| - 1].station != d.station || dcol[|dcol| - 1].panel != d.panel
    requires Separated(dcol)
    ensures AllHits(dcol + [d]) == AllHits(dcol) + d.hits
    ensures Separated(dcol + [d])
    ensures AllWellFormed(dcol + [d], trackAt)
  {
    var r := dcol + [d];
    assert r[..|dcol|] == dcol;
    assert forall k :: 0 <= k < |dcol| ==> r[k] == dcol[k];
  }

  /** The grouping with `hit` appended to the last doublet. */
  function Extend(dcol: seq<Doublet>, hit: TrkHit, trackAt: TrkHit -> TrackSample): (r: seq<Doublet>)
    requires dcol != []
    requires AllWellFormed(dcol, trackAt)
    requires hit.station == dcol[|dcol| - 1].station && hit.panel == dcol[|dcol| - 1].panel
    requires Separated(dcol)
    ensures |r| == |dcol| && forall k :: 0 <= k < |r| - 1 ==> r[k] == dcol[k]
    ensures r[|r| - 1].station == dcol[|dcol| - 1].station && r[|r| - 1].panel == dcol[|dcol| - 1].panel
    ensures AllHits(r) == AllHits(dcol) + [hit]
    ensures AllWellFormed(r, trackAt)
    ensures Separated(r)
  {
    var n := |dcol| - 1;
    var last := dcol[n];
    var s := trackAt(hit);
    var d := last.(hits := last.hits + [hit], trkDirs := last.trkDirs + [s.dir], trkPoss := last.trkPoss + [s.pos]);
    assert dcol[n := d][..n] == dcol[..n];
    assert WellFormed(d, trackAt) by {
      forall j | 0 <= j < |d.hits|
        ensures d.hits[j].station == d.station && d.hits[j].panel == d.panel
        ensures d.trkDirs[j] == trackAt(d.hits[j]).dir && d.trkPoss[j] == trackAt(d.hits[j]).pos
      {
        if j < |last.hits| {
          assert d.hits[j] == last.hits[j] && d.trkDirs[j] == last.trkDirs[j] && d.trkPoss[j] == last.trkPoss[j];
        }
      }
    }
    dcol[n := d]
  }

  /** Every member hit of a doublet occurs in AllHits. */
  lemma {:induction false} MemberInAllHits(ds: seq<Doublet>, k: nat, j: nat)
    requires k < |ds| && j < |ds[k].hits|
    ensures ds[k].hits[j] in AllHits(ds)
  {
    var n := |ds| - 1;
    if k < n {
      assert ds[..n][k] == ds[k];
      MemberInAllHits(ds[..n], k, j);
    }
  }

  /** Whatever RetainedHits keeps is an input hit that passes the drift cut. */
  lemma {:induction false} RetainedMember(hs: seq<TrkHit>, m: real, h: TrkHit)
    requires h in RetainedHits(hs, m)
    ensures h in hs && Retained(h, m)
  {
    var n := |hs| - 1;
    if h in RetainedHits(hs[..n], m) {
      RetainedMember(hs[..n], m, h);
    }
  }

  /**
   * A hit whose drift radius is below the minimum belongs to no doublet, and
   * every doublet member is one of the input hits.
   */
  lemma SmallDriftHitsInNoDoublet(hits: seq<TrkHit>, m: real, dcol: seq<Doublet>, k: nat, j: nat)
    requires AllHits(dcol) == RetainedHits(hits, m)
    requires k < |dcol| && j < |dcol[k].hits|
    ensures dcol[k].hits[j] in hits
    ensures !(dcol[k].hits[j].rdrift < m)
  {
    MemberInAllHits(dcol, k, j);
    RetainedMember(hits, m, dcol[k].hits[j]);
  }
}
