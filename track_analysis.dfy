/**
 * The selection logic of the TrackAnalysisReco analyzer: which downstream,
 * upstream and muon track are picked per event, the trigger-bit word, the
 * event weights and proton count, and when an event becomes a tree row.
 */
module TrackAnalysis {
  import opened Base

  /** What the pickers read of a track: first-segment momentum, T0, whether it has a calorimeter cluster. */
  datatype KalSeed = KalSeed(mom: real, t0: real, hasCaloCluster: bool)

  /** Initial value of findBestRecoTrack's running maximum. */
  const NoMomentum: real := -9999.0

  /** Running state of a pick-the-best scan: the index picked so far and the value it set. */
  datatype Best = Best(index: Option<nat>, value: real)

  /** findBestRecoTrack's loop after the first n seeds. */
  function BestRecoScan(kcol: seq<KalSeed>, n: nat): (b: Best)
    requires n <= |kcol|
    ensures b.index.Some? ==> b.index.value < n
  {
    if n == 0 then Best(None, NoMomentum)
    else
      var b := BestRecoScan(kcol, n - 1);
      if kcol[n - 1].mom > b.value then Best(Some(n - 1), kcol[n - 1].mom) else b
  }

  /**
   * The best track is the first one with the strictly greatest momentum; no
   * track is picked iff every momentum is at most -9999 (in particular for an
   * empty collection).
   */
  lemma {:induction false} BestRecoMeaning(kcol: seq<KalSeed>, n: nat)
    requires n <= |kcol|
    ensures BestRecoScan(kcol, n).index.None? <==> forall i :: 0 <= i < n ==> kcol[i].mom <= NoMomentum
    ensures BestRecoScan(kcol, n).index.None? ==> BestRecoScan(kcol, n).value == NoMomentum
    ensures BestRecoScan(kcol, n).index.Some? ==>
      var k := BestRecoScan(kcol, n).index.value;
      && BestRecoScan(kcol, n).value == kcol[k].mom
      && kcol[k].mom > NoMomentum
      && (forall i :: 0 <= i < n ==> kcol[i].mom <= kcol[k].mom)
      && (forall i :: 0 <= i < k ==> kcol[i].mom < kcol[k].mom)
  {
    if n > 0 {
      BestRecoMeaning(kcol, n - 1);
    }
  }

  /** The reflection window: strictly between maxReflectTime and minReflectTime before the downstream T0. */
  predicate InReflectWindow(s: KalSeed, de: KalSeed, minReflectTime: real, maxReflectTime: real)
  {
    s.t0 < de.t0 - minReflectTime && s.t0 > de.t0 - maxReflectTime
  }

  /**
   * findUpstreamTrack as written: the comparison value closest_momentum is
   * never updated, so every seed in the window that is closer to the
   * downstream momentum than 0 is, replaces the previous pick.
   */
  function UpstreamAsWritten(kcol: seq<KalSeed>, de: KalSeed, minRT: real, maxRT: real, n: nat): (r: Option<nat>)
    requires n <= |kcol|
    ensures r.Some? ==> r.value < n
  {
    if n == 0 then None
    else
      var s := kcol[n - 1];
      if InReflectWindow(s, de, minRT, maxRT) && Abs(s.mom - de.mom) < Abs(0.0 - de.mom)
      then Some(n - 1)
      else UpstreamAsWritten(kcol, de, minRT, maxRT, n - 1)
  }

  /** As written, the pick is the LAST windowed seed closer than |demom|, not the closest one. */
  lemma {:induction false} UpstreamAsWrittenIsLast(kcol: seq<KalSeed>, de: KalSeed, minRT: real, maxRT: real, n: nat)
    requires n <= |kcol|
    ensures var r := UpstreamAsWritten(kcol, de, minRT, maxRT, n);
      && (r.None? <==> forall i :: 0 <= i < n ==>
            !(InReflectWindow(kcol[i], de, minRT, maxRT) && Abs(kcol[i].mom - de.mom) < Abs(de.mom)))
      && (r.Some? ==>
            && InReflectWindow(kcol[r.value], de, minRT, maxRT) && Abs(kcol[r.value].mom - de.mom) < Abs(de.mom)
            && forall i :: r.value < i < n ==>
                 !(InReflectWindow(kcol[i], de, minRT, maxRT) && Abs(kcol[i].mom - de.mom) < Abs(de.mom)))
  {
    if n > 0 {
      UpstreamAsWrittenIsLast(kcol, de, minRT, maxRT, n - 1);
    }
  }

  /**
   * The discrepancy: with the downstream track at 100 and two windowed
   * upstream tracks at 100 and 90, the code picks the one at 90.
   */
  lemma UpstreamAsWrittenPicksFarther()
    ensures var de := KalSeed(100.0, 500.0, false);
      var kcol := [KalSeed(100.0, 400.0, false), KalSeed(90.0, 400.0, false)];
      && UpstreamAsWritten(kcol, de, 20.0, 200.0, 2) == Some(1)
      && UpstreamClosestScan(kcol, de, 20.0, 200.0, 2).index == Some(0)
      && Abs(kcol[0].mom - de.mom) < Abs(kcol[1].mom - de.mom)
  {
  }

  /** findUpstreamTrack as intended: closest_momentum follows the pick. */
  function UpstreamClosestScan(kcol: seq<KalSeed>, de: KalSeed, minRT: real, maxRT: real, n: nat): (b: Best)
    requires n <= |kcol|
    ensures b.index.Some? ==> b.index.value < n
  {
    if n == 0 then Best(None, 0.0)
    else
      var b := UpstreamClosestScan(kcol, de, minRT, maxRT, n - 1);
      var s := kcol[n - 1];
      if InReflectWindow(s, de, minRT, maxRT) && Abs(s.mom - de.mom) < Abs(b.value - de.mom)
      then Best(Some(n - 1), s.mom)
      else b
  }

  /**
   * The corrected pick is a windowed seed closer to the downstream momentum
   * than 0 is, no windowed seed is closer, and every earlier windowed seed is
   * strictly farther; nothing is picked iff no windowed seed is closer than 0.
   */
  lemma {:induction false} UpstreamClosestMeaning(kcol: seq<KalSeed>, de: KalSeed, minRT: real, maxRT: real, n: nat)
    requires n <= |kcol|
    ensures var b := UpstreamClosestScan(kcol, de, minRT, maxRT, n);
      && (b.index.None? <==> forall i :: 0 <= i < n && InReflectWindow(kcol[i], de, minRT, maxRT) ==>
            Abs(kcol[i].mom - de.mom) >= Abs(de.mom))
      && (b.index.None? ==> b.value == 0.0)
      && (b.index.Some? ==>
            var k := b.index.value;
            && b.value == kcol[k].mom
            && InReflectWindow(kcol[k], de, minRT, maxRT)
            && Abs(kcol[k].mom - de.mom) < Abs(de.mom)
            && (forall i :: 0 <= i < n && InReflectWindow(kcol[i], de, minRT, maxRT) ==>
                  Abs(kcol[k].mom - de.mom) <= Abs(kcol[i].mom - de.mom))
            && (forall i :: 0 <= i < k && InReflectWindow(kcol[i], de, minRT, maxRT) ==>
                  Abs(kcol[k].mom - de.mom) < Abs(kcol[i].mom - de.mom)))
  {
    UpstreamClosestNone(kcol, de, minRT, maxRT, n);
    if n > 0 {
      UpstreamClosestMeaning(kcol, de, minRT, maxRT, n - 1);
    }
  }

  /** Nothing is picked iff no windowed seed is closer than 0, and the momentum then stays 0. */
  lemma {:induction false} UpstreamClosestNone(kcol: seq<KalSeed>, de: KalSeed, minRT: real, maxRT: real, n: nat)
    requires n <= |kcol|
    ensures var b := UpstreamClosestScan(kcol, de, minRT, maxRT, n);
      && (b.index.None? <==> forall i :: 0 <= i < n && InReflectWindow(kcol[i], de, minRT, maxRT) ==>
            Abs(kcol[i].mom - de.mom) >= Abs(de.mom))
      && (b.index.None? ==> b.value == 0.0)
      && (b.index.Some? ==> b.value == kcol[b.index.value].mom && Abs(b.value - de.mom) < Abs(de.mom))
  {
    if n > 0 {
      UpstreamClosestNone(kcol, de, minRT, maxRT, n - 1);
    }
  }

  /** Running state of findMuonTrack: the pick and maxnover. */
  datatype Overlap = Overlap(index: Option<nat>, maxnover: nat)

  function MuonScan(overlaps: seq<nat>, n: nat): (o: Overlap)
    requires n <= |overlaps|
    ensures o.index.Some? ==> o.index.value < n
  {
    if n == 0 then Overlap(None, 0)
    else
      var o := MuonScan(overlaps, n - 1);
      if overlaps[n - 1] > o.maxnover then Overlap(Some(n - 1), overlaps[n - 1]) else o
  }

  /** The largest of some overlap counts, 0 for none. */
  function MaxOf(xs: seq<nat>): (m: nat)
  {
    if xs == [] then 0
    else
      var m := MaxOf(xs[..|xs| - 1]);
      if xs[|xs| - 1] > m then xs[|xs| - 1] else m
  }

  /**
   * The muon track is the first one with the strictly greatest, positive
   * hit overlap; none is picked iff every overlap is 0; and maxnover ends as
   * the largest overlap.
   */
  lemma {:induction false} MuonMeaning(overlaps: seq<nat>, n: nat)
    requires n <= |overlaps|
    ensures MuonScan(overlaps, n).maxnover == MaxOf(overlaps[..n])
    ensures forall i :: 0 <= i < n ==> overlaps[i] <= MaxOf(overlaps[..n])
    ensures MuonScan(overlaps, n).index.None? <==> forall i :: 0 <= i < n ==> overlaps[i] == 0
    ensures MuonScan(overlaps, n).index.None? ==> MuonScan(overlaps, n).maxnover == 0
    ensures MuonScan(overlaps, n).index.Some? ==>
      var k := MuonScan(overlaps, n).index.value;
      && overlaps[k] > 0 && overlaps[k] == MaxOf(overlaps[..n]) && MuonScan(overlaps, n).maxnover == overlaps[k]
      && (forall i :: 0 <= i < k ==> overlaps[i] < overlaps[k])
  {
    if n > 0 {
      MuonMeaning(overlaps, n - 1);
      assert overlaps[..n][..n - 1] == overlaps[..n - 1];
    }
  }

  /** The bit of trigger path `id` in the 32-bit trigger word. */
  function Bit(id: nat): bv32
    requires id < 32
  {
    1 << (id as bv5)
  }

  /** The trigger word after fillTriggerBits has looked at the first n paths. */
  function TriggerWord(accept: seq<bool>, n: nat): bv32
    requires n <= |accept|
  {
    if n == 0 then 0
    else if accept[n - 1] && n - 1 < 32 then TriggerWord(accept, n - 1) | Bit(n - 1)
    else TriggerWord(accept, n - 1)
  }

  /** Bit id of the trigger word is set iff path id exists and accepted the event. */
  lemma {:induction false} TriggerWordBits(accept: seq<bool>, n: nat, id: nat)
    requires n <= |accept| && id < 32
    ensures TriggerWord(accept, n) & Bit(id) != 0 <==> id < n && accept[id]
  {
    if n > 0 {
      TriggerWordBits(accept, n - 1, id);
      var w := TriggerWord(accept, n - 1);
      if accept[n - 1] && n - 1 < 32 {
        BitAlgebra(w, n - 1, id);
      }
    }
  }

  lemma BitAlgebra(w: bv32, i: nat, id: nat)
    requires i < 32 && id < 32
    ensures (w | Bit(i)) & Bit(id) != 0 <==> (w & Bit(id) != 0 || i == id)
  {
    var b, c := Bit(i), Bit(id);
    assert (w | b) & c == (w & c) | (b & c);
    BitsMeet(i, id);
  }

  /** Two single-bit masks meet iff they are the same bit. */
  lemma BitsMeet(i: nat, id: nat)
    requires i < 32 && id < 32
    ensures Bit(i) & Bit(id) != 0 <==> i == id
  {
  }

  /** The proton count written for a PBI weight handle. */
  function NProtons(meanPBI: real, weight: real): real
  {
    if meanPBI > 0.0 then meanPBI * weight else 1.0
  }

  /** One event-weight product: the label of the module that made it and its weight. */
  datatype EventWeight = EventWeight(moduleLabel: string, weight: real)

  /** The weights in handle order. */
  function Weights(hs: seq<EventWeight>): (ws: seq<real>)
    ensures |ws| == |hs|
  {
    if hs == [] then [] else Weights(hs[..|hs| - 1]) + [hs[|hs| - 1].weight]
  }

  lemma {:induction false} WeightsInOrder(hs: seq<EventWeight>)
    ensures forall i :: 0 <= i < |hs| ==> Weights(hs)[i] == hs[i].weight
  {
    if hs != [] {
      WeightsInOrder(hs[..|hs| - 1]);
    }
  }

  /** The last handle made by the PBI-weight module, if any. */
  function LastPbi(hs: seq<EventWeight>, pbiLabel: string): (r: Option<nat>)
    ensures r.Some? ==> r.value < |hs| && hs[r.value].moduleLabel == pbiLabel
    ensures r.Some? ==> forall i :: r.value < i < |hs| ==> hs[i].moduleLabel != pbiLabel
    ensures r.None? ==> forall i :: 0 <= i < |hs| ==> hs[i].moduleLabel != pbiLabel
  {
    if hs == [] then None
    else if hs[|hs| - 1].moduleLabel == pbiLabel then Some(|hs| - 1)
    else LastPbi(hs[..|hs| - 1], pbiLabel)
  }

  /** The hit overlap of every muon track with the downstream track. */
  function Overlaps(nOverlap: (KalSeed, KalSeed) -> nat, kcol: seq<KalSeed>, de: KalSeed): (ovs: seq<nat>)
    ensures |ovs| == |kcol| && forall i :: 0 <= i < |kcol| ==> ovs[i] == nOverlap(kcol[i], de)
  {
    seq(|kcol|, i requires 0 <= i < |kcol| => nOverlap(kcol[i], de))
  }

  /** Track counts of the tree row. */
  datatype TrkCount = TrkCount(nde: nat, nue: nat, ndm: nat, ndmo: nat, ndec: nat)

  /** Event identification and proton count of the tree row. */
  datatype EventInfo = EventInfo(eventid: nat, runid: nat, subrunid: nat, nprotons: real)

  /** The analyzer's configuration as far as the selection logic reads it. */
  datatype AnalysisConfig = AnalysisConfig(
    minReflectTime: real, maxReflectTime: real, processEmptyEvents: bool,
    fillTriggerInfo: bool, pbiWeightLabel: string)

  /** Defaults: reflection window 20 to 200 ns, empty events skipped, trigger bits not filled. */
  function DefaultAnalysisConfig(pbiWeightLabel: string): (c: AnalysisConfig)
    ensures c.minReflectTime == 20.0 && c.maxReflectTime == 200.0
    ensures !c.processEmptyEvents && !c.fillTriggerInfo
  {
    AnalysisConfig(20.0, 200.0, false, false, pbiWeightLabel)
  }

  /** What analyze reads of an event. */
  datatype Event = Event(
    eventid: nat, runid: nat, subrunid: nat,
    de: seq<KalSeed>, ue: seq<KalSeed>, dm: seq<KalSeed>,
    triggerAccept: seq<bool>, weights: seq<EventWeight>)

  class TrackAnalysisReco {
    const conf: AnalysisConfig
    /** TrkComp::nOverlap: number of hits two tracks share. */
    const nOverlap: (KalSeed, KalSeed) -> nat
    var tcnt: TrkCount
    var trigbits: bv32
    var meanPBI: real
    var einfo: EventInfo
    var weights: seq<real>
    /** Rows filled into the tree so far. */
    var rows: nat

    constructor(conf: AnalysisConfig, nOverlap: (KalSeed, KalSeed) -> nat)
      ensures this.conf == conf && this.nOverlap == nOverlap && rows == 0
    {
      this.conf := conf;
      this.nOverlap := nOverlap;
      tcnt := TrkCount(0, 0, 0, 0, 0);
      trigbits := 0;
      einfo := EventInfo(0, 0, 0, 0.0);
      weights := [];
      rows := 0;
    }

    /** beginSubRun: the mean proton-bunch intensity is taken when the product is there. */
    method BeginSubRun(intensity: Option<real>)
      modifies this
      ensures meanPBI == (if intensity.Some? then intensity.value else old(meanPBI))
      ensures tcnt == old(tcnt) && rows == old(rows) && einfo == old(einfo) && weights == old(weights)
      ensures trigbits == old(trigbits)
    {
      if intensity.Some? {
        meanPBI := intensity.value;
      }
    }

    /** findBestRecoTrack. */
    method FindBestRecoTrack(kcol: seq<KalSeed>) returns (r: Option<nat>)
      modifies this
      ensures r == BestRecoScan(kcol, |kcol|).index
      ensures tcnt == old(tcnt).(nde := |kcol|)
      ensures rows == old(rows) && meanPBI == old(meanPBI) && einfo == old(einfo)
      ensures weights == old(weights) && trigbits == old(trigbits)
    {
      r := None;
      tcnt := tcnt.(nde := |kcol|);
      var maxMomentum := NoMomentum;
      for i := 0 to |kcol|
        invariant Best(r, maxMomentum) == BestRecoScan(kcol, i)
      {
        var thisMomentum := kcol[i].mom;
        if thisMomentum > maxMomentum {
          r := Some(i);
          maxMomentum := thisMomentum;
        }
      }
    }

    /**
     * findUpstreamTrack as the source has it: closest_momentum is set to 0
     * and never updated, so the pick is the last seed in the reflection
     * window whose momentum is closer to the downstream one than 0 is.
     */
    method FindUpstreamTrack(kcol: seq<KalSeed>, de: KalSeed) returns (r: Option<nat>)
      modifies this
      ensures r == UpstreamAsWritten(kcol, de, conf.minReflectTime, conf.maxReflectTime, |kcol|)
      ensures tcnt == old(tcnt).(nue := |kcol|)
      ensures rows == old(rows) && meanPBI == old(meanPBI) && einfo == old(einfo)
      ensures weights == old(weights) && trigbits == old(trigbits)
    {
      r := None;
      tcnt := tcnt.(nue := |kcol|);
      var demom := de.mom;
      var closestMomentum := 0.0;
      for i := 0 to |kcol|
        invariant r == UpstreamAsWritten(kcol, de, conf.minReflectTime, conf.maxReflectTime, i)
      {
        if kcol[i].t0 < de.t0 - conf.minReflectTime && kcol[i].t0 > de.t0 - conf.maxReflectTime {
          var thisUeMomentum := kcol[i].mom;
          if Abs(thisUeMomentum - demom) < Abs(closestMomentum - demom) {
            r := Some(i);
          }
        }
      }
    }

    /** findMuonTrack: the pick, and maxnover stored in the counts. */
    method FindMuonTrack(kcol: seq<KalSeed>, de: KalSeed) returns (r: Option<nat>)
      modifies this
      ensures var ovs := Overlaps(nOverlap, kcol, de);
        && r == MuonScan(ovs, |kcol|).index
        && tcnt == old(tcnt).(ndm := |kcol|, ndmo := MaxOf(ovs))
      ensures rows == old(rows) && meanPBI == old(meanPBI) && einfo == old(einfo)
      ensures weights == old(weights) && trigbits == old(trigbits)
    {
      ghost var ovs := Overlaps(nOverlap, kcol, de);
      r := None;
      tcnt := tcnt.(ndm := |kcol|);
      var maxnover: nat := 0;
      for i := 0 to |kcol|
        invariant Overlap(r, maxnover) == MuonScan(ovs, i)
        invariant tcnt == old(tcnt).(ndm := |kcol|)
      {
        var nover := nOverlap(kcol[i], de);
        if nover > maxnover {
          maxnover := nover;
          r := Some(i);
        }
      }
      MuonMeaning(ovs, |kcol|);
      assert ovs[..|kcol|] == ovs;
      tcnt := tcnt.(ndmo := maxnover);
    }

    /** fillTriggerBits: the word is cleared, then the bit of every accepting path is set. */
    method FillTriggerBits(accept: seq<bool>)
      modifies this
      ensures trigbits == TriggerWord(accept, |accept|)
      ensures tcnt == old(tcnt) && rows == old(rows) && meanPBI == old(meanPBI)
      ensures einfo == old(einfo) && weights == old(weights)
    {
      var bits: bv32 := 0;
      for id := 0 to |accept|
        invariant bits == TriggerWord(accept, id)
      {
        if accept[id] && id < 32 {
          bits := bits | Bit(id);
        }
      }
      trigbits := bits;
    }

    /**
     * fillEventInfo: the event ids are stored, the weights are collected in
     * handle order, and a PBI-weight handle sets the proton count.
     */
    method FillEventInfo(e: Event)
      modifies this
      ensures weights == Weights(e.weights)
      ensures einfo.eventid == e.eventid && einfo.runid == e.runid && einfo.subrunid == e.subrunid
      ensures einfo.nprotons == (match LastPbi(e.weights, conf.pbiWeightLabel)
                                 case None => old(einfo.nprotons)
                                 case Some(k) => NProtons(meanPBI, e.weights[k].weight))
      ensures tcnt == old(tcnt) && rows == old(rows) && meanPBI == old(meanPBI) && trigbits == old(trigbits)
    {
      var info := einfo.(eventid := e.eventid, runid := e.runid, subrunid := e.subrunid);
      var ws: seq<real> := [];
      for i := 0 to |e.weights|
        invariant ws == Weights(e.weights[..i])
        invariant info.eventid == e.eventid && info.runid == e.runid && info.subrunid == e.subrunid
        invariant info.nprotons == (match LastPbi(e.weights[..i], conf.pbiWeightLabel)
                                    case None => einfo.nprotons
                                    case Some(k) => NProtons(meanPBI, e.weights[k].weight))
      {
        assert e.weights[..i + 1][..i] == e.weights[..i];
        var weight := e.weights[i].weight;
        if e.weights[i].moduleLabel == conf.pbiWeightLabel {
          if meanPBI > 0.0 {
            info := info.(nprotons := meanPBI * weight);
          } else {
            info := info.(nprotons := 1.0);
          }
        }
        ws := ws + [weight];
      }
      assert e.weights[..|e.weights|] == e.weights;
      einfo := info;
      weights := ws;
    }

    /** resetBranches, for the branches this model keeps: counts, event info and weights are cleared. */
    method ResetBranches()
      modifies this
      ensures tcnt == TrkCount(0, 0, 0, 0, 0) && einfo == EventInfo(0, 0, 0, 0.0) && weights == []
      ensures rows == old(rows) && meanPBI == old(meanPBI) && trigbits == old(trigbits)
    {
      tcnt := TrkCount(0, 0, 0, 0, 0);
      einfo := EventInfo(0, 0, 0, 0.0);
      weights := [];
    }

    /**
     * analyze, its selection part: optionally fill the trigger bits, reset
     * the branches, pick the best downstream track and, if there is one, the
     * upstream and muon tracks that go with it; the row is filled iff a
     * downstream track was picked or empty events are processed.
     */
    method Analyze(e: Event) returns (filled: bool, ide: Option<nat>, iue: Option<nat>, idm: Option<nat>)
      modifies this
      ensures ide == BestRecoScan(e.de, |e.de|).index
      ensures ide.None? <==> forall i :: 0 <= i < |e.de| ==> e.de[i].mom <= NoMomentum
      ensures ide.Some? ==>
        && iue == UpstreamAsWritten(e.ue, e.de[ide.value], conf.minReflectTime, conf.maxReflectTime, |e.ue|)
        && idm == MuonScan(Overlaps(nOverlap, e.dm, e.de[ide.value]), |e.dm|).index
        && tcnt.ndec == (if e.de[ide.value].hasCaloCluster then 1 else 0)
      ensures ide.None? ==> iue.None? && idm.None? && tcnt == TrkCount(|e.de|, 0, 0, 0, 0)
      ensures tcnt.nde == |e.de|
      ensures filled <==> ide.Some? || conf.processEmptyEvents
      ensures rows == old(rows) + (if filled then 1 else 0)
      ensures filled ==> weights == Weights(e.weights)
                         && einfo.eventid == e.eventid && einfo.runid == e.runid && einfo.subrunid == e.subrunid
      ensures !filled ==> weights == [] && einfo == EventInfo(0, 0, 0, 0.0)
      ensures conf.fillTriggerInfo ==> trigbits == TriggerWord(e.triggerAccept, |e.triggerAccept|)
      ensures !conf.fillTriggerInfo ==> trigbits == old(trigbits)
    {
      if conf.fillTriggerInfo {
        FillTriggerBits(e.triggerAccept);
      }
      ResetBranches();
      ide := FindBestRecoTrack(e.de);
      BestRecoMeaning(e.de, |e.de|);
      iue, idm := None, None;
      if ide.Some? {
        var dekseed := e.de[ide.value];
        iue := FindUpstreamTrack(e.ue, dekseed);
        idm := FindMuonTrack(e.dm, dekseed);
        if dekseed.hasCaloCluster {
          tcnt := tcnt.(ndec := 1);
        }
      }
      filled := ide.Some? || conf.processEmptyEvents;
      if filled {
        FillEventInfo(e);
        rows := rows + 1;
      }
    }
  }
}
