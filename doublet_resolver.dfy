/**
 * The decision KalFitHack::markDoublets takes for each doublet: only two-hit
 * doublets are looked at; the four tangent lines to the two drift circles are
 * compared with the averaged track slope; the slope table receives the signs
 * of the first closest candidate inside the 0.10 window, and the ambiguity
 * table receives them only when that candidate is the sole one in the window
 * and the drift-radius veto lets it through.
 */
module DoubletResolver {
  import opened Base
  import opened KalFitTypes

  /** An ambiguity produced by findLines. */
  type Sign = s: int | s == -1 || s == 1 witness 1

  /** One tangent line: its slope and the ambiguity it implies for each hit. */
  datatype Tangent = Tangent(slope: real, ambA: Sign, ambB: Sign)

  /** findLines' sign rule: +1 when the side dot product is positive, else -1. */
  function SideSign(dot: real): (s: Sign)
    ensures s == 1 <==> dot > 0.0
  {
    if dot > 0.0 then 1 else -1
  }

  /** The sign outputs of findLines; the slopes are passed through from the geometry. */
  function FindLines(raw: Quad<RawTangent>): (q: Quad<Tangent>)
    ensures forall i :: 0 <= i < 4 ==>
      && q.At(i).slope == raw.At(i).slope
      && (q.At(i).ambA == 1 <==> raw.At(i).sideA > 0.0)
      && (q.At(i).ambB == 1 <==> raw.At(i).sideB > 0.0)
  {
    Quad(Tangent(raw.c0.slope, SideSign(raw.c0.sideA), SideSign(raw.c0.sideB)),
         Tangent(raw.c1.slope, SideSign(raw.c1.sideA), SideSign(raw.c1.sideB)),
         Tangent(raw.c2.slope, SideSign(raw.c2.sideA), SideSign(raw.c2.sideB)),
         Tangent(raw.c3.slope, SideSign(raw.c3.sideA), SideSign(raw.c3.sideB)))
  }

  /**
   * trkSlopeSign = int(-trkslope/|trkslope|): the opposite sign of the slope.
   * For a zero slope the source divides 0 by 0; the model uses 0 there.
   */
  function SlopeSign(trkslope: real): (s: int)
    ensures -1 <= s <= 1
    ensures s == 0 <==> trkslope == 0.0
    ensures (s as real) * trkslope <= 0.0
  {
    if trkslope > 0.0 then -1 else if trkslope < 0.0 then 1 else 0
  }

  /** Distance between the track slope and candidate i. */
  function Dist(ts: real, q: Quad<Tangent>, i: nat): real
    requires i < 4
  {
    Abs(ts - q.At(i).slope)
  }

  /** Candidate i lies strictly inside the slope window. */
  predicate InWindow(ts: real, q: Quad<Tangent>, i: nat)
    requires i < 4
  {
    Dist(ts, q, i) < MaxSlopeDist
  }

  /** The candidates among the first n that lie inside the window. */
  function WindowSet(ts: real, q: Quad<Tangent>, n: nat): set<nat>
    requires n <= 4
  {
    set i: nat | i < n && InWindow(ts, q, i)
  }

  /** Variables of markDoublets' candidate loop: nsol, the candidate last written, slopeDist. */
  datatype ScanState = ScanState(nsol: nat, best: Option<nat>, dist: real)

  /** The candidate loop of markDoublets after its first n rounds. */
  function Scan(ts: real, q: Quad<Tangent>, n: nat): (s: ScanState)
    requires n <= 4
    ensures s.nsol <= n
    ensures s.best.Some? ==> s.best.value < n
  {
    if n == 0 then ScanState(0, None, MaxSlopeDist)
    else
      var s := Scan(ts, q, n - 1);
      var dsl := Abs(ts - q.At(n - 1).slope);
      if dsl < MaxSlopeDist then
        if dsl < s.dist then ScanState(s.nsol + 1, Some(n - 1), dsl)
        else ScanState(s.nsol + 1, s.best, s.dist)
      else s
  }

  /**
   * What the candidate loop computes: nsol counts the candidates strictly
   * inside the window; the candidate kept is in the window, attains the
   * minimum distance, and every earlier candidate in the window is strictly
   * farther (the first closest wins); nothing is kept iff no candidate is in
   * the window; and when nsol is 1 the kept candidate is the only one in it.
   */
  lemma ScanMeaning(ts: real, q: Quad<Tangent>, n: nat)
    requires n <= 4
    ensures Scan(ts, q, n).nsol == |WindowSet(ts, q, n)|
    ensures Scan(ts, q, n).best.None? <==> WindowSet(ts, q, n) == {}
    ensures Scan(ts, q, n).best.None? ==> Scan(ts, q, n).dist == MaxSlopeDist
    ensures Scan(ts, q, n).best.Some? ==>
      var k := Scan(ts, q, n).best.value;
      && InWindow(ts, q, k)
      && Scan(ts, q, n).dist == Dist(ts, q, k)
      && (forall i: nat :: i < n && InWindow(ts, q, i) ==> Dist(ts, q, k) <= Dist(ts, q, i))
      && (forall i: nat :: i < k && InWindow(ts, q, i) ==> Dist(ts, q, k) < Dist(ts, q, i))
    ensures Scan(ts, q, n).nsol == 1 ==>
      Scan(ts, q, n).best.Some? && WindowSet(ts, q, n) == {Scan(ts, q, n).best.value}
  {
    ScanCount(ts, q, n);
    ScanBest(ts, q, n);
    var s := Scan(ts, q, n);
    if s.best.None? {
      assert |WindowSet(ts, q, n)| == 0;
    }
    if s.nsol == 1 {
      var k := s.best.value;
      var w := WindowSet(ts, q, n);
      assert k in w;
      assert |w - {k}| == 0;
    }
  }

  /** nsol counts the window, and nothing is kept iff nothing was counted. */
  lemma {:induction false} ScanCount(ts: real, q: Quad<Tangent>, n: nat)
    requires n <= 4
    ensures Scan(ts, q, n).nsol == |WindowSet(ts, q, n)|
    ensures Scan(ts, q, n).best.None? <==> Scan(ts, q, n).nsol == 0
    ensures Scan(ts, q, n).best.None? ==> Scan(ts, q, n).dist == MaxSlopeDist
  {
    if n > 0 {
      ScanCount(ts, q, n - 1);
      WindowSetStep(ts, q, n);
    }
  }

  /** The window of the first n candidates grows by candidate n - 1 when it is inside. */
  lemma WindowSetStep(ts: real, q: Quad<Tangent>, n: nat)
    requires 0 < n <= 4
    ensures n - 1 !in WindowSet(ts, q, n - 1)
    ensures InWindow(ts, q, n - 1) ==> WindowSet(ts, q, n) == WindowSet(ts, q, n - 1) + {n - 1}
    ensures !InWindow(ts, q, n - 1) ==> WindowSet(ts, q, n) == WindowSet(ts, q, n - 1)
  {
  }

  /** The kept candidate is in the window, at the distance recorded. */
  lemma {:induction false} ScanBestIn(ts: real, q: Quad<Tangent>, n: nat)
    requires n <= 4
    ensures Scan(ts, q, n).best.Some? ==>
      InWindow(ts, q, Scan(ts, q, n).best.value) && Scan(ts, q, n).dist == Dist(ts, q, Scan(ts, q, n).best.value)
  {
    if n > 0 {
      ScanBestIn(ts, q, n - 1);
    }
  }

  /** The kept candidate is the first closest one in the window. */
  lemma {:induction false} ScanBest(ts: real, q: Quad<Tangent>, n: nat)
    requires n <= 4
    ensures Scan(ts, q, n).best.Some? ==>
      var k := Scan(ts, q, n).best.value;
      && InWindow(ts, q, k)
      && Scan(ts, q, n).dist == Dist(ts, q, k)
      && (forall i: nat :: i < n && InWindow(ts, q, i) ==> Dist(ts, q, k) <= Dist(ts, q, i))
      && (forall i: nat :: i < k && InWindow(ts, q, i) ==> Dist(ts, q, k) < Dist(ts, q, i))
  {
    ScanBestIn(ts, q, n);
    if n > 0 {
      ScanBest(ts, q, n - 1);
      ScanCount(ts, q, n - 1);
      if Scan(ts, q, n - 1).best.None? {
        forall i: nat | i < n - 1
          ensures !InWindow(ts, q, i)
        {
          assert i !in WindowSet(ts, q, n - 1);
        }
      }
    }
  }

  /** The table of slope-based signs as the candidate loop leaves it after n rounds. */
  function SlopeAfter(t: seq<int>, id1: nat, id2: nat, ts: real, q: Quad<Tangent>, n: nat): (r: seq<int>)
    requires n <= 4 && |t| == TableSize && id1 < TableSize && id2 < TableSize
    ensures |r| == TableSize
  {
    var sign := SlopeSign(ts);
    match Scan(ts, q, n).best
    case None => t
    case Some(k) => t[id1 := sign * q.At(k).ambA][id2 := sign * q.At(k).ambB]
  }

  /** The two ambiguity tables, fAmbigVec and fAmbigVecSlope. */
  datatype Tables = Tables(amb: seq<int>, slope: seq<int>)

  predicate TablesOk(t: Tables)
  {
    |t.amb| == TableSize && |t.slope| == TableSize
  }

  /** Both tables reset to the sentinel, as findAndMarkMultiplets leaves them before marking. */
  function FreshTables(): (t: Tables)
    ensures TablesOk(t)
    ensures forall k :: 0 <= k < TableSize ==> t.amb[k] == Sentinel && t.slope[k] == Sentinel
  {
    Tables(seq(TableSize, _ => Sentinel), seq(TableSize, _ => Sentinel))
  }

  /** What markDoublets reads of a two-hit doublet. */
  datatype Pair = Pair(id1: nat, id2: nat, r1: real, r2: real, trkslope: real, lines: Quad<Tangent>)

  /** A doublet markDoublets can process: a pair has a direction sample per hit and in-table ids. */
  predicate Markable(d: Doublet)
  {
    |d.hits| == 2 ==> |d.trkDirs| == 2 && IdsInTable(d.hits)
  }

  /**
   * The pair view of a two-hit doublet: both track directions are taken to
   * the panel frame of the first hit and their dx/dz slopes averaged.
   */
  function PairOf(d: Doublet, svc: Services): (p: Pair)
    requires |d.hits| == 2 && Markable(d)
    ensures p.id1 < TableSize && p.id2 < TableSize
    ensures p.id1 == d.hits[0].shId && p.id2 == d.hits[1].shId
    ensures p.r1 == d.hits[0].rdrift && p.r2 == d.hits[1].rdrift
  {
    var h1, h2 := d.hits[0], d.hits[1];
    var s1 := svc.localSlope(h1, d.trkDirs[0]);
    var s2 := svc.localSlope(h1, d.trkDirs[1]);
    Pair(h1.shId, h2.shId, h1.rdrift, h2.rdrift, (s1 + s2) / 2.0, FindLines(svc.lines(h1, h2)))
  }

  /** Tunables of the decision: fMinDriftDoublet, fDeltaDriftDoublet and the annealing step. */
  datatype Cuts = Cuts(minDriftDoublet: real, deltaDriftDoublet: real, annealingStep: int)

  /** The minimum drift radius for both hits, halved once the annealing step is past 0. */
  function MinDriftRadius(c: Cuts): real
  {
    if c.annealingStep > 0 then c.minDriftDoublet / 2.0 else c.minDriftDoublet
  }

  /** The commit rule, read against the slope table as the candidate loop left it. */
  predicate Commits(p: Pair, slope: seq<int>, c: Cuts)
    requires |slope| == TableSize && p.id1 < TableSize && p.id2 < TableSize
  {
    && Scan(p.trkslope, p.lines, 4).nsol == 1
    && p.r2 > MinDriftRadius(c)
    && p.r1 > MinDriftRadius(c)
    && (slope[p.id1] + slope[p.id2] == 0 || Abs(p.r1 - p.r2) > c.deltaDriftDoublet)
  }

  /** Both tables after markDoublets has processed one pair. */
  function MarkPair(t: Tables, p: Pair, c: Cuts): (r: Tables)
    requires TablesOk(t) && p.id1 < TableSize && p.id2 < TableSize
    ensures TablesOk(r)
  {
    var slope := SlopeAfter(t.slope, p.id1, p.id2, p.trkslope, p.lines, 4);
    var amb := if Commits(p, slope, c) then t.amb[p.id1 := slope[p.id1]][p.id2 := slope[p.id2]] else t.amb;
    Tables(amb, slope)
  }

  /** Both tables after markDoublets has processed one doublet; only pairs are looked at. */
  function MarkOne(t: Tables, d: Doublet, svc: Services, c: Cuts): (r: Tables)
    requires TablesOk(t) && Markable(d)
    ensures TablesOk(r)
  {
    if |d.hits| == 2 then MarkPair(t, PairOf(d, svc), c) else t
  }

  /** Both tables after markDoublets has processed a whole doublet collection in order. */
  function MarkAll(t: Tables, ds: seq<Doublet>, svc: Services, c: Cuts): (r: Tables)
    requires TablesOk(t) && forall i :: 0 <= i < |ds| ==> Markable(ds[i])
    ensures TablesOk(r)
  {
    if ds == [] then t
    else MarkOne(MarkAll(t, ds[..|ds| - 1], svc, c), ds[|ds| - 1], svc, c)
  }

  /**
   * One pair: only the two straws of the pair can change in either table. The
   * slope table receives sign times the candidate's ambiguities exactly when
   * some candidate is in the window, and that candidate is the first closest.
   * The ambiguity table changes only under the commit rule, and then receives
   * the slope-table values; a committed value is +1 or -1 when the track slope
   * is not zero.
   */
  lemma PairDecision(t: Tables, p: Pair, c: Cuts)
    requires TablesOk(t) && p.id1 < TableSize && p.id2 < TableSize
    ensures var r := MarkPair(t, p, c);
      && (forall k :: 0 <= k < TableSize && k != p.id1 && k != p.id2 ==>
            r.amb[k] == t.amb[k] && r.slope[k] == t.slope[k])
      && (WindowSet(p.trkslope, p.lines, 4) == {} ==> r == t)
      && (!Commits(p, r.slope, c) ==> r.amb == t.amb)
      && (Commits(p, r.slope, c) ==>
            Scan(p.trkslope, p.lines, 4).best.Some? &&
            var k := Scan(p.trkslope, p.lines, 4).best.value;
            && WindowSet(p.trkslope, p.lines, 4) == {k}
            && r.amb[p.id2] == SlopeSign(p.trkslope) * p.lines.At(k).ambB
            && (p.id1 != p.id2 ==> r.amb[p.id1] == SlopeSign(p.trkslope) * p.lines.At(k).ambA)
            && (p.trkslope != 0.0 ==> r.amb[p.id1] in {-1, 1} && r.amb[p.id2] in {-1, 1}))
  {
    ScanMeaning(p.trkslope, p.lines, 4);
  }

  /** The straw indices of all two-hit doublets. */
  function PairIds(ds: seq<Doublet>): set<nat>
  {
    if ds == [] then {}
    else
      var d := ds[|ds| - 1];
      PairIds(ds[..|ds| - 1]) + (if |d.hits| == 2 then {d.hits[0].shId, d.hits[1].shId} else {})
  }

  /** Every entry is the sentinel or a sign in {-1, 0, +1}. */
  predicate SentinelOrSign(s: seq<int>)
  {
    forall k :: 0 <= k < |s| ==> s[k] == Sentinel || -1 <= s[k] <= 1
  }

  /**
   * Sentinel discipline of findAndMarkMultiplets: starting from freshly reset
   * tables, every entry of both tables is either the sentinel or a sign, and a
   * straw that is not in a two-hit doublet keeps the sentinel in both tables.
   * Hence an entry is greater than -10 exactly when a doublet resolved it.
   */
  lemma {:induction false} SentinelDiscipline(ds: seq<Doublet>, svc: Services, c: Cuts)
    requires forall i :: 0 <= i < |ds| ==> Markable(ds[i])
    ensures var r := MarkAll(FreshTables(), ds, svc, c);
      && SentinelOrSign(r.amb) && SentinelOrSign(r.slope)
      && (forall k :: 0 <= k < TableSize && k !in PairIds(ds) ==> r.amb[k] == Sentinel && r.slope[k] == Sentinel)
      && (forall k :: 0 <= k < TableSize ==> (r.amb[k] > ResolvedAbove <==> r.amb[k] != Sentinel))
  {
    if ds != [] {
      var init := ds[..|ds| - 1];
      assert forall i :: 0 <= i < |init| ==> Markable(init[i]) by {
        forall i | 0 <= i < |init| ensures Markable(init[i]) { assert init[i] == ds[i]; }
      }
      SentinelDiscipline(init, svc, c);
      var d := ds[|ds| - 1];
      if |d.hits| == 2 {
        PairKeepsSigns(MarkAll(FreshTables(), init, svc, c), PairOf(d, svc), c);
      }
    }
  }

  /** One pair writes signs into its own two straws of either table and nothing else. */
  lemma PairKeepsSigns(t: Tables, p: Pair, c: Cuts)
    requires TablesOk(t) && p.id1 < TableSize && p.id2 < TableSize
    requires SentinelOrSign(t.amb) && SentinelOrSign(t.slope)
    ensures var r := MarkPair(t, p, c);
      && SentinelOrSign(r.amb) && SentinelOrSign(r.slope)
      && (forall k :: 0 <= k < TableSize && k != p.id1 && k != p.id2 ==>
            r.amb[k] == t.amb[k] && r.slope[k] == t.slope[k])
  {
  }
}
