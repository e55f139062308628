/**
 * The per-hit updates the fit driver applies to its hit list: consuming the
 * ambiguity table, assigning the step's external errors, taking the
 * resolver's ambiguities, and the ordering of hits by flight length.
 */
module HitUpdates {
  import opened KalFitTypes

  /** The fixed part of a hit: which straw it is and where along the track it lies. */
  datatype StrawKey = StrawKey(shId: nat, station: nat, panel: nat, wdir: Vec3, flt: real, rdrift: real)

  function KeyOf(h: TrkHit): StrawKey
  {
    StrawKey(h.shId, h.station, h.panel, h.wdir, h.flt, h.rdrift)
  }

  /** The same hits in the same order; only their mutable state may differ. */
  predicate SameStraws(a: seq<TrkHit>, b: seq<TrkHit>)
  {
    |a| == |b| && forall i :: 0 <= i < |a| ==> KeyOf(a[i]) == KeyOf(b[i])
  }

  /** The straw keys of the hits, in order. */
  function Keys(hs: seq<TrkHit>): (ks: seq<StrawKey>)
    ensures |ks| == |hs|
    ensures forall i :: 0 <= i < |hs| ==> ks[i] == KeyOf(hs[i])
  {
    if hs == [] then [] else Keys(hs[..|hs| - 1]) + [KeyOf(hs[|hs| - 1])]
  }

  /** Two hit lists are on the same straws, index by index, exactly when their key lists are equal. */
  lemma SameStrawsKeys(a: seq<TrkHit>, b: seq<TrkHit>)
    ensures SameStraws(a, b) <==> Keys(a) == Keys(b)
  {
    if Keys(a) == Keys(b) {
      forall i | 0 <= i < |a| ensures KeyOf(a[i]) == KeyOf(b[i]) {
        assert Keys(a)[i] == Keys(b)[i];
      }
    }
  }

  /** The keys of two lists joined are the keys of each, joined. */
  lemma KeysAppend(a: seq<TrkHit>, b: seq<TrkHit>)
    ensures Keys(a + b) == Keys(a) + Keys(b)
  {
    assert forall i :: 0 <= i < |a| + |b| ==> Keys(a + b)[i] == (Keys(a) + Keys(b))[i];
  }

  /** Reordering the hits reorders their keys: a permutation of hits has a permutation of keys. */
  lemma {:induction false} PermutedKeys(a: seq<TrkHit>, b: seq<TrkHit>)
    requires multiset(a) == multiset(b)
    ensures multiset(Keys(a)) == multiset(Keys(b))
  {
    if a != [] {
      var n := |a| - 1;
      var x := a[n];
      assert x in multiset(b);
      var j :| 0 <= j < |b| && b[j] == x;
      var rest := b[..j] + b[j + 1..];
      RemoveOne(a, n);
      RemoveOne(b, j);
      assert a[..n] + a[n + 1..] == a[..n];
      PermutedKeys(a[..n], rest);
      KeysRemoveOne(a, n);
      KeysRemoveOne(b, j);
    }
  }

  /** Dropping element j of a sequence drops one occurrence of it from the multiset. */
  lemma {:induction false} RemoveOne(s: seq<TrkHit>, j: nat)
    requires j < |s|
    ensures multiset(s[..j] + s[j + 1..]) == multiset(s) - multiset{s[j]}
  {
    assert s == s[..j] + [s[j]] + s[j + 1..];
  }

  /** Dropping hit j drops the key of hit j from the keys. */
  lemma {:induction false} KeysRemoveOne(s: seq<TrkHit>, j: nat)
    requires j < |s|
    ensures multiset(Keys(s)) == multiset(Keys(s[..j] + s[j + 1..])) + multiset{KeyOf(s[j])}
  {
    var t := s[..j] + s[j + 1..];
    var k, r := Keys(s), Keys(t);
    assert k == k[..j] + [k[j]] + k[j + 1..];
    forall i | 0 <= i < |r|
      ensures r[i] == (k[..j] + k[j + 1..])[i]
    {
      if i < j {
        assert t[i] == s[i];
      } else {
        assert t[i] == s[i + 1];
      }
    }
    assert r == k[..j] + k[j + 1..];
  }

  /** No hit that was inactive in `a` is active in `b`. */
  predicate NoneReactivated(a: seq<TrkHit>, b: seq<TrkHit>)
    requires |a| == |b|
  {
    forall i :: 0 <= i < |a| ==> b[i].active ==> a[i].active
  }

  /** SameStraws and NoneReactivated compose along a chain of updates. */
  lemma ChainSteps(a: seq<TrkHit>, b: seq<TrkHit>, c: seq<TrkHit>)
    requires SameStraws(a, b) && SameStraws(b, c)
    ensures SameStraws(a, c)
    ensures NoneReactivated(a, b) && NoneReactivated(b, c) ==> NoneReactivated(a, c)
  {
  }

  /** An update that keeps the straws, reactivates nothing and keeps every external error. */
  predicate Keeps(a: seq<TrkHit>, b: seq<TrkHit>)
  {
    SameStraws(a, b) && NoneReactivated(a, b) && forall i :: 0 <= i < |a| ==> b[i].extErr == a[i].extErr
  }

  lemma KeepsChain(a: seq<TrkHit>, b: seq<TrkHit>, c: seq<TrkHit>)
    requires Keeps(a, b) && Keeps(b, c)
    ensures Keeps(a, c)
  {
  }

  /** Straw indices are part of what SameStraws keeps. */
  lemma IdsKept(a: seq<TrkHit>, b: seq<TrkHit>)
    requires SameStraws(a, b) && IdsInTable(a)
    ensures IdsInTable(b)
  {
    forall i | 0 <= i < |b| ensures b[i].shId < TableSize {
      assert KeyOf(a[i]) == KeyOf(b[i]);
    }
  }

  /**
   * setMultipletsAmbig: every hit whose table entry is above -10 takes that
   * entry as its ambiguity and stops updating it itself; every other hit is
   * left as it was.
   */
  function ApplyTable(hs: seq<TrkHit>, table: seq<int>): (r: seq<TrkHit>)
    requires IdsInTable(hs) && |table| == TableSize
    ensures |r| == |hs|
    ensures forall i :: 0 <= i < |hs| ==>
      if table[hs[i].shId] > ResolvedAbove
      then r[i] == hs[i].(ambig := table[hs[i].shId], ambigUpdate := false)
      else r[i] == hs[i]
  {
    if hs == [] then []
    else
      var h := hs[|hs| - 1];
      var v := table[h.shId];
      ApplyTable(hs[..|hs| - 1], table) + [if v > ResolvedAbove then h.(ambig := v, ambigUpdate := false) else h]
  }

  /** The external error of one step for one hit, given its table entry. */
  function StepError(herr: real, scale: real, useTable: bool, entry: int): real
    requires scale != 0.0
  {
    if useTable && !(entry < ResolvedAbove) then herr / scale else herr
  }

  /**
   * The external-error assignment of fitIteration: while the step is one of
   * the doublet-marking steps, a hit whose table entry is not below -10 gets
   * the step's error divided by the doublet scale, every other hit the step's
   * error; in later steps every hit gets the step's error. Nothing else of a
   * hit changes.
   */
  function ExtErrors(hs: seq<TrkHit>, table: seq<int>, herr: real, scale: real, useTable: bool): (r: seq<TrkHit>)
    requires IdsInTable(hs) && |table| == TableSize && scale != 0.0
    ensures |r| == |hs|
    ensures forall i :: 0 <= i < |hs| ==>
      && r[i] == hs[i].(extErr := r[i].extErr)
      && (r[i].extErr == herr || (useTable && r[i].extErr == herr / scale))
      && (!useTable || table[hs[i].shId] < ResolvedAbove ==> r[i].extErr == herr)
      && (useTable && !(table[hs[i].shId] < ResolvedAbove) ==> r[i].extErr == herr / scale)
  {
    if hs == [] then []
    else
      var h := hs[|hs| - 1];
      ExtErrors(hs[..|hs| - 1], table, herr, scale, useTable)
        + [h.(extErr := StepError(herr, scale, useTable, table[h.shId]))]
  }

  /**
   * On a table whose entries are the sentinel or signs, the error scaling and
   * the table consumption agree: during a marking step a hit gets the reduced
   * error exactly when setMultipletsAmbig fixes its ambiguity.
   */
  lemma ScaledIffConsumed(hs: seq<TrkHit>, table: seq<int>, herr: real, scale: real)
    requires IdsInTable(hs) && |table| == TableSize && scale != 0.0 && herr / scale != herr
    requires forall k :: 0 <= k < |table| ==> table[k] == Sentinel || -1 <= table[k] <= 1
    ensures forall i :: 0 <= i < |hs| ==>
      var reduced := ExtErrors(hs, table, herr, scale, true)[i].extErr == herr / scale;
      var consumed := table[hs[i].shId] != Sentinel
        && ApplyTable(hs, table)[i] == hs[i].(ambig := table[hs[i].shId], ambigUpdate := false);
      reduced <==> consumed
  {
  }

  /** The resolver's ambiguities taken over by the hits (hits beyond its answer keep theirs). */
  function ApplyResolved(hs: seq<TrkHit>, amb: seq<int>): (r: seq<TrkHit>)
    ensures |r| == |hs|
    ensures forall i :: 0 <= i < |hs| ==> r[i] == hs[i].(ambig := r[i].ambig)
    ensures forall i :: 0 <= i < |hs| && i < |amb| ==> r[i].ambig == amb[i]
    ensures forall i :: |amb| <= i < |hs| ==> r[i] == hs[i]
  {
    if hs == [] then []
    else
      var i := |hs| - 1;
      ApplyResolved(hs[..i], amb) + [if i < |amb| then hs[i].(ambig := amb[i]) else hs[i]]
  }

  /** Position of a hit along the fit direction. */
  function OrderKey(dir: FitDirection, h: TrkHit): real
  {
    if dir == Downstream then h.flt else -h.flt
  }

  /**
   * fltlencomp: by increasing flight length for a downstream fit, by
   * decreasing flight length for an upstream one.
   */
  function FltLenLess(dir: FitDirection, x: TrkHit, y: TrkHit): (b: bool)
    ensures b <==> OrderKey(dir, x) < OrderKey(dir, y)
  {
    if dir == Downstream then x.flt < y.flt else y.flt < x.flt
  }

  /** fltlencomp is a strict weak order, as std::sort demands of its comparator. */
  lemma FltLenStrictWeakOrder(dir: FitDirection, x: TrkHit, y: TrkHit, z: TrkHit)
    ensures !FltLenLess(dir, x, x)
    ensures FltLenLess(dir, x, y) ==> !FltLenLess(dir, y, x)
    ensures FltLenLess(dir, x, y) && FltLenLess(dir, y, z) ==> FltLenLess(dir, x, z)
    ensures !FltLenLess(dir, x, y) && !FltLenLess(dir, y, x) && !FltLenLess(dir, y, z) && !FltLenLess(dir, z, y)
      ==> !FltLenLess(dir, x, z) && !FltLenLess(dir, z, x)
  {
  }

  /** No hit is fltlencomp-less than one before it. */
  predicate SortedByFlt(dir: FitDirection, hs: seq<TrkHit>)
  {
    forall i, j :: 0 <= i < j < |hs| ==> OrderKey(dir, hs[i]) <= OrderKey(dir, hs[j])
  }

  /** SortedByFlt says exactly that no hit is fltlencomp-less than an earlier one. */
  lemma SortedMeansNoInversion(dir: FitDirection, hs: seq<TrkHit>)
    ensures SortedByFlt(dir, hs) <==> forall i, j :: 0 <= i < j < |hs| ==> !FltLenLess(dir, hs[j], hs[i])
  {
  }

  /** Updates that keep the straws keep the order. */
  lemma SortedKept(dir: FitDirection, a: seq<TrkHit>, b: seq<TrkHit>)
    requires SameStraws(a, b) && SortedByFlt(dir, a)
    ensures SortedByFlt(dir, b)
  {
    forall i, j | 0 <= i < j < |b| ensures OrderKey(dir, b[i]) <= OrderKey(dir, b[j]) {
      assert KeyOf(a[i]) == KeyOf(b[i]) && KeyOf(a[j]) == KeyOf(b[j]);
    }
  }

  /** Inserts x after every hit that is not fltlencomp-greater than it. */
  method InsertByFlt(dir: FitDirection, r: seq<TrkHit>, x: TrkHit) returns (s: seq<TrkHit>)
    requires SortedByFlt(dir, r)
    ensures SortedByFlt(dir, s)
    ensures multiset(s) == multiset(r) + multiset{x}
  {
    var j := 0;
    while j < |r| && !FltLenLess(dir, x, r[j])
      invariant 0 <= j <= |r|
      invariant forall k :: 0 <= k < j ==> OrderKey(dir, r[k]) <= OrderKey(dir, x)
    {
      j := j + 1;
    }
    s := r[..j] + [x] + r[j..];
    assert r == r[..j] + r[j..];
    InsertKeepsSorted(dir, r, x, j);
  }

  lemma InsertKeepsSorted(dir: FitDirection, r: seq<TrkHit>, x: TrkHit, j: nat)
    requires SortedByFlt(dir, r) && j <= |r|
    requires forall k :: 0 <= k < j ==> OrderKey(dir, r[k]) <= OrderKey(dir, x)
    requires j < |r| ==> OrderKey(dir, x) < OrderKey(dir, r[j])
    ensures SortedByFlt(dir, r[..j] + [x] + r[j..])
  {
    var s := r[..j] + [x] + r[j..];
    forall a, b | 0 <= a < b < |s| ensures OrderKey(dir, s[a]) <= OrderKey(dir, s[b]) {
      if b < j {
        assert s[a] == r[a] && s[b] == r[b];
      } else if b == j {
        assert s[a] == r[a];
      } else if a < j {
        assert s[a] == r[a] && s[b] == r[b - 1];
      } else if a == j {
        assert s[b] == r[b - 1];
      } else {
        assert s[a] == r[a - 1] && s[b] == r[b - 1];
      }
    }
  }

  /** The sort of makeHits and addHits: the same hits, ordered by fltlencomp. */
  method SortByFlt(dir: FitDirection, hs: seq<TrkHit>) returns (r: seq<TrkHit>)
    ensures SortedByFlt(dir, r)
    ensures multiset(r) == multiset(hs)
  {
    r := [];
    for i := 0 to |hs|
      invariant SortedByFlt(dir, r)
      invariant multiset(r) == multiset(hs[..i])
    {
      r := InsertByFlt(dir, r, hs[i]);
      assert hs[..i + 1] == hs[..i] + [hs[i]];
    }
    assert hs[..|hs|] == hs;
  }
}
