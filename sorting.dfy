/**
 * Time-of-flight subtraction, the sort of the hits by corrected time and the
 * index bookkeeping around it (sortedIndex, reverseIndex), and the slices a
 * capture candidate takes out of the sorted hit vectors.
 *
 * TMath::Sort is replaced by SortOrder, an insertion sort on indices whose
 * contract is the one TMath::Sort gives: the indices 0 .. n-1 in an order
 * that makes the keys ascending.
 */
module HitSorting {
  import opened NTagCalculator

  /** A position in detector coordinates [cm]. */
  datatype Vertex = Vertex(x: real, y: real, z: real)

  /** Every index in `s` is below `b`. */
  predicate Bounded(s: seq<nat>, b: nat) {
    forall i :: 0 <= i < |s| ==> s[i] < b
  }

  predicate Distinct(s: seq<nat>) {
    forall i, k :: 0 <= i < k < |s| ==> s[i] != s[k]
  }

  /** `order` lists the indices 0 .. n-1, each exactly once. */
  predicate IsPermutation(order: seq<nat>, n: nat) {
    && |order| == n
    && Bounded(order, n)
    && Distinct(order)
    && (forall k :: 0 <= k < n ==> k in order)
  }

  /** The keys `a` read through the indices `s` are ascending. */
  predicate SortedBy(a: seq<real>, s: seq<nat>)
    requires Bounded(s, |a|)
  {
    forall i, k :: 0 <= i <= k < |s| ==> a[s[i]] <= a[s[k]]
  }

  /** Number of leading indices of `s` whose key is at most a[j]. */
  function InsertPos(a: seq<real>, s: seq<nat>, j: nat): (p: nat)
    requires j < |a| && Bounded(s, |a|)
    ensures p <= |s|
    ensures forall i :: 0 <= i < p ==> a[s[i]] <= a[j]
    ensures p < |s| ==> a[j] < a[s[p]]
  {
    if s == [] || a[j] < a[s[0]] then 0 else 1 + InsertPos(a, s[1..], j)
  }

  /** Inserts index j into `s` after every index whose key is at most a[j]. */
  function Insert(a: seq<real>, s: seq<nat>, j: nat): (r: seq<nat>)
    requires j < |a| && Bounded(s, |a|)
    ensures |r| == |s| + 1 && Bounded(r, |a|)
  {
    var p := InsertPos(a, s, j);
    s[..p] + [j] + s[p..]
  }

  /** Where each element of `s`, and j, lands in Insert(a, s, j). */
  lemma InsertLayout(a: seq<real>, s: seq<nat>, j: nat)
    requires j < |a| && Bounded(s, |a|)
    ensures var p := InsertPos(a, s, j); var r := Insert(a, s, j);
      && (forall i :: 0 <= i < p ==> r[i] == s[i])
      && r[p] == j
      && (forall i :: p < i < |r| ==> r[i] == s[i - 1])
  {
  }

  lemma InsertSorted(a: seq<real>, s: seq<nat>, j: nat)
    requires j < |a| && Bounded(s, |a|) && SortedBy(a, s)
    ensures SortedBy(a, Insert(a, s, j))
  {
    var p := InsertPos(a, s, j);
    var r := Insert(a, s, j);
    InsertLayout(a, s, j);
    forall i, k | 0 <= i <= k < |r| ensures a[r[i]] <= a[r[k]] {
      if i < p && p < k {
        assert a[s[i]] <= a[j] < a[s[p]] <= a[s[k - 1]];
      } else if i == p && p < k {
        assert a[j] < a[s[p]] <= a[s[k - 1]];
      }
    }
  }

  lemma InsertDistinct(a: seq<real>, s: seq<nat>, j: nat)
    requires j < |a| && Bounded(s, |a|) && Distinct(s) && j !in s
    ensures Distinct(Insert(a, s, j))
  {
    var p := InsertPos(a, s, j);
    var r := Insert(a, s, j);
    InsertLayout(a, s, j);
    forall i, k | 0 <= i < k < |r| ensures r[i] != r[k] {
      if i < p && p < k {
        assert s[i] != s[k - 1];
      } else if i == p && p < k {
        assert s[k - 1] in s;
      } else if i < p && k == p {
        assert s[i] in s;
      }
    }
  }

  /** The first m indices of `a`, inserted one by one in key order. */
  function InsertionOrder(a: seq<real>, m: nat): (order: seq<nat>)
    requires m <= |a|
    ensures |order| == m
    ensures Bounded(order, m)
  {
    if m == 0 then []
    else Insert(a, InsertionOrder(a, m - 1), m - 1)
  }

  /** Every one of the first m indices is inserted. */
  lemma {:induction false} InsertionOrderCovers(a: seq<real>, m: nat)
    requires m <= |a|
    ensures forall k :: 0 <= k < m ==> k in InsertionOrder(a, m)
  {
    if m > 0 {
      var prev := InsertionOrder(a, m - 1);
      var r := InsertionOrder(a, m);
      var p := InsertPos(a, prev, m - 1);
      InsertionOrderCovers(a, m - 1);
      InsertLayout(a, prev, m - 1);
      forall k | 0 <= k < m ensures k in r {
        if k < m - 1 {
          assert k in prev;
          var i :| 0 <= i < |prev| && prev[i] == k;
          if i < p {
            assert r[i] == k;
          } else {
            assert r[i + 1] == k;
          }
        } else {
          assert r[p] == k;
        }
      }
    }
  }

  /**
   * The order TMath::Sort produces for the keys `a`, ascending: position i of
   * the sorted series holds hit SortOrder(a)[i]. Equal keys keep their
   * original relative order.
   */
  function SortOrder(a: seq<real>): (order: seq<nat>)
    ensures |order| == |a| && Bounded(order, |a|)
  {
    InsertionOrder(a, |a|)
  }

  lemma {:induction false} InsertionOrderSorted(a: seq<real>, m: nat)
    requires m <= |a|
    ensures SortedBy(a, InsertionOrder(a, m))
  {
    if m > 0 {
      InsertionOrderSorted(a, m - 1);
      InsertionOrderStepSorted(a, m);
    }
  }

  /** One more insertion keeps the order sorted. */
  lemma InsertionOrderStepSorted(a: seq<real>, m: nat)
    requires 0 < m <= |a| && SortedBy(a, InsertionOrder(a, m - 1))
    ensures SortedBy(a, InsertionOrder(a, m))
  {
    InsertSorted(a, InsertionOrder(a, m - 1), m - 1);
  }

  lemma {:induction false} InsertionOrderDistinct(a: seq<real>, m: nat)
    requires m <= |a|
    ensures Distinct(InsertionOrder(a, m))
  {
    if m > 0 {
      var prev := InsertionOrder(a, m - 1);
      InsertionOrderDistinct(a, m - 1);
      assert forall i :: 0 <= i < |prev| ==> prev[i] != m - 1;
      InsertDistinct(a, prev, m - 1);
    }
  }

  /**
   * SortOrder lists every hit index exactly once, in an order that makes the
   * keys ascending.
   */
  lemma SortOrderSortsAndPermutes(a: seq<real>)
    ensures SortedBy(a, SortOrder(a))
    ensures IsPermutation(SortOrder(a), |a|)
  {
    InsertionOrderSorted(a, |a|);
    InsertionOrderDistinct(a, |a|);
    InsertionOrderCovers(a, |a|);
  }

  /** The elements of `v` read through `order`: v[order[0]], v[order[1]], ... */
  function Gather<X>(v: seq<X>, order: seq<nat>): (r: seq<X>)
    requires Bounded(order, |v|)
    ensures |r| == |order|
    ensures forall i :: 0 <= i < |order| ==> r[i] == v[order[i]]
  {
    seq(|order|, i requires 0 <= i < |order| => v[order[i]])
  }

  /** Gathering through one more index appends that index's element. */
  lemma GatherSnoc<X>(v: seq<X>, order: seq<nat>, i: nat)
    requires i < |order| && Bounded(order, |v|)
    ensures Bounded(order[..i], |v|) && Bounded(order[..i + 1], |v|)
    ensures Gather(v, order[..i + 1]) == Gather(v, order[..i]) + [v[order[i]]]
  {
  }

  lemma GatherInsert(a: seq<real>, s: seq<nat>, j: nat)
    requires j < |a| && Bounded(s, |a|)
    ensures multiset(Gather(a, Insert(a, s, j))) == multiset(Gather(a, s)) + multiset{a[j]}
  {
    var p := InsertPos(a, s, j);
    assert Gather(a, Insert(a, s, j)) == Gather(a, s[..p]) + [a[j]] + Gather(a, s[p..]);
    assert Gather(a, s) == Gather(a, s[..p]) + Gather(a, s[p..]);
  }

  lemma {:induction false} InsertionOrderKeysPermute(a: seq<real>, m: nat)
    requires m <= |a|
    ensures multiset(Gather(a, InsertionOrder(a, m))) == multiset(a[..m])
  {
    if m > 0 {
      assert a[..m] == a[..m - 1] + [a[m - 1]];
      var prev := InsertionOrder(a, m - 1);
      assert InsertionOrder(a, m) == Insert(a, prev, m - 1);
      InsertionOrderKeysPermute(a, m - 1);
      GatherInsert(a, prev, m - 1);
    }
  }

  /**
   * The series sorted by SortOrder is ascending and is a rearrangement of the
   * keys.
   */
  lemma SortedKeysAscendAndPermute(a: seq<real>)
    ensures Ascending(Gather(a, SortOrder(a)))
    ensures multiset(Gather(a, SortOrder(a))) == multiset(a)
  {
    InsertionOrderSorted(a, |a|);
    InsertionOrderKeysPermute(a, |a|);
    assert a[..|a|] == a;
  }

  /**
   * The reverseIndex that SortToFSubtractedTQ builds as written: a vector of
   * n zeros on which the first m sort positions have been recorded as
   * reverseIndex[order[i]] = i.
   */
  function Scatter(order: seq<nat>, m: nat, n: nat): (r: seq<nat>)
    requires m <= |order| && Bounded(order, n)
    ensures |r| == n
    ensures m <= n ==> Bounded(r, n)
  {
    if m == 0 then seq(n, _ => 0)
    else Scatter(order, m - 1, n)[order[m - 1] := m - 1]
  }

  lemma {:induction false} ScatterRecords(order: seq<nat>, m: nat, n: nat)
    requires m <= |order| && Bounded(order, n) && Distinct(order)
    ensures forall i :: 0 <= i < m ==> Scatter(order, m, n)[order[i]] == i
  {
    if m > 0 {
      ScatterRecords(order, m - 1, n);
    }
  }

  /**
   * The reverseIndex the code fills maps a hit's raw index to its sorted
   * position: reverseIndex[sortedIndex[i]] == i and
   * sortedIndex[reverseIndex[j]] == j.
   */
  lemma ReverseIndexInvertsOrder(order: seq<nat>, n: nat)
    requires IsPermutation(order, n)
    ensures forall i :: 0 <= i < n ==> Scatter(order, n, n)[order[i]] == i
    ensures forall j :: 0 <= j < n ==> Scatter(order, n, n)[j] < n && order[Scatter(order, n, n)[j]] == j
  {
    ScatterRecords(order, n, n);
    forall j | 0 <= j < n ensures Scatter(order, n, n)[j] < n && order[Scatter(order, n, n)[j]] == j {
      assert j in order;
      var i :| 0 <= i < n && order[i] == j;
    }
  }

  /**
   * Read through the reverseIndex the code fills, the sorted series gives
   * back each raw hit's own key.
   */
  lemma SortRoundTrip(a: seq<real>)
    ensures IsPermutation(SortOrder(a), |a|)
    ensures forall j :: 0 <= j < |a| ==>
      Scatter(SortOrder(a), |a|, |a|)[j] < |a| &&
      Gather(a, SortOrder(a))[Scatter(SortOrder(a), |a|, |a|)[j]] == a[j]
  {
    var order := SortOrder(a);
    SortOrderSortsAndPermutes(a);
    ReverseIndexInvertsOrder(order, |a|);
    var rev := Scatter(order, |a|, |a|);
    var sorted := Gather(a, order);
    forall j | 0 <= j < |a| ensures rev[j] < |a| && sorted[rev[j]] == a[j] {
      assert order[rev[j]] == j;
    }
  }

  /**
   * The loop of SortToFSubtractedTQ over sort positions: each hit's cable id,
   * corrected time and charge are read in sorted order, and the reverse
   * index, resized to n zeros beforehand, receives reverse[order[iHit]] =
   * iHit, so it ends as Scatter(order, n, n): the sorted position of every
   * raw hit.
   */
  method ReorderHits(cab: seq<int>, t: seq<real>, q: seq<real>, order: seq<nat>)
    returns (sortedCab: seq<int>, sortedT: seq<real>, sortedQ: seq<real>, reverse: seq<nat>)
    requires IsPermutation(order, |order|)
    requires |order| <= |cab| && |order| <= |t| && |order| <= |q|
    ensures sortedCab == Gather(cab, order)
    ensures sortedT == Gather(t, order)
    ensures sortedQ == Gather(q, order)
    ensures reverse == Scatter(order, |order|, |order|)
    ensures forall i :: 0 <= i < |order| ==> reverse[order[i]] == i
    ensures forall j :: 0 <= j < |order| ==> reverse[j] < |order| && order[reverse[j]] == j
  {
    var n := |order|;
    sortedCab, sortedT, sortedQ := [], [], [];
    reverse := seq(n, _ => 0);
    for iHit := 0 to n
      invariant sortedCab == Gather(cab, order[..iHit])
      invariant sortedT == Gather(t, order[..iHit])
      invariant sortedQ == Gather(q, order[..iHit])
      invariant reverse == Scatter(order, iHit, n)
    {
      GatherSnoc(cab, order, iHit);
      GatherSnoc(t, order, iHit);
      GatherSnoc(q, order, iHit);
      sortedCab := sortedCab + [cab[order[iHit]]];
      sortedT := sortedT + [t[order[iHit]]];
      sortedQ := sortedQ + [q[order[iHit]]];
      reverse := reverse[order[iHit] := iHit];
    }
    assert order[..n] == order;
    ReverseIndexInvertsOrder(order, n);
  }

  /** The signal-flag loop of SortToFSubtractedTQ: `v` read in the order `order`. */
  method Reorder<X>(v: seq<X>, order: seq<nat>) returns (r: seq<X>)
    requires Bounded(order, |v|)
    ensures r == Gather(v, order)
  {
    r := [];
    for iHit := 0 to |order|
      invariant r == Gather(v, order[..iHit])
    {
      GatherSnoc(v, order, iHit);
      r := r + [v[order[iHit]]];
    }
    assert order[..|order|] == order;
  }

  /** Hit times with the time of flight from `vertex` to each hit's PMT subtracted. */
  function ToFResiduals(T: seq<real>, PMTID: seq<int>, vertex: Vertex, tof: (Vertex, int) -> real): (r: seq<real>)
    requires |T| == |PMTID|
    ensures |r| == |T|
    ensures forall i :: 0 <= i < |T| ==> r[i] == T[i] - tof(vertex, PMTID[i] - 1)
  {
    seq(|T|, i requires 0 <= i < |T| => T[i] - tof(vertex, PMTID[i] - 1))
  }

  /**
   * GetVectorFromStartIndex: the sorted times of the forward window
   * [T[startIndex], T[startIndex] + tWidth), as many as
   * GetNhitsFromStartIndex counts.
   */
  function GetVectorFromStartIndex(T: seq<real>, startIndex: nat, tWidth: real): (r: seq<real>)
    requires startIndex < |T|
    ensures |r| == GetNhitsFromStartIndex(T, startIndex, tWidth)
    ensures startIndex + |r| <= |T|
    ensures forall k :: 0 <= k < |r| ==> r[k] == T[startIndex + k] && r[k] < T[startIndex] + tWidth
  {
    StartIndexWindow(T, startIndex, tWidth);
    T[startIndex .. startIndex + GetNhitsFromStartIndex(T, startIndex, tWidth)]
  }

  /** SliceVector(v, start, n): the n elements of v from index start. */
  function SliceVector<X>(v: seq<X>, start: nat, n: nat): (r: seq<X>)
    requires start + n <= |v|
    ensures |r| == n && forall k :: 0 <= k < n ==> r[k] == v[start + k]
  {
    v[start .. start + n]
  }

  /**
   * SliceVector(v, start, n, index): the n elements v[index[start]],
   * v[index[start + 1]], ... of v read through an index map. The body of the
   * four-argument SliceVector is not part of this model; it is specified by
   * this reading of its use in SavePeakFromHit.
   */
  function SliceVectorMapped<X>(v: seq<X>, start: nat, n: nat, index: seq<nat>): (r: seq<X>)
    requires start + n <= |index| && Bounded(index, |v|)
    ensures |r| == n && forall k :: 0 <= k < n ==> r[k] == v[index[start + k]]
  {
    seq(n, k requires 0 <= k < n => v[index[start + k]])
  }

  /**
   * The raw-time slice as SavePeakFromHit takes it through reverseIndex when
   * SortToFSubtractedTQ fills it as written, with the raw-to-sorted map.
   */
  function RawTimesAsWritten(raw: seq<real>, start: nat, n: nat): (r: seq<real>)
    requires start + n <= |raw|
    ensures |r| == n
  {
    var order := SortOrder(raw);
    SliceVectorMapped(raw, start, n, Scatter(order, |raw|, |raw|))
  }

  /** Three hits at 2, 0 and 1 ns sort as [1, 2, 0]. */
  lemma ExampleSortOrder(a: seq<real>)
    requires a == [2.0, 0.0, 1.0]
    ensures SortOrder(a) == [1, 2, 0]
  {
    var o1 := InsertionOrder(a, 1);
    assert InsertPos(a, [], 0) == 0;
    assert o1 == [0];
    var o2 := InsertionOrder(a, 2);
    assert o2 == Insert(a, o1, 1);
    assert InsertPos(a, o1, 1) == 0;
    assert o2 == [1, 0];
    var o3 := InsertionOrder(a, 3);
    assert o3 == Insert(a, o2, 2);
    assert InsertPos(a, o2[1..], 2) == 0;
    assert InsertPos(a, o2, 2) == 1;
    assert o3 == o2[..1] + [2] + o2[1..];
  }

  /** Recording the sort positions of [1, 2, 0] as the code does gives [2, 0, 1]. */
  lemma ExampleScatter(order: seq<nat>)
    requires order == [1, 2, 0]
    ensures Scatter(order, 3, 3) == [2, 0, 1]
  {
    assert Scatter(order, 0, 3) == [0, 0, 0];
    assert Scatter(order, 1, 3) == [0, 0, 0][1 := 0];
    assert Scatter(order, 2, 3) == [0, 0, 0][2 := 1];
  }

  /**
   * For the hits at 2, 0 and 1 ns, reverseIndex becomes [2, 0, 1], and the
   * raw-time slice of the candidate starting at the first sorted hit reads
   * [1, 2, 0] ns while its sorted times are [0, 1, 2] ns.
   */
  lemma RawTimesAsWrittenMismatch(a: seq<real>)
    requires a == [2.0, 0.0, 1.0]
    ensures RawTimesAsWritten(a, 0, 3) == [1.0, 2.0, 0.0]
    ensures SliceVector(Gather(a, SortOrder(a)), 0, 3) == [0.0, 1.0, 2.0]
    ensures RawTimesAsWritten(a, 0, 3) != SliceVector(Gather(a, SortOrder(a)), 0, 3)
  {
    ExampleSortOrder(a);
    var order := SortOrder(a);
    ExampleScatter(order);
    var rev := Scatter(order, 3, 3);
    var r := SliceVectorMapped(a, 0, 3, rev);
    assert RawTimesAsWritten(a, 0, 3) == r;
    assert r[0] == a[2] && r[1] == a[0] && r[2] == a[1];
    var s := Gather(a, order);
    assert s[0] == a[1] && s[1] == a[2] && s[2] == a[0];
    assert r[0] != s[0];
  }
}
