/**
 * The hit-window helpers of NTagCalculator: counting hits in a forward
 * window that starts at a hit, counting hits in a window centred on a time,
 * and summing the charge of the hits of a forward window.
 *
 * Times are in ns and modelled as `real`. The helpers take their vectors by
 * const reference, so as functions they cannot change them.
 */
module NTagCalculator {

  /** The hit times are in ascending order. */
  predicate Ascending(T: seq<real>) {
    forall i, j :: 0 <= i <= j < |T| ==> T[i] <= T[j]
  }

  /** Number of hits of `S` earlier than `limit` (a filter count, order-blind). */
  function CountBelow(S: seq<real>, limit: real): (n: nat)
    ensures n <= |S|
  {
    if S == [] then 0 else (if S[0] < limit then 1 else 0) + CountBelow(S[1..], limit)
  }

  /** Number of hits of `S` in the half-open window [lo, hi). */
  function CountIn(S: seq<real>, lo: real, hi: real): (n: nat)
    ensures n <= |S|
  {
    if S == [] then 0 else (if lo <= S[0] < hi then 1 else 0) + CountIn(S[1..], lo, hi)
  }

  /** Sum of a charge sequence. */
  function Sum(Q: seq<real>): real {
    if Q == [] then 0.0 else Q[0] + Sum(Q[1..])
  }

  /**
   * Length of the run of consecutive hits from index `s` on whose time is
   * earlier than `limit`: the forward scan stops at the first hit at or past
   * the limit.
   */
  function RunBelow(T: seq<real>, s: nat, limit: real): (n: nat)
    requires s <= |T|
    ensures s + n <= |T|
    ensures s + n < |T| ==> T[s + n] >= limit
    decreases |T| - s
  {
    if s == |T| || T[s] >= limit then 0 else 1 + RunBelow(T, s + 1, limit)
  }

  /** Every hit of the run is earlier than the limit. */
  lemma {:induction false} RunBelowInWindow(T: seq<real>, s: nat, limit: real)
    requires s <= |T|
    ensures forall j :: s <= j < s + RunBelow(T, s, limit) ==> T[j] < limit
    decreases |T| - s
  {
    if s < |T| && T[s] < limit {
      RunBelowInWindow(T, s + 1, limit);
    }
  }

  /**
   * GetNhitsFromStartIndex: the number of hits in the window
   * [T[startIndex], T[startIndex] + tWidth), counted forward from startIndex.
   * On ascending times the counted hits are exactly the hits from startIndex
   * on that fall in the window.
   */
  function GetNhitsFromStartIndex(T: seq<real>, startIndex: nat, tWidth: real): (n: nat)
    requires startIndex < |T|
    ensures n <= |T| - startIndex
    ensures tWidth > 0.0 ==> n >= 1
    ensures startIndex + n < |T| ==> T[startIndex + n] >= T[startIndex] + tWidth
  {
    RunBelow(T, startIndex, T[startIndex] + tWidth)
  }

  /**
   * The hits GetNhitsFromStartIndex counts are in its window, and on
   * ascending times they are exactly the hits from startIndex on that are.
   */
  lemma StartIndexWindow(T: seq<real>, startIndex: nat, tWidth: real)
    requires startIndex < |T|
    ensures var n := GetNhitsFromStartIndex(T, startIndex, tWidth);
      && (forall j :: startIndex <= j < startIndex + n ==> T[j] < T[startIndex] + tWidth)
      && (Ascending(T) ==>
            forall j :: startIndex <= j < |T| ==> (j < startIndex + n <==> T[j] < T[startIndex] + tWidth))
  {
    RunBelowInWindow(T, startIndex, T[startIndex] + tWidth);
  }

  /**
   * GetNhitsFromCenterTime: the number of hits in the window of width
   * tWidth centred on centerTime, [centerTime - tWidth/2, centerTime + tWidth/2).
   */
  function GetNhitsFromCenterTime(T: seq<real>, centerTime: real, tWidth: real): (n: nat)
    ensures n <= |T|
  {
    CountIn(T, centerTime - tWidth / 2.0, centerTime + tWidth / 2.0)
  }

  /** Charge summed over the run that RunBelow counts. */
  function QSumRun(T: seq<real>, Q: seq<real>, s: nat, limit: real): (q: real)
    requires |Q| == |T| && s <= |T|
    ensures q == Sum(Q[s .. s + RunBelow(T, s, limit)])
    decreases |T| - s
  {
    if s == |T| || T[s] >= limit then 0.0
    else
      var rest := QSumRun(T, Q, s + 1, limit);
      var n := RunBelow(T, s + 1, limit);
      assert Q[s .. s + 1 + n][1..] == Q[s + 1 .. s + 1 + n];
      Q[s] + rest
  }

  /**
   * GetQSumFromStartIndex: the charge summed over exactly the hits that
   * GetNhitsFromStartIndex counts from the same start index and width.
   */
  function GetQSumFromStartIndex(T: seq<real>, Q: seq<real>, startIndex: nat, tWidth: real): (q: real)
    requires |Q| == |T| && startIndex < |T|
    ensures q == Sum(Q[startIndex .. startIndex + GetNhitsFromStartIndex(T, startIndex, tWidth)])
  {
    QSumRun(T, Q, startIndex, T[startIndex] + tWidth)
  }

  /**
   * On ascending times the forward run from `s` equals the plain filter
   * count of the hits from `s` on that are earlier than the limit.
   */
  lemma {:induction false} RunBelowIsFilterCount(T: seq<real>, s: nat, limit: real)
    requires Ascending(T) && s <= |T|
    ensures RunBelow(T, s, limit) == CountBelow(T[s..], limit)
    decreases |T| - s
  {
    if s < |T| {
      assert T[s..][1..] == T[s + 1..];
      if T[s] < limit {
        RunBelowIsFilterCount(T, s + 1, limit);
      } else {
        NoneBelow(T[s..], limit);
      }
    }
  }

  /** No hit of a sequence whose first element reaches the limit is below it, when ascending. */
  lemma {:induction false} NoneBelow(S: seq<real>, limit: real)
    requires Ascending(S) && S != [] && S[0] >= limit
    ensures CountBelow(S, limit) == 0
  {
    if |S| > 1 {
      assert Ascending(S[1..]);
      NoneBelow(S[1..], limit);
    }
  }

  /**
   * GetNhitsFromStartIndex on ascending times is the number of hits from
   * startIndex on that are earlier than T[startIndex] + tWidth.
   */
  lemma StartIndexCountIsFilterCount(T: seq<real>, startIndex: nat, tWidth: real)
    requires Ascending(T) && startIndex < |T|
    ensures GetNhitsFromStartIndex(T, startIndex, tWidth)
         == CountBelow(T[startIndex..], T[startIndex] + tWidth)
  {
    RunBelowIsFilterCount(T, startIndex, T[startIndex] + tWidth);
  }

  /** A window count is the difference of two filter counts at its edges. */
  lemma {:induction false} CountInIsDifference(S: seq<real>, lo: real, hi: real)
    requires lo <= hi
    ensures CountIn(S, lo, hi) == CountBelow(S, hi) - CountBelow(S, lo)
  {
    if S != [] {
      CountInIsDifference(S[1..], lo, hi);
    }
  }

  /**
   * Widening the centred window never loses a hit: the count of
   * GetNhitsFromCenterTime is monotone in the width.
   */
  lemma {:induction false} CenterCountMonotone(T: seq<real>, centerTime: real, w1: real, w2: real)
    requires 0.0 <= w1 <= w2
    ensures GetNhitsFromCenterTime(T, centerTime, w1) <= GetNhitsFromCenterTime(T, centerTime, w2)
  {
    CountInWiden(T, centerTime - w1 / 2.0, centerTime + w1 / 2.0,
                 centerTime - w2 / 2.0, centerTime + w2 / 2.0);
  }

  lemma {:induction false} CountInWiden(S: seq<real>, lo1: real, hi1: real, lo2: real, hi2: real)
    requires lo2 <= lo1 && hi1 <= hi2
    ensures CountIn(S, lo1, hi1) <= CountIn(S, lo2, hi2)
  {
    if S != [] {
      CountInWiden(S[1..], lo1, hi1, lo2, hi2);
    }
  }
}
