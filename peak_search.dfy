/**
 * The capture-candidate peak search of NTagEventInfo::SearchCaptureCandidates
 * as a specification: one Step per sorted hit, folded left to right, and the
 * properties of the peaks it emits. The class method in module EventInfo runs
 * the same loop on its fields and is proved equal to this fold.
 *
 * The time threshold T0TH is compared with the hit time multiplied by 1e-3
 * (ns to microseconds), as the code does.
 */
module PeakSearch {
  import opened NTagCalculator

  /** The thresholds the search reads. */
  datatype Params = Params(N10TH: int, N10MX: int, N200MX: int, T0TH: real, TMINPEAKSEP: real)

  /** A time in ns expressed in microseconds (`t*1.e-3`). */
  function Micro(t: real): real { t * 0.001 }

  /** The tracked anchor: iHitPrevious, t0Previous, N10Previous, N200Previous. */
  datatype Anchor = Anchor(iHit: nat, t0: real, n10: int, n200: int)

  /** The anchor the search starts from, before any hit was accepted. */
  const Sentinel: Anchor := Anchor(0, -1.0, 0, 0)

  /**
   * The search state after some hits: the tracked anchor, the hit indices
   * handed to SavePeakFromHit so far, and the fields maxN200, maxN200Time and
   * firstHitTime_ToF.
   */
  datatype ScanState = ScanState(prev: Anchor, peaks: seq<nat>, maxN200: int, maxN200Time: real, firstHitTime: real)

  /** N10 of hit i: hits in the 10 ns forward window from it. */
  function N10At(T: seq<real>, i: nat): nat
    requires i < |T|
  {
    GetNhitsFromStartIndex(T, i, 10.0)
  }

  /** N200 of hit i: hits in the 200 ns window centred 5 ns after it. */
  function N200At(T: seq<real>, i: nat): nat
    requires i < |T|
  {
    GetNhitsFromCenterTime(T, T[i] + 5.0, 200.0)
  }

  /** Hit i passes the time gate and its N10 lies in [N10TH, N10MX]. */
  predicate Qualifies(p: Params, T: seq<real>, i: nat)
    requires i < |T|
  {
    Micro(T[i]) >= p.T0TH && p.N10TH <= N10At(T, i) <= p.N10MX
  }

  /**
   * A qualifying hit i met with tracked anchor `a`: the anchor is emitted when
   * hit i is more than TMINPEAKSEP after it, its N200 is below N200MX and its
   * time is past T0TH.
   */
  predicate Emits(p: Params, T: seq<real>, i: nat, a: Anchor)
    requires i < |T|
  {
    T[i] - a.t0 > p.TMINPEAKSEP && a.n200 < p.N200MX && Micro(a.t0) > p.T0TH
  }

  /**
   * The anchor tracked after qualifying hit i: N10Previous is reset to 0 when
   * hit i is more than TMINPEAKSEP after the anchor, and hit i replaces the
   * anchor only if its N10 is strictly greater.
   */
  function NextAnchor(p: Params, T: seq<real>, i: nat, a: Anchor): Anchor
    requires i < |T|
  {
    var prevN10 := if T[i] - a.t0 > p.TMINPEAKSEP then 0 else a.n10;
    if N10At(T, i) <= prevN10 then a.(n10 := prevN10) else Anchor(i, T[i], N10At(T, i), N200At(T, i))
  }

  /** The part of the loop body that runs for a qualifying hit. */
  function Accept(p: Params, T: seq<real>, i: nat, s: ScanState): ScanState
    requires i < |T|
  {
    var raise := Micro(T[i]) > p.T0TH && N200At(T, i) > s.maxN200;
    ScanState(
      NextAnchor(p, T, i, s.prev),
      if Emits(p, T, i, s.prev) then s.peaks + [s.prev.iHit] else s.peaks,
      if raise then N200At(T, i) else s.maxN200,
      if raise then T[i] else s.maxN200Time,
      s.firstHitTime)
  }

  /**
   * One iteration of the search loop, at sorted hit i: the time gate, the
   * first-hit record, the N10 gate, then Accept.
   */
  function Step(p: Params, T: seq<real>, i: nat, s: ScanState): ScanState
    requires i < |T|
  {
    if Micro(T[i]) < p.T0TH then s
    else
      var s1 := s.(firstHitTime := if s.firstHitTime == 0.0 then T[i] else s.firstHitTime);
      var n10 := N10At(T, i);
      if n10 < p.N10TH || n10 >= p.N10MX + 1 then s1
      else Accept(p, T, i, s1)
  }

  /** Accept, assembled from its four parts. */
  lemma AcceptParts(p: Params, T: seq<real>, i: nat, s: ScanState,
                    next: Anchor, peaks: seq<nat>, maxN200: int, maxN200Time: real)
    requires i < |T|
    requires next == NextAnchor(p, T, i, s.prev)
    requires peaks == if Emits(p, T, i, s.prev) then s.peaks + [s.prev.iHit] else s.peaks
    requires var raise := Micro(T[i]) > p.T0TH && N200At(T, i) > s.maxN200;
      && maxN200 == (if raise then N200At(T, i) else s.maxN200)
      && maxN200Time == (if raise then T[i] else s.maxN200Time)
    ensures Accept(p, T, i, s) == ScanState(next, peaks, maxN200, maxN200Time, s.firstHitTime)
  {
  }

  /** A step at a hit that does not qualify leaves the anchor and the peaks alone. */
  lemma StepSkips(p: Params, T: seq<real>, i: nat, s: ScanState)
    requires i < |T| && !Qualifies(p, T, i)
    ensures Step(p, T, i, s).prev == s.prev && Step(p, T, i, s).peaks == s.peaks
  {
  }

  /** A step at a qualifying hit is Accept on the state with the first-hit record updated. */
  lemma StepAccepts(p: Params, T: seq<real>, i: nat, s: ScanState)
    requires i < |T| && Qualifies(p, T, i)
    ensures Step(p, T, i, s).prev == NextAnchor(p, T, i, s.prev)
    ensures Step(p, T, i, s).peaks == (if Emits(p, T, i, s.prev) then s.peaks + [s.prev.iHit] else s.peaks)
  {
  }

  /** The state after the loop has visited hits 0 .. n-1. */
  function ScanUpTo(p: Params, T: seq<real>, n: nat, s0: ScanState): ScanState
    requires n <= |T|
  {
    if n == 0 then s0 else Step(p, T, n - 1, ScanUpTo(p, T, n - 1, s0))
  }

  /** The peaks after the loop, with the final tracked anchor emitted if its N10 reaches N10TH. */
  function FinalPeaks(p: Params, s: ScanState): seq<nat> {
    if s.prev.n10 >= p.N10TH then s.peaks + [s.prev.iHit] else s.peaks
  }

  /** The whole search from the fields' current maxN200, maxN200Time and firstHitTime_ToF. */
  function Search(p: Params, T: seq<real>, maxN200: int, maxN200Time: real, firstHitTime: real): ScanState {
    var s := ScanUpTo(p, T, |T|, ScanState(Sentinel, [], maxN200, maxN200Time, firstHitTime));
    s.(peaks := FinalPeaks(p, s))
  }

  /** The search is the scan over every hit followed by the final emission; an empty scan changes nothing. */
  lemma SearchIsScanThenFlush(p: Params, T: seq<real>, s0: ScanState)
    requires Fresh(s0)
    ensures var last := ScanUpTo(p, T, |T|, s0);
      Search(p, T, s0.maxN200, s0.maxN200Time, s0.firstHitTime) == last.(peaks := FinalPeaks(p, last))
    ensures |T| == 0 ==> ScanUpTo(p, T, |T|, s0) == s0
  {
    assert s0 == ScanState(Sentinel, [], s0.maxN200, s0.maxN200Time, s0.firstHitTime);
  }

  /**
   * The sentinel t0Previous = -1 cannot pass the emission gate and a zero
   * N10 cannot pass the final gate: the thresholds the code uses.
   */
  predicate SentinelInert(p: Params) {
    p.T0TH >= -0.001 && p.N10TH >= 1
  }

  function Defaults(): Params {
    Params(7, 50, 200, 5.0, 50.0)
  }

  lemma DefaultsAreInert()
    ensures SentinelInert(Defaults())
  {
  }

  /** The search state starts from the sentinel with no peaks. */
  predicate Fresh(s0: ScanState) {
    s0.prev == Sentinel && s0.peaks == []
  }

  /** The tracked anchor is the sentinel or a qualifying hit with its own N10, N200 and time. */
  predicate TrackedOk(p: Params, T: seq<real>, n: nat, a: Anchor) {
    a == Sentinel ||
    (a.iHit < n && n <= |T| && Qualifies(p, T, a.iHit) && a.t0 == T[a.iHit]
     && a.n10 == N10At(T, a.iHit) && a.n200 == N200At(T, a.iHit))
  }

  /** A hit emitted mid-scan qualified, had N200 below N200MX and lay past T0TH. */
  predicate EmittedOk(p: Params, T: seq<real>, n: nat, h: nat) {
    h < n && n <= |T| && Qualifies(p, T, h) && N200At(T, h) < p.N200MX && Micro(T[h]) > p.T0TH
  }

  /** Every peak so far passed the emission gate. */
  predicate PeaksOk(p: Params, T: seq<real>, n: nat, peaks: seq<nat>) {
    forall k :: 0 <= k < |peaks| ==> EmittedOk(p, T, n, peaks[k])
  }

  /** Consecutive peaks are in increasing order and more than TMINPEAKSEP apart. */
  predicate PeaksSeparated(p: Params, T: seq<real>, peaks: seq<nat>)
    requires forall k :: 0 <= k < |peaks| ==> peaks[k] < |T|
  {
    forall k :: 0 <= k < |peaks| - 1 ==>
      peaks[k] < peaks[k + 1] && T[peaks[k + 1]] - T[peaks[k]] > p.TMINPEAKSEP
  }

  /** The tracked anchor lies after the last peak and more than TMINPEAKSEP later. */
  predicate AnchorAfterPeaks(p: Params, T: seq<real>, a: Anchor, peaks: seq<nat>)
    requires forall k :: 0 <= k < |peaks| ==> peaks[k] < |T|
  {
    peaks != [] ==> a != Sentinel && peaks[|peaks| - 1] < a.iHit && a.t0 - T[peaks[|peaks| - 1]] > p.TMINPEAKSEP
  }

  predicate ScanOk(p: Params, T: seq<real>, n: nat, s: ScanState) {
    && n <= |T|
    && TrackedOk(p, T, n, s.prev)
    && PeaksOk(p, T, n, s.peaks)
    && PeaksSeparated(p, T, s.peaks)
    && AnchorAfterPeaks(p, T, s.prev, s.peaks)
  }

  lemma AcceptKeepsTracked(p: Params, T: seq<real>, i: nat, a: Anchor)
    requires i < |T| && Qualifies(p, T, i) && TrackedOk(p, T, i, a)
    ensures TrackedOk(p, T, i + 1, NextAnchor(p, T, i, a))
  {
  }

  lemma AcceptKeepsPeaks(p: Params, T: seq<real>, i: nat, a: Anchor, peaks: seq<nat>)
    requires i < |T| && SentinelInert(p) && Qualifies(p, T, i)
    requires TrackedOk(p, T, i, a) && PeaksOk(p, T, i, peaks)
    ensures Emits(p, T, i, a) ==> a != Sentinel && PeaksOk(p, T, i + 1, peaks + [a.iHit])
    ensures PeaksOk(p, T, i + 1, peaks)
  {
    if Emits(p, T, i, a) {
      assert a != Sentinel;
      var ps := peaks + [a.iHit];
      forall k | 0 <= k < |ps| ensures EmittedOk(p, T, i + 1, ps[k]) {
        if k < |peaks| {
          assert ps[k] == peaks[k];
        }
      }
    }
  }

  lemma AcceptKeepsOrder(p: Params, T: seq<real>, i: nat, a: Anchor, peaks: seq<nat>)
    requires i < |T| && SentinelInert(p) && Qualifies(p, T, i)
    requires forall k :: 0 <= k < |peaks| ==> peaks[k] < i
    requires TrackedOk(p, T, i, a) && (a != Sentinel ==> T[a.iHit] <= T[i])
    requires PeaksSeparated(p, T, peaks) && AnchorAfterPeaks(p, T, a, peaks)
    ensures var ps := if Emits(p, T, i, a) then peaks + [a.iHit] else peaks;
      && (forall k :: 0 <= k < |ps| ==> ps[k] < |T|)
      && PeaksSeparated(p, T, ps)
      && AnchorAfterPeaks(p, T, NextAnchor(p, T, i, a), ps)
  {
    if Emits(p, T, i, a) {
      EmitKeepsOrder(p, T, i, a, peaks);
    } else {
      HoldKeepsOrder(p, T, i, a, peaks);
    }
  }

  /** AcceptKeepsOrder when the anchor is emitted: hit i becomes the new anchor. */
  lemma EmitKeepsOrder(p: Params, T: seq<real>, i: nat, a: Anchor, peaks: seq<nat>)
    requires i < |T| && SentinelInert(p) && Qualifies(p, T, i) && Emits(p, T, i, a)
    requires forall k :: 0 <= k < |peaks| ==> peaks[k] < i
    requires TrackedOk(p, T, i, a)
    requires PeaksSeparated(p, T, peaks) && AnchorAfterPeaks(p, T, a, peaks)
    ensures forall k :: 0 <= k < |peaks + [a.iHit]| ==> (peaks + [a.iHit])[k] < |T|
    ensures PeaksSeparated(p, T, peaks + [a.iHit])
    ensures AnchorAfterPeaks(p, T, NextAnchor(p, T, i, a), peaks + [a.iHit])
  {
    assert a != Sentinel;
    assert NextAnchor(p, T, i, a).iHit == i;
    SnocSeparated(p, T, peaks, a.iHit);
  }

  /** AcceptKeepsOrder when nothing is emitted: the anchor stays or moves to a later hit. */
  lemma HoldKeepsOrder(p: Params, T: seq<real>, i: nat, a: Anchor, peaks: seq<nat>)
    requires i < |T| && Qualifies(p, T, i)
    requires forall k :: 0 <= k < |peaks| ==> peaks[k] < i
    requires TrackedOk(p, T, i, a) && (a != Sentinel ==> T[a.iHit] <= T[i])
    requires AnchorAfterPeaks(p, T, a, peaks)
    ensures AnchorAfterPeaks(p, T, NextAnchor(p, T, i, a), peaks)
  {
  }

  /** A peak later than the last one and more than TMINPEAKSEP after it keeps the peaks separated. */
  lemma SnocSeparated(p: Params, T: seq<real>, peaks: seq<nat>, h: nat)
    requires h < |T| && forall k :: 0 <= k < |peaks| ==> peaks[k] < |T|
    requires PeaksSeparated(p, T, peaks)
    requires peaks != [] ==> peaks[|peaks| - 1] < h && T[h] - T[peaks[|peaks| - 1]] > p.TMINPEAKSEP
    ensures forall k :: 0 <= k < |peaks + [h]| ==> (peaks + [h])[k] < |T|
    ensures PeaksSeparated(p, T, peaks + [h])
  {
    var ps := peaks + [h];
    forall k | 0 <= k < |ps| - 1
      ensures ps[k] < ps[k + 1] && T[ps[k + 1]] - T[ps[k]] > p.TMINPEAKSEP
    {
      if k < |peaks| - 1 {
        assert ps[k] == peaks[k] && ps[k + 1] == peaks[k + 1];
      } else {
        assert ps[k] == peaks[|peaks| - 1] && ps[k + 1] == h;
      }
    }
  }

  lemma StepKeepsScanOk(p: Params, T: seq<real>, i: nat, s: ScanState)
    requires i < |T| && SentinelInert(p) && ScanOk(p, T, i, s)
    requires forall k :: 0 <= k < |s.peaks| ==> s.peaks[k] < i
    requires s.prev != Sentinel ==> T[s.prev.iHit] <= T[i]
    ensures ScanOk(p, T, i + 1, Step(p, T, i, s))
    ensures forall k :: 0 <= k < |Step(p, T, i, s).peaks| ==> Step(p, T, i, s).peaks[k] < i + 1
  {
    if !Qualifies(p, T, i) {
      StepSkips(p, T, i, s);
    } else {
      StepAccepts(p, T, i, s);
      AcceptKeepsTracked(p, T, i, s.prev);
      AcceptKeepsPeaks(p, T, i, s.prev, s.peaks);
      AcceptKeepsOrder(p, T, i, s.prev, s.peaks);
    }
  }

  /**
   * Scan invariant: the tracked anchor is well formed, every peak emitted so
   * far passed the emission gate, and the peaks are in increasing index
   * order, each more than TMINPEAKSEP later than the one before and the
   * tracked anchor more than TMINPEAKSEP after the last.
   */
  lemma {:induction false} ScanInvariant(p: Params, T: seq<real>, n: nat, s0: ScanState)
    requires n <= |T| && Fresh(s0) && SentinelInert(p) && Ascending(T)
    ensures ScanOk(p, T, n, ScanUpTo(p, T, n, s0))
  {
    if n > 0 {
      ScanInvariant(p, T, n - 1, s0);
      ScanPeaksInRange(p, T, n - 1, s0);
      var s := ScanUpTo(p, T, n - 1, s0);
      if s.prev != Sentinel {
        AscendingAt(T, s.prev.iHit, n - 1);
      }
      ScanInvariantStep(p, T, n, s0);
    }
  }

  /** One step of ScanInvariant: the invariant before hit n - 1 and an anchor no later than it give the invariant after. */
  lemma ScanInvariantStep(p: Params, T: seq<real>, n: nat, s0: ScanState)
    requires 0 < n <= |T| && Fresh(s0) && SentinelInert(p)
    requires ScanOk(p, T, n - 1, ScanUpTo(p, T, n - 1, s0))
    requires var a := ScanUpTo(p, T, n - 1, s0).prev; a != Sentinel ==> T[a.iHit] <= T[n - 1]
    ensures ScanOk(p, T, n, ScanUpTo(p, T, n, s0))
  {
    ScanPeaksInRange(p, T, n - 1, s0);
    StepKeepsScanOk(p, T, n - 1, ScanUpTo(p, T, n - 1, s0));
  }

  lemma AscendingAt(T: seq<real>, i: nat, j: nat)
    requires Ascending(T) && i <= j < |T|
    ensures T[i] <= T[j]
  {
  }

  /**
   * Every hit the search hands to SavePeakFromHit is a qualifying hit; the
   * ones emitted inside the loop also had N200 below N200MX and a time past
   * T0TH. Consecutive peaks are in increasing hit order and more than
   * TMINPEAKSEP apart, so no two emitted peaks lie within TMINPEAKSEP of
   * each other.
   */
  lemma SearchPeaksQualifyAndSeparate(p: Params, T: seq<real>, maxN200: int, maxN200Time: real, firstHitTime: real)
    requires SentinelInert(p) && Ascending(T)
    ensures var peaks := Search(p, T, maxN200, maxN200Time, firstHitTime).peaks;
      && (forall k :: 0 <= k < |peaks| ==> peaks[k] < |T| && Qualifies(p, T, peaks[k]))
      && (forall k :: 0 <= k < |peaks| - 1 ==>
            EmittedOk(p, T, |T|, peaks[k]) &&
            peaks[k] < peaks[k + 1] && T[peaks[k + 1]] - T[peaks[k]] > p.TMINPEAKSEP)
  {
    var s0 := ScanState(Sentinel, [], maxN200, maxN200Time, firstHitTime);
    ScanInvariant(p, T, |T|, s0);
    ScanPeaksInRange(p, T, |T|, s0);
    FlushKeepsOrder(p, T, ScanUpTo(p, T, |T|, s0));
  }

  /** The final emission keeps every peak a qualifying hit and keeps consecutive mid-scan peaks in order and apart. */
  lemma FlushKeepsOrder(p: Params, T: seq<real>, s: ScanState)
    requires SentinelInert(p) && ScanOk(p, T, |T|, s)
    requires forall k :: 0 <= k < |s.peaks| ==> s.peaks[k] < |T|
    ensures var peaks := FinalPeaks(p, s);
      && (forall k :: 0 <= k < |peaks| ==> peaks[k] < |T| && Qualifies(p, T, peaks[k]))
      && (forall k :: 0 <= k < |peaks| - 1 ==>
            EmittedOk(p, T, |T|, peaks[k]) &&
            peaks[k] < peaks[k + 1] && T[peaks[k + 1]] - T[peaks[k]] > p.TMINPEAKSEP)
  {
    var peaks := FinalPeaks(p, s);
    if s.prev.n10 >= p.N10TH {
      assert s.prev != Sentinel;
      assert peaks == s.peaks + [s.prev.iHit];
    }
  }

  /**
   * Peaks index real hits: whenever the event has a hit or N10TH is at least
   * one (so the sentinel's zero N10 cannot be emitted after the loop).
   */
  lemma {:induction false} ScanPeaksInRange(p: Params, T: seq<real>, n: nat, s0: ScanState)
    requires n <= |T| && Fresh(s0)
    ensures var s := ScanUpTo(p, T, n, s0);
      && (n > 0 ==> s.prev.iHit < n)
      && (n == 0 ==> s.prev == Sentinel && s.peaks == [])
      && (forall k :: 0 <= k < |s.peaks| ==> s.peaks[k] < n)
  {
    if n > 0 {
      ScanPeaksInRange(p, T, n - 1, s0);
    }
  }

  lemma SearchPeaksInRange(p: Params, T: seq<real>, maxN200: int, maxN200Time: real, firstHitTime: real)
    requires |T| > 0 || p.N10TH >= 1
    ensures forall k :: 0 <= k < |Search(p, T, maxN200, maxN200Time, firstHitTime).peaks| ==>
      Search(p, T, maxN200, maxN200Time, firstHitTime).peaks[k] < |T|
  {
    ScanPeaksInRange(p, T, |T|, ScanState(Sentinel, [], maxN200, maxN200Time, firstHitTime));
  }

  /** Before the first qualifying hit the search tracks the sentinel and has emitted nothing. */
  lemma {:induction false} ScanQuietBeforeQualifying(p: Params, T: seq<real>, n: nat, s0: ScanState)
    requires n <= |T| && Fresh(s0)
    requires forall i :: 0 <= i < n ==> !Qualifies(p, T, i)
    ensures ScanUpTo(p, T, n, s0).prev == Sentinel && ScanUpTo(p, T, n, s0).peaks == []
  {
    if n > 0 {
      ScanQuietBeforeQualifying(p, T, n - 1, s0);
      StepSkips(p, T, n - 1, ScanUpTo(p, T, n - 1, s0));
    }
  }

  /**
   * An event without a qualifying hit, in particular an empty one or one
   * with fewer hits than N10TH, yields no candidate.
   */
  lemma NoQualifyingHitNoPeaks(p: Params, T: seq<real>, maxN200: int, maxN200Time: real, firstHitTime: real)
    requires p.N10TH >= 1
    requires (forall i :: 0 <= i < |T| ==> !Qualifies(p, T, i)) || |T| < p.N10TH
    ensures Search(p, T, maxN200, maxN200Time, firstHitTime).peaks == []
  {
    var s0 := ScanState(Sentinel, [], maxN200, maxN200Time, firstHitTime);
    forall i | 0 <= i < |T| ensures !Qualifies(p, T, i) {
      if |T| < p.N10TH {
        assert N10At(T, i) <= |T| - i;
      }
    }
    ScanQuietBeforeQualifying(p, T, |T|, s0);
  }

  /**
   * Anchor `a` dominates the hits after it up to n: every qualifying one has
   * an N10 no greater than the anchor's and lies within TMINPEAKSEP of it.
   */
  predicate Dominates(p: Params, T: seq<real>, n: nat, a: Anchor)
    requires n <= |T|
  {
    forall j :: a.iHit < j < n ==> DominatedBy(p, T, j, a)
  }

  /** Hit j, if it qualifies, has an N10 no greater than the anchor's and lies within TMINPEAKSEP of it. */
  predicate DominatedBy(p: Params, T: seq<real>, j: nat, a: Anchor)
    requires j < |T|
  {
    Qualifies(p, T, j) ==> N10At(T, j) <= a.n10 && T[j] - a.t0 <= p.TMINPEAKSEP
  }

  /**
   * The tracked anchor dominates its run: every later qualifying hit seen so
   * far has an N10 no greater than the anchor's and lies within TMINPEAKSEP
   * of it, which is why it did not replace the anchor.
   */
  lemma {:induction false} TrackedAnchorDominates(p: Params, T: seq<real>, n: nat, s0: ScanState)
    requires n <= |T| && Fresh(s0) && p.N10TH >= 1
    ensures Dominates(p, T, n, ScanUpTo(p, T, n, s0).prev)
  {
    if n > 0 {
      TrackedAnchorDominates(p, T, n - 1, s0);
      DominatesStep(p, T, n - 1, ScanUpTo(p, T, n - 1, s0));
    }
  }

  /** One step keeps the tracked anchor dominant: a kept anchor absorbs hit i, a new one starts at it. */
  lemma DominatesStep(p: Params, T: seq<real>, i: nat, s: ScanState)
    requires i < |T| && p.N10TH >= 1 && Dominates(p, T, i, s.prev)
    ensures Dominates(p, T, i + 1, Step(p, T, i, s).prev)
  {
    var a := s.prev;
    var b := Step(p, T, i, s).prev;
    if Qualifies(p, T, i) {
      StepAccepts(p, T, i, s);
      if b.iHit != i {
        assert b == a && T[i] - a.t0 <= p.TMINPEAKSEP;
        assert DominatedBy(p, T, i, b);
      }
    } else {
      StepSkips(p, T, i, s);
      assert DominatedBy(p, T, i, b);
    }
    forall j | b.iHit < j < i + 1 ensures DominatedBy(p, T, j, b) {
      if j < i {
        assert DominatedBy(p, T, j, a);
      }
    }
  }

  /** maxN200 is raised only by a qualifying hit past T0TH whose N200 exceeds it. */
  lemma StepMaxN200(p: Params, T: seq<real>, i: nat, s: ScanState)
    requires i < |T|
    ensures var s' := Step(p, T, i, s);
      && s'.maxN200 >= s.maxN200
      && (Qualifies(p, T, i) && Micro(T[i]) > p.T0TH ==> N200At(T, i) <= s'.maxN200)
      && ((s'.maxN200 == s.maxN200 && s'.maxN200Time == s.maxN200Time) ||
          (Qualifies(p, T, i) && Micro(T[i]) > p.T0TH && N200At(T, i) == s'.maxN200 && T[i] == s'.maxN200Time))
  {
  }

  /** The running maximum over the hits 0 .. n-1 that can raise maxN200. */
  predicate MaxOk(p: Params, T: seq<real>, n: nat, s0: ScanState, s: ScanState)
    requires n <= |T|
  {
    && s.maxN200 >= s0.maxN200
    && (forall j :: 0 <= j < n ==> MaxBounds(p, T, j, s.maxN200))
    && ((s.maxN200 == s0.maxN200 && s.maxN200Time == s0.maxN200Time) ||
        exists j :: 0 <= j < n && MaxAt(p, T, j, s.maxN200, s.maxN200Time))
  }

  /** Hit j can raise maxN200: it qualifies and lies past T0TH. */
  predicate Raises(p: Params, T: seq<real>, j: nat)
    requires j < |T|
  {
    Qualifies(p, T, j) && Micro(T[j]) > p.T0TH
  }

  /** m bounds the N200 of hit j if hit j can raise maxN200. */
  predicate MaxBounds(p: Params, T: seq<real>, j: nat, m: int)
    requires j < |T|
  {
    Raises(p, T, j) ==> N200At(T, j) <= m
  }

  /** Hit j can raise maxN200, its N200 is m and its time is t. */
  predicate MaxAt(p: Params, T: seq<real>, j: nat, m: int, t: real)
    requires j < |T|
  {
    Raises(p, T, j) && N200At(T, j) == m && T[j] == t
  }

  /**
   * maxN200 never decreases, bounds the N200 of every qualifying hit past
   * T0TH, and is either the starting value or the N200 of such a hit, whose
   * time is maxN200Time.
   */
  lemma {:induction false} MaxN200IsRunningMaximum(p: Params, T: seq<real>, n: nat, s0: ScanState)
    requires n <= |T|
    ensures MaxOk(p, T, n, s0, ScanUpTo(p, T, n, s0))
  {
    if n > 0 {
      MaxN200IsRunningMaximum(p, T, n - 1, s0);
      MaxOkStep(p, T, n - 1, s0, ScanUpTo(p, T, n - 1, s0));
    }
  }

  /** One step keeps the running maximum: StepMaxN200 on top of the maximum over the earlier hits. */
  lemma MaxOkStep(p: Params, T: seq<real>, i: nat, s0: ScanState, s: ScanState)
    requires i < |T| && MaxOk(p, T, i, s0, s)
    ensures MaxOk(p, T, i + 1, s0, Step(p, T, i, s))
  {
    var s' := Step(p, T, i, s);
    StepMaxN200(p, T, i, s);
    forall j | 0 <= j < i + 1 ensures MaxBounds(p, T, j, s'.maxN200) {
      if j < i {
        assert MaxBounds(p, T, j, s.maxN200);
      }
    }
    if s'.maxN200 == s.maxN200 && s'.maxN200Time == s.maxN200Time {
      if !(s.maxN200 == s0.maxN200 && s.maxN200Time == s0.maxN200Time) {
        var j :| 0 <= j < i && MaxAt(p, T, j, s.maxN200, s.maxN200Time);
        assert 0 <= j < i + 1 && MaxAt(p, T, j, s'.maxN200, s'.maxN200Time);
      }
    } else {
      assert MaxAt(p, T, i, s'.maxN200, s'.maxN200Time);
    }
  }

  /** firstHitTime_ToF changes only while it is exactly zero. */
  lemma {:induction false} FirstHitTimeSticky(p: Params, T: seq<real>, n: nat, s0: ScanState)
    requires n <= |T| && s0.firstHitTime != 0.0
    ensures ScanUpTo(p, T, n, s0).firstHitTime == s0.firstHitTime
  {
    if n > 0 {
      FirstHitTimeSticky(p, T, n - 1, s0);
    }
  }
}
