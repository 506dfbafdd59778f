/**
 * NTagEventInfo: the per-event state of the neutron-capture search and its
 * candidate-search pipeline. Hits of the readout are appended to the raw
 * vectors (AppendRawHitInfo), their times are corrected for the time of
 * flight from the prompt vertex and sorted (SetToFSubtractedTQ), the sorted
 * times are scanned for capture candidates (SearchCaptureCandidates), each
 * candidate takes a slice of every sorted vector (SavePeakFromHit), and the
 * candidates' features are gathered into per-name columns
 * (SetCandidateVariables). Clear resets the event.
 *
 * The vectors are sequence-valued fields that the methods reassign; the
 * per-PMT last-hit times (a fixed-size array in the source) are an array.
 */
module EventInfo {
  import opened NTagCalculator
  import opened HitSorting
  import opened PeakSearch
  import opened HitBuffer
  import opened CandidateColumns
  import NTagDefault
  import TMVAVariables

  /** Where the prompt vertex is taken from. */
  datatype VertexMode = APFIT | BONSAI | CUSTOM | TRUE | STMU

  /** The hit slices of one candidate: raw and residual times, charges, PMT ids, signal flags. */
  datatype HitInfo = HitInfo(rawT: seq<real>, resT: seq<real>, pmtQ: seq<real>, cabI: seq<int>, sigF: seq<int>)

  /** The named features NTagCandidate computes from its hits. */
  datatype Features = Features(iVarMap: map<string, int>, fVarMap: map<string, real>)

  /** A capture candidate: its id, its hit slices and its features. */
  datatype Candidate = Candidate(id: nat, hits: HitInfo, vars: Features)

  function IntVars(cands: seq<Candidate>): (ms: seq<map<string, int>>)
    ensures |ms| == |cands| && forall j :: 0 <= j < |cands| ==> ms[j] == cands[j].vars.iVarMap
  {
    seq(|cands|, j requires 0 <= j < |cands| => cands[j].vars.iVarMap)
  }

  function FloatVars(cands: seq<Candidate>): (ms: seq<map<string, real>>)
    ensures |ms| == |cands| && forall j :: 0 <= j < |cands| ==> ms[j] == cands[j].vars.fVarMap
  {
    seq(|cands|, j requires 0 <= j < |cands| => cands[j].vars.fVarMap)
  }

  /** The loop over the signal hits: whether a stored hit matches one of them. */
  method IsSignalHit(hitTime: real, cab: int, sig: SignalTQ) returns (isSignal: bool)
    requires |sig.times| <= |sig.cables|
    ensures isSignal <==> IsSignal(hitTime, cab, sig)
  {
    isSignal := false;
    var nTotalSigHits := |sig.times|;
    for iSigHit := 0 to nTotalSigHits
      invariant isSignal <==> exists k :: 0 <= k < iSigHit && MatchesSignal(hitTime, cab, sig, k)
    {
      if Abs(hitTime - sig.times[iSigHit]) < 0.001 && cab == sig.cables[iSigHit] {
        isSignal := true;
        assert MatchesSignal(hitTime, cab, sig, iSigHit);
      } else {
        assert !MatchesSignal(hitTime, cab, sig, iSigHit);
      }
    }
  }


  /**
   * The sorted vectors hold exactly one sort of the first n raw hits:
   * `order` lists the raw indices in ascending order of ToF-subtracted time,
   * each sorted vector is its raw vector read through `order`, and `reverse`
   * is `order` scattered as the code fills it: the sorted position of each
   * raw hit, so that reverse[order[i]] == i and order[reverse[j]] == j.
   */
  ghost predicate SortedHits(n: nat, unsortedT: seq<real>, Q: seq<real>, cab: seq<int>, sig: seq<int>,
                             sortedT: seq<real>, sortedQ: seq<real>, sortedCab: seq<int>, sortedSig: seq<int>,
                             reverse: seq<nat>, order: seq<nat>)
  {
    && n <= |unsortedT| && n == |Q| == |cab|
    && IsPermutation(order, n)
    && reverse == Scatter(order, n, n)
    && (forall i :: 0 <= i < n ==> reverse[order[i]] == i)
    && (forall j :: 0 <= j < n ==> reverse[j] < n && order[reverse[j]] == j)
    && sortedT == Gather(unsortedT[..n], order)
    && sortedQ == Gather(Q, order)
    && sortedCab == Gather(cab, order)
    && (sortedSig != [] ==> n <= |sig| && sortedSig == Gather(sig[..n], order))
    && Ascending(sortedT)
  }

  /**
   * Reading the raw hits through SortOrder gives a sort in the sense of
   * SortedHits.
   */
  lemma SortOrderGivesSortedHits(n: nat, unsortedT: seq<real>, Q: seq<real>, cab: seq<int>, sig: seq<int>,
                                 sortedT: seq<real>, sortedQ: seq<real>, sortedCab: seq<int>, sortedSig: seq<int>,
                                 reverse: seq<nat>, order: seq<nat>)
    requires n <= |unsortedT| && n == |Q| == |cab| && (sig != [] ==> n <= |sig|)
    requires order == SortOrder(unsortedT[..n]) && |order| == n && Bounded(order, n)
    requires sortedT == Gather(unsortedT[..n], order)
    requires sortedQ == Gather(Q, order)
    requires sortedCab == Gather(cab, order)
    requires sortedSig == if sig == [] then [] else Gather(sig[..n], order)
    requires reverse == Scatter(order, n, n)
    ensures SortedHits(n, unsortedT, Q, cab, sig, sortedT, sortedQ, sortedCab, sortedSig, reverse, order)
  {
    var keys := unsortedT[..n];
    SortOrderSortsAndPermutes(keys);
    SortedKeysAscendAndPermute(keys);
    ReverseIndexInvertsOrder(order, n);
  }

  /**
   * The vectors a candidate's slices are taken from: the raw times, the
   * sorted residual times, charges, PMT ids and signal flags, and the
   * reverse index.
   */
  datatype SortedView = SortedView(rawT: seq<real>, sortedT: seq<real>, sortedQ: seq<real>,
                                   sortedCab: seq<int>, sortedSig: seq<int>, reverse: seq<nat>)

  /** One entry per sorted hit in each sorted vector (signal flags when loaded), the reverse index within the raw times. */
  predicate Sized(v: SortedView) {
    && |v.sortedQ| == |v.sortedCab| == |v.reverse| == |v.sortedT|
    && Bounded(v.reverse, |v.rawT|)
    && (v.sortedSig != [] ==> |v.sortedSig| == |v.sortedT|)
  }

  /**
   * The hit slices SavePeakFromHit takes for the sorted hit hitID: the
   * residual times of the 10 ns window that starts at hitID
   * (GetVectorFromStartIndex), and as many entries from hitID on of the
   * sorted charges, PMT ids and (when loaded) signal flags. The raw times
   * are read through the reverse index: entry k is the raw time of hit
   * reverse[hitID + k].
   */
  function PeakHits(v: SortedView, hitID: nat): (h: HitInfo)
    requires Sized(v) && hitID < |v.sortedT|
    ensures var n := |h.resT|;
      && n == N10At(v.sortedT, hitID) && 1 <= n && hitID + n <= |v.sortedT|
      && |h.rawT| == n && |h.pmtQ| == n && |h.cabI| == n
      && (v.sortedSig == [] ==> h.sigF == [])
      && (v.sortedSig != [] ==> |h.sigF| == n)
      && (forall k :: 0 <= k < n ==>
            && h.rawT[k] == v.rawT[v.reverse[hitID + k]]
            && h.resT[k] == v.sortedT[hitID + k] < v.sortedT[hitID] + 10.0
            && h.pmtQ[k] == v.sortedQ[hitID + k]
            && h.cabI[k] == v.sortedCab[hitID + k]
            && (v.sortedSig != [] ==> h.sigF[k] == v.sortedSig[hitID + k]))
  {
    var resTVec := GetVectorFromStartIndex(v.sortedT, hitID, 10.0);
    var n10 := |resTVec|;
    HitInfo(
      SliceVectorMapped(v.rawT, hitID, n10, v.reverse),
      resTVec,
      SliceVector(v.sortedQ, hitID, n10),
      SliceVector(v.sortedCab, hitID, n10),
      if v.sortedSig == [] then [] else SliceVector(v.sortedSig, hitID, n10))
  }

  /** The candidate SavePeakFromHit appends for the sorted hit hitID, numbered id. */
  function PeakCandidate(features: HitInfo -> Features, v: SortedView, id: nat, hitID: nat): Candidate
    requires Sized(v) && hitID < |v.sortedT|
  {
    var hits := PeakHits(v, hitID);
    Candidate(id, hits, features(hits))
  }

  /** Every index of `peaks` is a sorted hit of `v`. */
  predicate PeaksIn(v: SortedView, peaks: seq<nat>) {
    forall k :: 0 <= k < |peaks| ==> peaks[k] < |v.sortedT|
  }

  /**
   * The candidates SavePeakFromHit appends for the sorted hits `peaks`, in
   * order, numbered from n0.
   */
  function PeakCandidates(features: HitInfo -> Features, v: SortedView, n0: nat, peaks: seq<nat>): (cs: seq<Candidate>)
    requires Sized(v) && PeaksIn(v, peaks)
    ensures |cs| == |peaks|
  {
    if peaks == [] then []
    else PeakCandidates(features, v, n0, peaks[..|peaks| - 1]) + [PeakCandidate(features, v, n0 + |peaks| - 1, peaks[|peaks| - 1])]
  }

  /** Candidate k of PeakCandidates is the one SavePeakFromHit makes of the k-th peak, numbered n0 + k. */
  lemma {:induction false} PeakCandidatesAt(features: HitInfo -> Features, v: SortedView, n0: nat, peaks: seq<nat>)
    requires Sized(v) && PeaksIn(v, peaks)
    ensures forall k :: 0 <= k < |peaks| ==>
      PeakCandidates(features, v, n0, peaks)[k] == PeakCandidate(features, v, n0 + k, peaks[k])
  {
    if peaks != [] {
      var init := peaks[..|peaks| - 1];
      PeakCandidatesUnfold(features, v, n0, peaks);
      PeakCandidatesAt(features, v, n0, init);
      forall k | 0 <= k < |peaks|
        ensures PeakCandidates(features, v, n0, peaks)[k] == PeakCandidate(features, v, n0 + k, peaks[k])
      {
        PeakCandidatesAtStep(features, v, n0, peaks, k);
      }
    }
  }

  /** Candidate k of one more peak: the last one is the new peak's, the others are as before. */
  lemma PeakCandidatesAtStep(features: HitInfo -> Features, v: SortedView, n0: nat, peaks: seq<nat>, k: nat)
    requires Sized(v) && PeaksIn(v, peaks) && k < |peaks|
    requires PeaksIn(v, peaks[..|peaks| - 1])
    requires k < |peaks| - 1 ==>
      PeakCandidates(features, v, n0, peaks[..|peaks| - 1])[k] == PeakCandidate(features, v, n0 + k, peaks[..|peaks| - 1][k])
    ensures PeakCandidates(features, v, n0, peaks)[k] == PeakCandidate(features, v, n0 + k, peaks[k])
  {
    var init := peaks[..|peaks| - 1];
    var last := PeakCandidate(features, v, n0 + |peaks| - 1, peaks[|peaks| - 1]);
    PeakCandidatesUnfold(features, v, n0, peaks);
    SnocAt(PeakCandidates(features, v, n0, peaks), PeakCandidates(features, v, n0, init), last, k);
    if k < |init| {
      assert init[k] == peaks[k];
    }
  }

  /** Index k of prev + [last]: an element of prev, or last itself. */
  lemma SnocAt<X>(s: seq<X>, prev: seq<X>, last: X, k: nat)
    requires s == prev + [last] && k < |s|
    ensures k < |prev| ==> s[k] == prev[k]
    ensures k == |prev| ==> s[k] == last
  {
  }

  /** One more peak appends its candidate, numbered after the others. */
  lemma PeakCandidatesSnoc(features: HitInfo -> Features, v: SortedView, n0: nat, peaks: seq<nat>, hitID: nat)
    requires Sized(v) && PeaksIn(v, peaks) && hitID < |v.sortedT|
    ensures PeaksIn(v, peaks + [hitID])
    ensures PeakCandidates(features, v, n0, peaks + [hitID])
         == PeakCandidates(features, v, n0, peaks) + [PeakCandidate(features, v, n0 + |peaks|, hitID)]
  {
    var ps := peaks + [hitID];
    assert ps[..|ps| - 1] == peaks;
    assert ps[|ps| - 1] == hitID;
    assert PeaksIn(v, ps) by {
      forall k | 0 <= k < |ps| ensures ps[k] < |v.sortedT| {
        if k < |peaks| {
          assert ps[k] == peaks[k];
        }
      }
    }
    PeakCandidatesUnfold(features, v, n0, ps);
  }

  /** A non-empty PeakCandidates is the candidates of all but the last peak, then the last peak's. */
  lemma PeakCandidatesUnfold(features: HitInfo -> Features, v: SortedView, n0: nat, peaks: seq<nat>)
    requires Sized(v) && PeaksIn(v, peaks) && peaks != []
    ensures PeaksIn(v, peaks[..|peaks| - 1])
    ensures PeakCandidates(features, v, n0, peaks)
         == PeakCandidates(features, v, n0, peaks[..|peaks| - 1]) + [PeakCandidate(features, v, n0 + |peaks| - 1, peaks[|peaks| - 1])]
  {
  }

  /** The candidates after c0, with one more peak, are the old ones followed by its candidate. */
  lemma CandidatesSnoc(features: HitInfo -> Features, v: SortedView, c0: seq<Candidate>, n0: nat, peaks: seq<nat>, hitID: nat)
    requires Sized(v) && PeaksIn(v, peaks) && hitID < |v.sortedT|
    ensures PeaksIn(v, peaks + [hitID])
    ensures c0 + PeakCandidates(features, v, n0, peaks + [hitID])
         == (c0 + PeakCandidates(features, v, n0, peaks)) + [PeakCandidate(features, v, n0 + |peaks|, hitID)]
  {
    PeakCandidatesSnoc(features, v, n0, peaks, hitID);
    var saved := PeakCandidates(features, v, n0, peaks);
    assert c0 + (saved + [PeakCandidate(features, v, n0 + |peaks|, hitID)])
        == (c0 + saved) + [PeakCandidate(features, v, n0 + |peaks|, hitID)];
  }

  class NTagEventInfo {
    // Tag conditions
    var N10TH: int
    var N10MX: int
    var N200MX: int
    var VTXSRCRANGE: real
    var T0TH: real
    var T0MX: real
    var TRBNWIDTH: real
    var TMATCHWINDOW: real
    var TMINPEAKSEP: real
    var ODHITMX: real

    // Prompt vertex
    var customvx: real
    var customvy: real
    var customvz: real
    var fVertexMode: VertexMode
    var pvx: real
    var pvy: real
    var pvz: real
    var dWall: real

    var bUseTMVA: bool
    var bSaveTQ: bool
    var bUseResidual: bool

    /** The largest PMT cable id in use. */
    const MAXPM: nat
    /** Time of flight [ns] from a vertex to a PMT (by 0-based PMT index). */
    const tof: (Vertex, int) -> real
    /** The features NTagCandidate computes from a candidate's hits. */
    const features: HitInfo -> Features
    /** The classifier's input variables (TMVATools.fVariables). */
    const tmvaVariables: TMVAVariables.NTagTMVAVariables

    // Raw hits
    var nqiskz: int
    var vTISKZ: seq<real>
    var vQISKZ: seq<real>
    var vCABIZ: seq<int>
    var vISIGZ: seq<int>
    /** Time of the last stored hit of each PMT. */
    const vPMTHitTime: array<real>
    var nTotalHits: int
    var nRemovedHits: int
    var nFoundSigHits: int
    var nTotalSigHits: int

    // Hits sorted by ToF-subtracted time
    var vSortedPMTID: seq<int>
    var vSortedT_ToF: seq<real>
    var vUnsortedT_ToF: seq<real>
    var vSortedQ: seq<real>
    var vSortedSigFlag: seq<int>
    /**
     * Raw hit index to sorted position, as SortToFSubtractedTQ fills it; its
     * declaration describes the opposite map, which is sortedIndex.
     */
    var reverseIndex: seq<nat>
    /** The order of the last sort: sorted position to raw hit index (sortedIndex). */
    ghost var sortedIndex: seq<nat>

    // Capture candidates
    var nCandidates: int
    var maxN200: int
    var maxN200Time: real
    var firstHitTime_ToF: real
    var vCandidates: seq<Candidate>
    var vHitRawTimes: seq<seq<real>>
    var vHitResTimes: seq<seq<real>>
    var vHitCableIDs: seq<seq<int>>
    var vHitSigFlags: seq<seq<int>>

    // Per-name feature columns
    var iCandidateVarMap: map<string, seq<int>>
    var fCandidateVarMap: map<string, seq<real>>
    var candidateVariablesInitialized: bool

    /** The raw triplet vCABIZ, vTISKZ, vQISKZ is index-aligned and nqiskz counts its hits. */
    predicate RawAligned()
      reads this`nqiskz, this`vTISKZ, this`vQISKZ, this`vCABIZ
    {
      |vTISKZ| == |vQISKZ| == |vCABIZ| == nqiskz
    }

    /** The sorted triplet vSortedPMTID, vSortedT_ToF, vSortedQ is index-aligned. */
    predicate SortedAligned()
      reads this`vSortedT_ToF, this`vSortedQ, this`vSortedPMTID
    {
      |vSortedT_ToF| == |vSortedQ| == |vSortedPMTID|
    }

    /**
     * nCandidates counts the candidates, each candidate has its index as id,
     * and its slices are recorded at the same index of vHitRawTimes,
     * vHitResTimes, vHitCableIDs and vHitSigFlags.
     */
    predicate CandidatesOk()
      reads this`nCandidates, this`vCandidates
      reads this`vHitRawTimes, this`vHitResTimes, this`vHitCableIDs, this`vHitSigFlags
    {
      && nCandidates == |vCandidates|
      && |vHitRawTimes| == |vHitResTimes| == |vHitCableIDs| == |vHitSigFlags| == |vCandidates|
      && (forall j :: 0 <= j < |vCandidates| ==>
            && vCandidates[j].id == j
            && vHitRawTimes[j] == vCandidates[j].hits.rawT
            && vHitResTimes[j] == vCandidates[j].hits.resT
            && vHitCableIDs[j] == vCandidates[j].hits.cabI
            && vHitSigFlags[j] == vCandidates[j].hits.sigF)
    }

    /** The class invariant: both triplets aligned, the candidates consistent, one last-hit time per PMT. */
    predicate Valid()
      reads this`nqiskz, this`vTISKZ, this`vQISKZ, this`vCABIZ
      reads this`vSortedT_ToF, this`vSortedQ, this`vSortedPMTID
      reads this`nCandidates, this`vCandidates
      reads this`vHitRawTimes, this`vHitResTimes, this`vHitCableIDs, this`vHitSigFlags
    {
      Aligned() && CandidatesOk()
    }

    /** Both triplets aligned and one last-hit time per PMT. */
    predicate Aligned()
      reads this`nqiskz, this`vTISKZ, this`vQISKZ, this`vCABIZ
      reads this`vSortedT_ToF, this`vSortedQ, this`vSortedPMTID
    {
      vPMTHitTime.Length == MAXPM + 1 && RawAligned() && SortedAligned()
    }

    /**
     * The sorted vectors hold exactly one sort of the current raw hits:
     * sortedIndex lists the raw indices in ascending order of ToF-subtracted
     * time, the sorted vectors are the raw ones read through it, and
     * reverseIndex holds the inverse raw-to-sorted map.
     */
    ghost predicate SortedReady()
      reads this`nqiskz, this`vTISKZ, this`vQISKZ, this`vCABIZ, this`vISIGZ, this`vUnsortedT_ToF
      reads this`vSortedT_ToF, this`vSortedQ, this`vSortedPMTID, this`vSortedSigFlag
      reads this`reverseIndex, this`sortedIndex
    {
      && RawAligned()
      && SortedHits(nqiskz, vUnsortedT_ToF, vQISKZ, vCABIZ, vISIGZ,
                    vSortedT_ToF, vSortedQ, vSortedPMTID, vSortedSigFlag, reverseIndex, sortedIndex)
    }

    /** The thresholds the peak search reads. */
    function SearchParams(): Params
      reads this`N10TH, this`N10MX, this`N200MX, this`T0TH, this`TMINPEAKSEP
    {
      Params(N10TH, N10MX, N200MX, T0TH, TMINPEAKSEP)
    }

    constructor(maxPM: nat, trbnWidth: real, tof: (Vertex, int) -> real, features: HitInfo -> Features)
      ensures Valid()
      ensures SearchParams() == Defaults()
      ensures T0MX == NTagDefault.T0MX && VTXSRCRANGE == NTagDefault.VTXSRCRANGE
      ensures TMATCHWINDOW == NTagDefault.TMATCHWINDOW && ODHITMX == NTagDefault.ODHITMX as real
      ensures MAXPM == maxPM && TRBNWIDTH == trbnWidth
      ensures customvx == 0.0 && customvy == 0.0 && customvz == 0.0
      ensures bUseTMVA && !bSaveTQ && bUseResidual && !candidateVariablesInitialized
      ensures vTISKZ == [] && vSortedT_ToF == [] && vCandidates == []
      ensures fresh(vPMTHitTime) && fresh(tmvaVariables)
      ensures tmvaVariables.Valid() && tmvaVariables.Cleared()
    {
      var vars := new TMVAVariables.NTagTMVAVariables();
      N10TH := NTagDefault.N10TH;
      N10MX := NTagDefault.N10MX;
      N200MX := NTagDefault.N200MX;
      T0TH := NTagDefault.T0TH;
      T0MX := NTagDefault.T0MX;
      TRBNWIDTH := trbnWidth;
      TMATCHWINDOW := NTagDefault.TMATCHWINDOW;
      TMINPEAKSEP := NTagDefault.TMINPEAKSEP;
      ODHITMX := NTagDefault.ODHITMX as real;
      VTXSRCRANGE := NTagDefault.VTXSRCRANGE;
      customvx, customvy, customvz := 0.0, 0.0, 0.0;
      fVertexMode := APFIT;
      pvx, pvy, pvz, dWall := 0.0, 0.0, 0.0, 0.0;
      bUseTMVA, bSaveTQ, bUseResidual := true, false, true;
      MAXPM := maxPM;
      this.tof := tof;
      this.features := features;
      nqiskz := 0;
      vTISKZ, vQISKZ, vCABIZ, vISIGZ := [], [], [], [];
      nTotalHits, nRemovedHits, nFoundSigHits, nTotalSigHits := 0, 0, 0, 0;
      vSortedPMTID, vSortedT_ToF, vUnsortedT_ToF, vSortedQ, vSortedSigFlag := [], [], [], [], [];
      reverseIndex := [];
      sortedIndex := [];
      nCandidates, maxN200, maxN200Time, firstHitTime_ToF := 0, 0, 0.0, 0.0;
      vCandidates := [];
      vHitRawTimes, vHitResTimes, vHitCableIDs, vHitSigFlags := [], [], [], [];
      iCandidateVarMap, fCandidateVarMap := map[], map[];
      candidateVariablesInitialized := false;
      vPMTHitTime := new real[maxPM + 1](_ => 0.0);
      tmvaVariables := vars;
    }

    // ------------------------------------------------------------------
    // Tag conditions

    method SetN10Limits(low: int, high: int := NTagDefault.N10MX)
      modifies this`N10TH, this`N10MX
      ensures N10TH == low && N10MX == high
    {
      N10TH, N10MX := low, high;
    }

    method SetN200Max(max: int)
      modifies this`N200MX
      ensures N200MX == max
    {
      N200MX := max;
    }

    method SetT0Limits(low: real, high: real := NTagDefault.T0MX)
      modifies this`T0TH, this`T0MX
      ensures T0TH == low && T0MX == high
    {
      T0TH, T0MX := low, high;
    }

    method SetDistanceCut(cut: real)
      modifies this`VTXSRCRANGE
      ensures VTXSRCRANGE == cut
    {
      VTXSRCRANGE := cut;
    }

    method SetTMatchWindow(t: real)
      modifies this`TMATCHWINDOW
      ensures TMATCHWINDOW == t
    {
      TMATCHWINDOW := t;
    }

    method SetTPeakSeparation(t: real)
      modifies this`TMINPEAKSEP
      ensures TMINPEAKSEP == t
    {
      TMINPEAKSEP := t;
    }

    method SetMaxODHitThreshold(q: real)
      modifies this`ODHITMX
      ensures ODHITMX == q
    {
      ODHITMX := q;
    }

    method SetVertexMode(m: VertexMode)
      modifies this`fVertexMode
      ensures fVertexMode == m
    {
      fVertexMode := m;
    }

    method UseTMVA(b: bool)
      modifies this`bUseTMVA
      ensures bUseTMVA == b
    {
      bUseTMVA := b;
    }

    method SetCustomVertex(x: real, y: real, z: real)
      modifies this`customvx, this`customvy, this`customvz, this`fVertexMode
      ensures customvx == x && customvy == y && customvz == z && fVertexMode == CUSTOM
    {
      customvx, customvy, customvz := x, y, z;
      fVertexMode := CUSTOM;
    }

    method SetSaveTQAs(b: bool)
      modifies this`bSaveTQ
      ensures bSaveTQ == b
    {
      bSaveTQ := b;
    }

    /** Whether no raw hit is buffered, i.e. no earlier readout of the event is pending. */
    function IsRawHitVectorEmpty(): (empty: bool)
      reads this`nqiskz, this`vTISKZ, this`vQISKZ, this`vCABIZ
      ensures empty <==> |vTISKZ| == 0
      ensures RawAligned() ==> (empty <==> nqiskz == 0)
    {
      |vTISKZ| == 0
    }

    /**
     * SetPromptVertex: in CUSTOM mode the custom vertex becomes the prompt
     * vertex; APFIT, BONSAI and TRUE take the vertex the external fit or the
     * MC truth provides (`fitted`); STMU leaves it. dWall is the distance to
     * the wall that `wallsk` computes for the resulting vertex.
     */
    method SetPromptVertex(fitted: Vertex, wallsk: Vertex -> real)
      modifies this`pvx, this`pvy, this`pvz, this`dWall
      ensures fVertexMode == CUSTOM ==> pvx == customvx && pvy == customvy && pvz == customvz
      ensures fVertexMode in {APFIT, BONSAI, TRUE} ==> Vertex(pvx, pvy, pvz) == fitted
      ensures fVertexMode == STMU ==> pvx == old(pvx) && pvy == old(pvy) && pvz == old(pvz)
      ensures dWall == wallsk(Vertex(pvx, pvy, pvz))
    {
      match fVertexMode {
        case APFIT => pvx, pvy, pvz := fitted.x, fitted.y, fitted.z;
        case BONSAI => pvx, pvy, pvz := fitted.x, fitted.y, fitted.z;
        case CUSTOM => pvx, pvy, pvz := customvx, customvy, customvz;
        case TRUE => pvx, pvy, pvz := fitted.x, fitted.y, fitted.z;
        case STMU =>
      }
      dWall := wallsk(Vertex(pvx, pvy, pvz));
    }

    // ------------------------------------------------------------------
    // Raw hit buffer

    /** What AppendRawHitInfo keeps fixed: MAXPM, the dead time, the signal hits, the last stored hit. */
    function AppendEnv(sigTQ: Option<SignalTQ>): Env
      reads this`nqiskz, this`vTISKZ, this`vQISKZ, this`vCABIZ, this`TRBNWIDTH
      requires RawAligned()
    {
      var last := LastStored(vTISKZ, vQISKZ, vCABIZ);
      Env(MAXPM, TRBNWIDTH * 1000.0, sigTQ, last.0, last.1, last.2)
    }

    /** The fields AppendRawHitInfo updates, with its local offset and coincidence flag. */
    function CurrentBuf(tOffset: real, found: bool): Buf
      reads this`vTISKZ, this`vQISKZ, this`vCABIZ, this`vISIGZ, vPMTHitTime
      reads this`nTotalHits, this`nRemovedHits, this`nFoundSigHits, this`nTotalSigHits
    {
      Buf(tOffset, found, vTISKZ, vQISKZ, vCABIZ, vISIGZ, vPMTHitTime[..],
          nTotalHits, nRemovedHits, nFoundSigHits, nTotalSigHits)
    }

    /** One pass of AppendRawHitInfo's loop: HitBuffer.AppendHit applied to the fields in place. */
    method AppendOneHit(h: RawHit, sigTQ: Option<SignalTQ>, tLast: real, qLast: real, pmtLast: int,
                        tOffset: real, coincidenceFound: bool, ghost env: Env)
      returns (tOffset': real, coincidenceFound': bool)
      requires env == Env(MAXPM, TRBNWIDTH * 1000.0, sigTQ, tLast, qLast, pmtLast)
      requires EnvOk(env) && BufOk(env, CurrentBuf(tOffset, coincidenceFound))
      requires Eligible(h, MAXPM) ==> 0 <= h.cab
      modifies this`vTISKZ, this`vQISKZ, this`vCABIZ, this`vISIGZ
      modifies this`nTotalHits, this`nRemovedHits, this`nFoundSigHits, this`nTotalSigHits, vPMTHitTime
      ensures CurrentBuf(tOffset', coincidenceFound') == AppendHit(env, h, old(CurrentBuf(tOffset, coincidenceFound)))
      ensures CandidatesOk() == old(CandidatesOk()) && SortedAligned() == old(SortedAligned())
    {
      ghost var b := CurrentBuf(tOffset, coincidenceFound);
      tOffset', coincidenceFound' := tOffset, coincidenceFound;
      if !coincidenceFound' && h.q == qLast && h.cab == pmtLast {
        tOffset' := tLast - h.t;
        coincidenceFound' := true;
      }
      assert CurrentBuf(tOffset', coincidenceFound') == Align(env, h, b);
      if h.flag & 2 != 0 && h.cab <= MAXPM {
        TakeEligibleHit(h, sigTQ, tOffset', coincidenceFound', env, b);
      }
    }

    /** The eligible branch of AppendOneHit: the hit is counted, then removed or stored. */
    method TakeEligibleHit(h: RawHit, sigTQ: Option<SignalTQ>, tOffset: real, found: bool, ghost env: Env, ghost b: Buf)
      requires env.maxPM == MAXPM && env.deadTime == TRBNWIDTH * 1000.0 && env.sig == sigTQ
      requires EnvOk(env) && BufOk(env, b) && Eligible(h, MAXPM) && 0 <= h.cab
      requires CurrentBuf(tOffset, found) == Align(env, h, b)
      modifies this`vTISKZ, this`vQISKZ, this`vCABIZ, this`vISIGZ
      modifies this`nTotalHits, this`nRemovedHits, this`nFoundSigHits, this`nTotalSigHits, vPMTHitTime
      ensures CurrentBuf(tOffset, found) == AppendHit(env, h, b)
      ensures CandidatesOk() == old(CandidatesOk()) && SortedAligned() == old(SortedAligned())
    {
      var hitPMTID := h.cab;
      var hitTime := h.t + tOffset;
      CountHit(tOffset, found);
      if Abs(hitTime - vPMTHitTime[hitPMTID]) < TRBNWIDTH * 1000.0 {
        RemoveHit(tOffset, found);
      } else {
        KeepHit(h, sigTQ, hitTime, tOffset, found, env);
      }
    }

    /** The kept branch of AppendOneHit: the hit is stored and, with signal hits loaded, marked. */
    method KeepHit(h: RawHit, sigTQ: Option<SignalTQ>, hitTime: real, tOffset: real, found: bool, ghost env: Env)
      requires env.sig == sigTQ && EnvOk(env) && 0 <= h.cab < vPMTHitTime.Length
      modifies this`vTISKZ, this`vQISKZ, this`vCABIZ, this`vISIGZ
      modifies this`nFoundSigHits, this`nTotalSigHits, vPMTHitTime
      ensures CurrentBuf(tOffset, found) == Stored(env, h, old(CurrentBuf(tOffset, found)), hitTime)
      ensures CandidatesOk() == old(CandidatesOk()) && SortedAligned() == old(SortedAligned())
    {
      StoreHit(hitTime, h.q, h.cab, tOffset, found);
      if sigTQ.Some? {
        var isSignal := IsSignalHit(hitTime, h.cab, sigTQ.value);
        MarkSignal(|sigTQ.value.times|, isSignal, tOffset, found);
      }
    }

    /** An eligible hit is counted. */
    method CountHit(ghost tOffset: real, ghost found: bool)
      modifies this`nTotalHits
      ensures CurrentBuf(tOffset, found) == old(CurrentBuf(tOffset, found)).(nTotal := old(nTotalHits) + 1)
      ensures CandidatesOk() == old(CandidatesOk()) && SortedAligned() == old(SortedAligned())
    {
      nTotalHits := nTotalHits + 1;
    }

    /** An eligible hit within its PMT's dead time is counted as removed. */
    method RemoveHit(ghost tOffset: real, ghost found: bool)
      modifies this`nRemovedHits
      ensures CurrentBuf(tOffset, found) == old(CurrentBuf(tOffset, found)).(nRemoved := old(nRemovedHits) + 1)
      ensures CandidatesOk() == old(CandidatesOk()) && SortedAligned() == old(SortedAligned())
    {
      nRemovedHits := nRemovedHits + 1;
    }

    /** A hit is stored: its time, charge and PMT appended, and the PMT's last-hit time updated. */
    method StoreHit(hitTime: real, q: real, cab: int, ghost tOffset: real, ghost found: bool)
      requires 0 <= cab < vPMTHitTime.Length
      modifies this`vTISKZ, this`vQISKZ, this`vCABIZ, vPMTHitTime
      ensures CurrentBuf(tOffset, found)
           == old(CurrentBuf(tOffset, found)).(T := old(vTISKZ) + [hitTime], Q := old(vQISKZ) + [q],
                                               C := old(vCABIZ) + [cab], pmtTime := old(vPMTHitTime[..])[cab := hitTime])
      ensures CandidatesOk() == old(CandidatesOk()) && SortedAligned() == old(SortedAligned())
    {
      vTISKZ, vQISKZ, vCABIZ := vTISKZ + [hitTime], vQISKZ + [q], vCABIZ + [cab];
      vPMTHitTime[cab] := hitTime;
    }

    /** The signal flag of a stored hit, with the signal-hit counts. */
    method MarkSignal(nSig: int, isSignal: bool, ghost tOffset: real, ghost found: bool)
      modifies this`nTotalSigHits, this`vISIGZ, this`nFoundSigHits
      ensures CurrentBuf(tOffset, found)
           == old(CurrentBuf(tOffset, found)).(nTotalSig := nSig, S := old(vISIGZ) + [if isSignal then 1 else 0],
                                               nFoundSig := if isSignal then old(nFoundSigHits) + 1 else old(nFoundSigHits))
      ensures CandidatesOk() == old(CandidatesOk()) && SortedAligned() == old(SortedAligned())
    {
      nTotalSigHits := nSig;
      if isSignal {
        vISIGZ := vISIGZ + [1];
        nFoundSigHits := nFoundSigHits + 1;
      } else {
        vISIGZ := vISIGZ + [0];
      }
    }

    /**
     * AppendRawHitInfo: the readout `hits` (and the event's signal hits, if a
     * signal file is loaded) are appended as HitBuffer.AppendUpTo describes:
     * the raw triplet only grows and stays aligned, every eligible hit is
     * counted and either stored or removed by the per-PMT dead time, and
     * vPMTHitTime holds each PMT's last stored time. nqiskz counts the hits.
     */
    method AppendRawHitInfo(hits: seq<RawHit>, sigTQ: Option<SignalTQ>)
      requires Valid()
      requires sigTQ.Some? ==> |sigTQ.value.times| <= |sigTQ.value.cables|
      requires HitsOk(hits, MAXPM)
      modifies this`vTISKZ, this`vQISKZ, this`vCABIZ, this`vISIGZ, this`nqiskz
      modifies this`nTotalHits, this`nRemovedHits, this`nFoundSigHits, this`nTotalSigHits, vPMTHitTime
      ensures Valid()
      ensures var env := old(AppendEnv(sigTQ));
              var b0 := old(CurrentBuf(0.0, vTISKZ == []));
              var b := AppendUpTo(env, hits, |hits|, b0);
              && vTISKZ == b.T && vQISKZ == b.Q && vCABIZ == b.C && vISIGZ == b.S
              && vPMTHitTime[..] == b.pmtTime
              && nTotalHits == b.nTotal && nRemovedHits == b.nRemoved
              && nFoundSigHits == b.nFoundSig && nTotalSigHits == b.nTotalSig
              && AppendOk(env, hits, |hits|, b0, b)
      ensures nqiskz == |vTISKZ|
    {
      ghost var env := AppendEnv(sigTQ);
      ghost var b0 := CurrentBuf(0.0, vTISKZ == []);
      var tOffset := 0.0;
      var tLast := 0.0;
      var qLast := 0.0;
      var pmtLast := 0;
      var coincidenceFound := true;
      if vTISKZ != [] {
        coincidenceFound := false;
        tLast := vTISKZ[|vTISKZ| - 1];
        qLast := vQISKZ[|vQISKZ| - 1];
        pmtLast := vCABIZ[|vCABIZ| - 1];
      }
      assert env.tLast == tLast && env.qLast == qLast && env.pmtLast == pmtLast;

      tOffset, coincidenceFound := AppendHits(hits, sigTQ, tLast, qLast, pmtLast, coincidenceFound, env, b0);
      AppendInvariant(env, hits, |hits|, b0);
      nqiskz := |vTISKZ|;
    }

    /** The loop of AppendRawHitInfo over the readout, from offset 0. */
    method AppendHits(hits: seq<RawHit>, sigTQ: Option<SignalTQ>, tLast: real, qLast: real, pmtLast: int,
                      found0: bool, ghost env: Env, ghost b0: Buf)
      returns (tOffset: real, coincidenceFound: bool)
      requires env == Env(MAXPM, TRBNWIDTH * 1000.0, sigTQ, tLast, qLast, pmtLast)
      requires EnvOk(env) && BufOk(env, b0) && HitsOk(hits, MAXPM)
      requires b0 == CurrentBuf(0.0, found0)
      modifies this`vTISKZ, this`vQISKZ, this`vCABIZ, this`vISIGZ
      modifies this`nTotalHits, this`nRemovedHits, this`nFoundSigHits, this`nTotalSigHits, vPMTHitTime
      ensures AppendUpTo(env, hits, |hits|, b0) == CurrentBuf(tOffset, coincidenceFound)
      ensures CandidatesOk() == old(CandidatesOk()) && SortedAligned() == old(SortedAligned())
    {
      tOffset, coincidenceFound := 0.0, found0;
      for iHit := 0 to |hits|
        invariant AppendUpTo(env, hits, iHit, b0) == CurrentBuf(tOffset, coincidenceFound)
        invariant CandidatesOk() == old(CandidatesOk()) && SortedAligned() == old(SortedAligned())
      {
        tOffset, coincidenceFound := AppendOneHit(hits[iHit], sigTQ, tLast, qLast, pmtLast, tOffset, coincidenceFound, env);
      }
    }

    // ------------------------------------------------------------------
    // ToF subtraction and sorting

    /**
     * GetToFSubtracted: every hit time minus the time of flight from the
     * vertex to its PMT (PMT ids are 1-based), in hit order, or sorted
     * ascending when doSort is set.
     */
    method GetToFSubtracted(T: seq<real>, PMTID: seq<int>, vertex: Vertex, doSort: bool) returns (r: seq<real>)
      requires |T| == |PMTID|
      ensures !doSort ==> r == ToFResiduals(T, PMTID, vertex, tof)
      ensures doSort ==> r == Gather(ToFResiduals(T, PMTID, vertex, tof), SortOrder(ToFResiduals(T, PMTID, vertex, tof)))
      ensures doSort ==> Ascending(r) && multiset(r) == multiset(ToFResiduals(T, PMTID, vertex, tof))
    {
      var t_ToF: seq<real> := [];
      var doSortT_ToF: seq<real> := [];
      var nHits := |T|;
      for iHit := 0 to nHits
        invariant |t_ToF| == iHit
        invariant forall k :: 0 <= k < iHit ==> t_ToF[k] == T[k] - tof(vertex, PMTID[k] - 1)
      {
        var pmtID := PMTID[iHit] - 1;
        t_ToF := t_ToF + [T[iHit] - tof(vertex, pmtID)];
      }
      assert t_ToF == ToFResiduals(T, PMTID, vertex, tof);
      if doSort {
        var sortedIndex := SortOrder(t_ToF);
        for iHit := 0 to nHits
          invariant |doSortT_ToF| == iHit
          invariant forall k :: 0 <= k < iHit ==> doSortT_ToF[k] == t_ToF[sortedIndex[k]]
        {
          doSortT_ToF := doSortT_ToF + [t_ToF[sortedIndex[iHit]]];
        }
        assert doSortT_ToF == Gather(t_ToF, sortedIndex);
        SortedKeysAscendAndPermute(t_ToF);
        return doSortT_ToF;
      } else {
        return t_ToF;
      }
    }

    /** The sorted vectors hold no hit. */
    predicate SortedEmpty()
      reads this`vSortedT_ToF, this`vSortedQ, this`vSortedPMTID, this`vSortedSigFlag
    {
      vSortedT_ToF == [] && vSortedQ == [] && vSortedPMTID == [] && vSortedSigFlag == []
    }

    /**
     * The first nqiskz ToF-subtracted times have been sorted ascending and
     * the sorted times, charges, PMT ids and (when loaded) signal flags
     * appended, in that order, to sorted vectors that held T0, Q0, C0 and
     * S0; reverseIndex records for every raw hit its sorted position.
     */
    ghost predicate SortAppended(T0: seq<real>, Q0: seq<real>, C0: seq<int>, S0: seq<int>)
      reads this`nqiskz, this`vTISKZ, this`vQISKZ, this`vCABIZ, this`vISIGZ, this`vUnsortedT_ToF
      reads this`vSortedT_ToF, this`vSortedQ, this`vSortedPMTID, this`vSortedSigFlag
      reads this`reverseIndex, this`sortedIndex
    {
      && RawAligned() && nqiskz <= |vUnsortedT_ToF| && (vISIGZ != [] ==> nqiskz <= |vISIGZ|)
      && var keys := vUnsortedT_ToF[..nqiskz];
         && sortedIndex == SortOrder(keys)
         && reverseIndex == Scatter(sortedIndex, nqiskz, nqiskz)
         && (forall i :: 0 <= i < nqiskz ==> reverseIndex[sortedIndex[i]] == i)
         && vSortedT_ToF == T0 + Gather(keys, sortedIndex)
         && vSortedQ == Q0 + Gather(vQISKZ, sortedIndex)
         && vSortedPMTID == C0 + Gather(vCABIZ, sortedIndex)
         && vSortedSigFlag == S0 + (if vISIGZ == [] then [] else Gather(vISIGZ[..nqiskz], sortedIndex))
    }

    /**
     * SortToFSubtractedTQ: the first nqiskz ToF-subtracted times are sorted
     * ascending and the sorted times, PMT ids, charges and (when loaded)
     * signal flags are appended to the sorted vectors in that order;
     * reverseIndex, resized to nqiskz zeros, receives
     * reverseIndex[sortedIndex[i]] = i for every sorted position i, so it
     * records for every raw hit its sorted position. From empty sorted
     * vectors this leaves exactly one sort of the raw hits.
     */
    method SortToFSubtractedTQ()
      requires Valid() && nqiskz <= |vUnsortedT_ToF|
      requires vISIGZ != [] ==> nqiskz <= |vISIGZ|
      modifies this`vSortedPMTID, this`vSortedT_ToF, this`vSortedQ, this`vSortedSigFlag
      modifies this`reverseIndex, this`sortedIndex
      ensures Valid()
      ensures SortAppended(old(vSortedT_ToF), old(vSortedQ), old(vSortedPMTID), old(vSortedSigFlag))
      ensures old(SortedEmpty()) ==> SortedReady()
    {
      var n: nat := nqiskz;
      var keys := vUnsortedT_ToF[..n];
      var order := SortOrder(keys);
      assert IsPermutation(order, n) by { SortOrderSortsAndPermutes(keys); }
      ghost var wasEmpty := SortedEmpty();
      var sortedCab, sortedT, sortedQ, reverse := ReorderHits(vCABIZ, keys, vQISKZ, order);
      var sortedSig: seq<int> := [];
      if vISIGZ != [] {
        sortedSig := Reorder(vISIGZ[..n], order);
      }
      AppendSorted(sortedCab, sortedT, sortedQ, sortedSig, reverse, order);
      if wasEmpty {
        assert vSortedT_ToF == sortedT && vSortedQ == sortedQ && vSortedPMTID == sortedCab && vSortedSigFlag == sortedSig;
        SortOrderGivesSortedHits(n, vUnsortedT_ToF, vQISKZ, vCABIZ, vISIGZ,
                                 vSortedT_ToF, vSortedQ, vSortedPMTID, vSortedSigFlag, reverseIndex, sortedIndex);
      }
    }

    /** The push_backs of SortToFSubtractedTQ, with the reverse index and the order it records. */
    method AppendSorted(sortedCab: seq<int>, sortedT: seq<real>, sortedQ: seq<real>, sortedSig: seq<int>,
                        reverse: seq<nat>, ghost order: seq<nat>)
      requires Valid() && |sortedCab| == |sortedT| == |sortedQ|
      modifies this`vSortedPMTID, this`vSortedT_ToF, this`vSortedQ, this`vSortedSigFlag
      modifies this`reverseIndex, this`sortedIndex
      ensures Valid()
      ensures vSortedPMTID == old(vSortedPMTID) + sortedCab
      ensures vSortedT_ToF == old(vSortedT_ToF) + sortedT
      ensures vSortedQ == old(vSortedQ) + sortedQ
      ensures vSortedSigFlag == old(vSortedSigFlag) + sortedSig
      ensures reverseIndex == reverse && sortedIndex == order
    {
      AppendSortedTriplet(sortedCab, sortedT, sortedQ);
      RecordSortOrder(sortedSig, reverse, order);
    }

    /** The sorted PMT ids, times and charges of AppendSorted. */
    method AppendSortedTriplet(sortedCab: seq<int>, sortedT: seq<real>, sortedQ: seq<real>)
      requires Valid() && |sortedCab| == |sortedT| == |sortedQ|
      modifies this`vSortedPMTID, this`vSortedT_ToF, this`vSortedQ
      ensures Valid()
      ensures vSortedPMTID == old(vSortedPMTID) + sortedCab
      ensures vSortedT_ToF == old(vSortedT_ToF) + sortedT
      ensures vSortedQ == old(vSortedQ) + sortedQ
    {
      vSortedPMTID := vSortedPMTID + sortedCab;
      vSortedT_ToF := vSortedT_ToF + sortedT;
      vSortedQ := vSortedQ + sortedQ;
    }

    /** The signal flags, the reverse index and the order of AppendSorted. */
    method RecordSortOrder(sortedSig: seq<int>, reverse: seq<nat>, ghost order: seq<nat>)
      modifies this`vSortedSigFlag, this`reverseIndex, this`sortedIndex
      ensures Valid() == old(Valid())
      ensures vSortedSigFlag == old(vSortedSigFlag) + sortedSig
      ensures reverseIndex == reverse && sortedIndex == order
    {
      vSortedSigFlag := vSortedSigFlag + sortedSig;
      reverseIndex := reverse;
      sortedIndex := order;
    }

    /**
     * SetToFSubtractedTQ: the unsorted series is the ToF-subtracted raw times
     * from the prompt vertex when residuals are in use, the raw times
     * otherwise; it is then sorted as SortToFSubtractedTQ describes.
     */
    method SetToFSubtractedTQ()
      requires Valid()
      requires vISIGZ != [] ==> nqiskz <= |vISIGZ|
      modifies this`vUnsortedT_ToF
      modifies this`vSortedPMTID, this`vSortedT_ToF, this`vSortedQ, this`vSortedSigFlag
      modifies this`reverseIndex, this`sortedIndex
      ensures Valid()
      ensures vUnsortedT_ToF == if bUseResidual then ToFResiduals(vTISKZ, vCABIZ, Vertex(pvx, pvy, pvz), tof) else vTISKZ
      ensures |vUnsortedT_ToF| == nqiskz
      ensures SortAppended(old(vSortedT_ToF), old(vSortedQ), old(vSortedPMTID), old(vSortedSigFlag))
      ensures old(SortedEmpty()) ==> SortedReady()
    {
      ghost var T0, Q0, C0, S0 := vSortedT_ToF, vSortedQ, vSortedPMTID, vSortedSigFlag;
      SubtractToF();
      SortToFSubtractedTQ();
      assert SortAppended(T0, Q0, C0, S0);
    }

    /** The first half of SetToFSubtractedTQ: the ToF-subtracted times, unsorted. */
    method SubtractToF()
      requires Valid()
      requires vISIGZ != [] ==> nqiskz <= |vISIGZ|
      modifies this`vUnsortedT_ToF
      ensures Valid() && |vUnsortedT_ToF| == nqiskz
      ensures vISIGZ != [] ==> nqiskz <= |vISIGZ|
      ensures && vSortedT_ToF == old(vSortedT_ToF) && vSortedQ == old(vSortedQ)
              && vSortedPMTID == old(vSortedPMTID) && vSortedSigFlag == old(vSortedSigFlag)
      ensures SortedEmpty() == old(SortedEmpty())
      ensures vUnsortedT_ToF == if bUseResidual then ToFResiduals(vTISKZ, vCABIZ, Vertex(pvx, pvy, pvz), tof) else vTISKZ
    {
      if bUseResidual {
        vUnsortedT_ToF := GetToFSubtracted(vTISKZ, vCABIZ, Vertex(pvx, pvy, pvz), false);
      } else {
        vUnsortedT_ToF := vTISKZ;
      }
    }

    // ------------------------------------------------------------------
    // Candidates

    /** The vectors SavePeakFromHit slices, as a value. */
    function View(): SortedView
      reads this`vTISKZ, this`vSortedT_ToF, this`vSortedQ, this`vSortedPMTID, this`vSortedSigFlag, this`reverseIndex
    {
      SortedView(vTISKZ, vSortedT_ToF, vSortedQ, vSortedPMTID, vSortedSigFlag, reverseIndex)
    }

    /**
     * The sorted vectors and the reverse index have one entry per raw hit,
     * the sizes SavePeakFromHit indexes by.
     */
    predicate SortedSized()
      reads this`nqiskz, this`vTISKZ, this`vQISKZ, this`vCABIZ
      reads this`vSortedT_ToF, this`vSortedQ, this`vSortedPMTID, this`vSortedSigFlag, this`reverseIndex
    {
      |vSortedT_ToF| == nqiskz && Sized(View())
    }

    /** A sort of the raw hits has the sizes SavePeakFromHit indexes by. */
    lemma SortedReadyIsSized()
      requires SortedReady()
      ensures SortedSized()
    {
    }

    /**
     * On sorted hits, a candidate's residual times, charges, PMT ids and
     * signal flags are those of the raw hits sortedIndex[hitID + k], and its
     * residual times are exactly the hits within 10 ns after hit hitID: the
     * next sorted hit, if any, lies 10 ns or more after it. Its raw times are
     * read through reverseIndex as filled: entry k is the raw time at the
     * index that is the sorted position of raw hit hitID + k, in general not
     * the same hit as residual time k (HitSorting.RawTimesAsWrittenMismatch).
     */
    lemma PeakHitsOfSortedHits(hitID: nat)
      requires SortedReady() && hitID < nqiskz
      ensures SortedSized()
      ensures var h := PeakHits(View(), hitID); var n := |h.resT|;
        && (forall k :: 0 <= k < n ==>
              && reverseIndex[hitID + k] < nqiskz
              && sortedIndex[reverseIndex[hitID + k]] == hitID + k
              && h.rawT[k] == vTISKZ[reverseIndex[hitID + k]]
              && sortedIndex[hitID + k] < nqiskz
              && h.resT[k] == vUnsortedT_ToF[sortedIndex[hitID + k]]
              && h.pmtQ[k] == vQISKZ[sortedIndex[hitID + k]]
              && h.cabI[k] == vCABIZ[sortedIndex[hitID + k]]
              && (vSortedSigFlag != [] ==> h.sigF[k] == vISIGZ[sortedIndex[hitID + k]])
              && vSortedT_ToF[hitID] <= h.resT[k])
        && (hitID + n < nqiskz ==> vSortedT_ToF[hitID + n] >= vSortedT_ToF[hitID] + 10.0)
    {
      var h := PeakHits(View(), hitID);
      var n := |h.resT|;
      forall k | 0 <= k < n
        ensures sortedIndex[hitID + k] < nqiskz
        ensures h.resT[k] == vUnsortedT_ToF[sortedIndex[hitID + k]]
        ensures vSortedT_ToF[hitID] <= h.resT[k]
      {
        SortedHitAt(hitID + k);
      }
    }

    /** The sorted hit j is raw hit sortedIndex[j], and reverseIndex[j] is the sorted position of raw hit j. */
    lemma SortedHitAt(j: nat)
      requires SortedReady() && j < nqiskz
      ensures sortedIndex[j] < nqiskz
      ensures vSortedT_ToF[j] == vUnsortedT_ToF[sortedIndex[j]]
      ensures reverseIndex[j] < nqiskz && sortedIndex[reverseIndex[j]] == j
    {
      assert vSortedT_ToF[j] == Gather(vUnsortedT_ToF[..nqiskz], sortedIndex)[j];
    }

    /**
     * The raw-time slice as the declaration of reverseIndex describes it,
     * read through the sorted-to-raw map sortedIndex: entry k is then the
     * raw time of the same hit as residual time k, so without time-of-flight
     * subtraction a candidate's raw and residual times agree, and with it
     * they differ hit by hit by that hit's time of flight.
     */
    lemma PeakHitsIntended(hitID: nat)
      requires SortedReady() && hitID < nqiskz
      ensures Sized(View().(reverse := sortedIndex))
      ensures var h := PeakHits(View().(reverse := sortedIndex), hitID); var n := |h.resT|;
        && (forall k :: 0 <= k < n ==>
              && sortedIndex[hitID + k] < nqiskz
              && h.rawT[k] == vTISKZ[sortedIndex[hitID + k]]
              && h.resT[k] == vUnsortedT_ToF[sortedIndex[hitID + k]])
        && (vUnsortedT_ToF == vTISKZ ==> h.rawT == h.resT)
    {
      var v := View().(reverse := sortedIndex);
      var h := PeakHits(v, hitID);
      var n := |h.resT|;
      forall k | 0 <= k < n
        ensures sortedIndex[hitID + k] < nqiskz
        ensures h.resT[k] == vUnsortedT_ToF[sortedIndex[hitID + k]]
      {
        SortedHitAt(hitID + k);
      }
    }

    /**
     * SavePeakFromHit: one candidate, numbered by the number of candidates
     * before it, is appended with the slices of PeakHits; its slices are
     * pushed onto vHitRawTimes, vHitResTimes, vHitCableIDs and vHitSigFlags,
     * and nCandidates grows by one.
     */
    method SavePeakFromHit(hitID: nat)
      requires CandidatesOk() && SortedSized() && hitID < nqiskz
      modifies this`vCandidates, this`nCandidates
      modifies this`vHitRawTimes, this`vHitResTimes, this`vHitCableIDs, this`vHitSigFlags
      ensures CandidatesOk()
      ensures View() == old(View()) && SearchParams() == old(SearchParams()) && nqiskz == old(nqiskz)
      ensures Aligned() == old(Aligned())
      ensures vCandidates == old(vCandidates) + [PeakCandidate(features, View(), |old(vCandidates)|, hitID)]
      ensures nCandidates == old(nCandidates) + 1
      ensures vHitRawTimes == old(vHitRawTimes) + [PeakHits(View(), hitID).rawT]
      ensures vHitResTimes == old(vHitResTimes) + [PeakHits(View(), hitID).resT]
      ensures vHitCableIDs == old(vHitCableIDs) + [PeakHits(View(), hitID).cabI]
      ensures vHitSigFlags == old(vHitSigFlags) + [PeakHits(View(), hitID).sigF]
    {
      var tWidth := 10.0;
      var resTVec := GetVectorFromStartIndex(vSortedT_ToF, hitID, tWidth);
      var n10 := |resTVec|;
      var rawTVec := SliceVectorMapped(vTISKZ, hitID, n10, reverseIndex);
      var pmtQVec := SliceVector(vSortedQ, hitID, n10);
      var cabIVec := SliceVector(vSortedPMTID, hitID, n10);
      var sigFVec: seq<int> := [];
      if vSortedSigFlag != [] {
        sigFVec := SliceVector(vSortedSigFlag, hitID, n10);
      }
      var hits := HitInfo(rawTVec, resTVec, pmtQVec, cabIVec, sigFVec);
      assert hits == PeakHits(View(), hitID);
      PushCandidate(hits);
    }

    /** Appends a candidate made of `hits`, numbered next, and records its slices. */
    method PushCandidate(hits: HitInfo)
      requires CandidatesOk()
      modifies this`vCandidates, this`nCandidates
      modifies this`vHitRawTimes, this`vHitResTimes, this`vHitCableIDs, this`vHitSigFlags
      ensures CandidatesOk()
      ensures View() == old(View()) && SearchParams() == old(SearchParams()) && nqiskz == old(nqiskz)
      ensures Aligned() == old(Aligned())
      ensures vCandidates == old(vCandidates) + [Candidate(|old(vCandidates)|, hits, features(hits))]
      ensures nCandidates == old(nCandidates) + 1
      ensures vHitRawTimes == old(vHitRawTimes) + [hits.rawT]
      ensures vHitResTimes == old(vHitResTimes) + [hits.resT]
      ensures vHitCableIDs == old(vHitCableIDs) + [hits.cabI]
      ensures vHitSigFlags == old(vHitSigFlags) + [hits.sigF]
    {
      AppendCandidate(hits);
      AppendSlices(hits);
    }

    /** Appends the candidate made of `hits`, numbered next. */
    method AppendCandidate(hits: HitInfo)
      modifies this`vCandidates, this`nCandidates
      ensures View() == old(View()) && SearchParams() == old(SearchParams()) && nqiskz == old(nqiskz)
      ensures Aligned() == old(Aligned())
      ensures vCandidates == old(vCandidates) + [Candidate(|old(vCandidates)|, hits, features(hits))]
      ensures nCandidates == old(nCandidates) + 1
    {
      vCandidates := vCandidates + [Candidate(|vCandidates|, hits, features(hits))];
      nCandidates := nCandidates + 1;
    }

    /** Records the slices of `hits` in vHitRawTimes, vHitResTimes, vHitCableIDs and vHitSigFlags. */
    method AppendSlices(hits: HitInfo)
      modifies this`vHitRawTimes, this`vHitResTimes, this`vHitCableIDs, this`vHitSigFlags
      ensures View() == old(View()) && SearchParams() == old(SearchParams()) && nqiskz == old(nqiskz)
      ensures Aligned() == old(Aligned())
      ensures vHitRawTimes == old(vHitRawTimes) + [hits.rawT]
      ensures vHitResTimes == old(vHitResTimes) + [hits.resT]
      ensures vHitCableIDs == old(vHitCableIDs) + [hits.cabI]
      ensures vHitSigFlags == old(vHitSigFlags) + [hits.sigF]
    {
      vHitRawTimes := vHitRawTimes + [hits.rawT];
      vHitResTimes := vHitResTimes + [hits.resT];
      vHitCableIDs := vHitCableIDs + [hits.cabI];
      vHitSigFlags := vHitSigFlags + [hits.sigF];
    }

    /**
     * SavePeakFromHit as the search calls it: with the candidates so far
     * those of `peaks`, after it they are those of peaks + [hitID].
     */
    method EmitPeak(hitID: nat, ghost v: SortedView, ghost n0: nat, ghost c0: seq<Candidate>, ghost peaks: seq<nat>)
      requires CandidatesOk() && SortedSized() && hitID < nqiskz
      requires View() == v && PeaksIn(v, peaks)
      requires |c0| == n0 && vCandidates == c0 + PeakCandidates(features, v, n0, peaks)
      modifies this`vCandidates, this`nCandidates
      modifies this`vHitRawTimes, this`vHitResTimes, this`vHitCableIDs, this`vHitSigFlags
      ensures CandidatesOk() && PeaksIn(v, peaks + [hitID])
      ensures View() == old(View()) && SearchParams() == old(SearchParams()) && nqiskz == old(nqiskz)
      ensures Aligned() == old(Aligned())
      ensures vCandidates == c0 + PeakCandidates(features, v, n0, peaks + [hitID])
    {
      ghost var saved := PeakCandidates(features, v, n0, peaks);
      ghost var before := vCandidates;
      SavePeakFromHit(hitID);
      assert View() == v;
      ghost var cand := PeakCandidate(features, v, n0 + |peaks|, hitID);
      assert |before| == n0 + |peaks|;
      assert PeakCandidate(features, View(), |before|, hitID) == cand;
      assert vCandidates == before + [cand];
      CandidatesSnoc(features, v, c0, n0, peaks, hitID);
    }

    /** The time of the first hit past T0TH, recorded once (0 marks it unset). */
    method RecordFirstHit(t: real)
      modifies this`firstHitTime_ToF
      ensures View() == old(View()) && SearchParams() == old(SearchParams()) && nqiskz == old(nqiskz)
      ensures Aligned() == old(Aligned())
      ensures firstHitTime_ToF == if old(firstHitTime_ToF) == 0.0 then t else old(firstHitTime_ToF)
    {
      if firstHitTime_ToF == 0.0 {
        firstHitTime_ToF := t;
      }
    }

    /** The running maximum of N200 over hits past T0TH, and the time it was reached. */
    method RaiseMaxN200(t0New: real, N200New: int)
      modifies this`maxN200, this`maxN200Time
      ensures View() == old(View()) && SearchParams() == old(SearchParams()) && nqiskz == old(nqiskz)
      ensures Aligned() == old(Aligned())
      ensures var raise := Micro(t0New) > T0TH && N200New > old(maxN200);
        && maxN200 == (if raise then N200New else old(maxN200))
        && maxN200Time == (if raise then t0New else old(maxN200Time))
    {
      if Micro(t0New) > T0TH && N200New > maxN200 {
        maxN200 := N200New;
        maxN200Time := t0New;
      }
    }

    /**
     * The part of the loop body of SearchCaptureCandidates that runs for a
     * hit iHit whose N10 (N10New) passes the gate, with the tracked anchor
     * in (iHitPrevious, t0Previous, N10Previous, N200Previous): it does what
     * PeakSearch.Accept describes, on maxN200, maxN200Time and the
     * candidates.
     */
    method AcceptHit(iHit: nat, N10New: int, iHitPrevious: nat, t0Previous: real, N10Previous: int, N200Previous: int,
                     ghost p: Params, ghost T: seq<real>,
                     ghost v: SortedView, ghost n0: nat, ghost c0: seq<Candidate>, ghost peaks: seq<nat>)
      returns (nextHit: nat, nextT0: real, nextN10: int, nextN200: int, ghost nextPeaks: seq<nat>)
      requires CandidatesOk() && View() == v && Sized(v) && T == v.sortedT && |T| == nqiskz
      requires iHit < |T| && iHitPrevious < |T| && SearchParams() == p
      requires N10New == N10At(T, iHit)
      requires View() == v && PeaksIn(v, peaks)
      requires |c0| == n0 && vCandidates == c0 + PeakCandidates(features, v, n0, peaks)
      modifies this`maxN200, this`maxN200Time
      modifies this`vCandidates, this`nCandidates
      modifies this`vHitRawTimes, this`vHitResTimes, this`vHitCableIDs, this`vHitSigFlags
      ensures CandidatesOk() && View() == v && SearchParams() == p && |T| == nqiskz
      ensures Aligned() == old(Aligned())
      ensures Accept(p, T, iHit,
                     ScanState(Anchor(iHitPrevious, t0Previous, N10Previous, N200Previous), peaks,
                               old(maxN200), old(maxN200Time), firstHitTime_ToF))
           == ScanState(Anchor(nextHit, nextT0, nextN10, nextN200), nextPeaks, maxN200, maxN200Time, firstHitTime_ToF)
      ensures nextHit == iHit || nextHit == iHitPrevious
      ensures PeaksIn(v, nextPeaks)
      ensures vCandidates == c0 + PeakCandidates(features, v, n0, nextPeaks)
    {
      ghost var a := Anchor(iHitPrevious, t0Previous, N10Previous, N200Previous);
      ghost var m0, mt0 := maxN200, maxN200Time;
      nextHit, nextT0, nextN10, nextN200, nextPeaks := iHitPrevious, t0Previous, N10Previous, N200Previous, peaks;
      var t0New := vSortedT_ToF[iHit];
      var N200New := GetNhitsFromCenterTime(vSortedT_ToF, t0New + 5.0, 200.0);
      assert N200New == N200At(T, iHit);
      RaiseMaxN200(t0New, N200New);
      ghost var raise := Micro(T[iHit]) > p.T0TH && N200At(T, iHit) > m0;
      assert maxN200 == (if raise then N200At(T, iHit) else m0);
      assert maxN200Time == (if raise then T[iHit] else mt0);
      if t0New - nextT0 > TMINPEAKSEP {
        if nextN200 < N200MX && Micro(nextT0) > T0TH {
          EmitPeak(nextHit, v, n0, c0, peaks);
          nextPeaks := peaks + [nextHit];
        }
        nextN10 := 0;
      }
      assert nextPeaks == if Emits(p, T, iHit, a) then peaks + [a.iHit] else peaks;
      assert nextN10 == if T[iHit] - a.t0 > p.TMINPEAKSEP then 0 else a.n10;
      if N10New > nextN10 {
        nextHit := iHit;
        nextT0 := t0New;
        nextN10 := N10New;
        nextN200 := N200New;
      }
      assert Anchor(nextHit, nextT0, nextN10, nextN200) == NextAnchor(p, T, iHit, a);
      AcceptParts(p, T, iHit, ScanState(a, peaks, m0, mt0, firstHitTime_ToF),
                  Anchor(nextHit, nextT0, nextN10, nextN200), nextPeaks, maxN200, maxN200Time);
    }

    /**
     * The state of the scan after the sorted hits before i: the anchor a and
     * the emitted peaks, with maxN200, maxN200Time and firstHitTime_ToF, are
     * what PeakSearch.ScanUpTo gives from s0, and each emitted peak has been
     * appended to the candidates c0 (n0 of them) in order.
     */
    ghost predicate Scanned(p: Params, T: seq<real>, s0: ScanState, v: SortedView, n0: nat, c0: seq<Candidate>,
                            i: nat, a: Anchor, peaks: seq<nat>)
      requires i <= |T| && Sized(v) && PeaksIn(v, peaks)
      reads this`nqiskz, this`vTISKZ, this`vQISKZ, this`vCABIZ, this`vSortedT_ToF, this`vSortedQ, this`vSortedPMTID, this`vSortedSigFlag
      reads this`reverseIndex, this`N10TH, this`N10MX, this`N200MX, this`T0TH, this`TMINPEAKSEP
      reads this`maxN200, this`maxN200Time, this`firstHitTime_ToF
      reads this`nCandidates, this`vCandidates
      reads this`vHitRawTimes, this`vHitResTimes, this`vHitCableIDs, this`vHitSigFlags
    {
      && CandidatesOk() && Aligned() && View() == v && |T| == nqiskz && SearchParams() == p
      && ScanUpTo(p, T, i, s0) == ScanState(a, peaks, maxN200, maxN200Time, firstHitTime_ToF)
      && vCandidates == c0 + PeakCandidates(features, v, n0, peaks)
    }

    /**
     * One pass of the loop body of SearchCaptureCandidates at sorted hit
     * iHit, with the tracked anchor in (iHitPrevious, t0Previous,
     * N10Previous, N200Previous): it does what PeakSearch.Step describes, on
     * the fields maxN200, maxN200Time and firstHitTime_ToF and on the
     * candidates.
     */
    method ScanHit(iHit: nat, iHitPrevious: nat, t0Previous: real, N10Previous: int, N200Previous: int,
                   ghost p: Params, ghost T: seq<real>, ghost s0: ScanState,
                   ghost v: SortedView, ghost n0: nat, ghost c0: seq<Candidate>, ghost peaks: seq<nat>)
      returns (nextHit: nat, nextT0: real, nextN10: int, nextN200: int, ghost nextPeaks: seq<nat>)
      requires CandidatesOk() && View() == v && Sized(v) && T == v.sortedT && |T| == nqiskz
      requires iHit < |T| && iHitPrevious < |T| && SearchParams() == p
      requires ScanUpTo(p, T, iHit, s0)
            == ScanState(Anchor(iHitPrevious, t0Previous, N10Previous, N200Previous), peaks,
                         maxN200, maxN200Time, firstHitTime_ToF)
      requires View() == v && PeaksIn(v, peaks)
      requires |c0| == n0 && vCandidates == c0 + PeakCandidates(features, v, n0, peaks)
      modifies this`maxN200, this`maxN200Time, this`firstHitTime_ToF
      modifies this`vCandidates, this`nCandidates
      modifies this`vHitRawTimes, this`vHitResTimes, this`vHitCableIDs, this`vHitSigFlags
      ensures CandidatesOk() && View() == v && SearchParams() == p && |T| == nqiskz
      ensures Aligned() == old(Aligned())
      ensures ScanUpTo(p, T, iHit + 1, s0)
           == ScanState(Anchor(nextHit, nextT0, nextN10, nextN200), nextPeaks, maxN200, maxN200Time, firstHitTime_ToF)
      ensures nextHit == iHit || nextHit == iHitPrevious
      ensures PeaksIn(v, nextPeaks)
      ensures vCandidates == c0 + PeakCandidates(features, v, n0, nextPeaks)
    {
      ghost var s := ScanState(Anchor(iHitPrevious, t0Previous, N10Previous, N200Previous), peaks,
                               maxN200, maxN200Time, firstHitTime_ToF);
      nextHit, nextT0, nextN10, nextN200, nextPeaks := iHitPrevious, t0Previous, N10Previous, N200Previous, peaks;
      var t := vSortedT_ToF[iHit];
      if Micro(t) >= T0TH {
        RecordFirstHit(t);
        ghost var s1 := s.(firstHitTime := firstHitTime_ToF);
        var N10_iHit := GetNhitsFromStartIndex(vSortedT_ToF, iHit, 10.0);
        if !(N10_iHit < N10TH || N10_iHit >= N10MX + 1) {
          nextHit, nextT0, nextN10, nextN200, nextPeaks :=
            AcceptHit(iHit, N10_iHit, iHitPrevious, t0Previous, N10Previous, N200Previous, p, T, v, n0, c0, peaks);
          assert Step(p, T, iHit, s) == Accept(p, T, iHit, s1);
        } else {
          assert Step(p, T, iHit, s) == s1;
        }
      } else {
        assert Step(p, T, iHit, s) == s;
      }
      assert ScanUpTo(p, T, iHit + 1, s0) == Step(p, T, iHit, s);
    }

    /** ScanHit, carrying the whole state of the scan from hit iHit to the next. */
    method ScanNext(iHit: nat, iHitPrevious: nat, t0Previous: real, N10Previous: int, N200Previous: int,
                    ghost p: Params, ghost T: seq<real>, ghost s0: ScanState,
                    ghost v: SortedView, ghost n0: nat, ghost c0: seq<Candidate>, ghost peaks: seq<nat>)
      returns (nextHit: nat, nextT0: real, nextN10: int, nextN200: int, ghost nextPeaks: seq<nat>)
      requires iHit < |T| && Sized(v) && T == v.sortedT && |c0| == n0
      requires PeaksIn(v, peaks) && (iHitPrevious < iHit || iHitPrevious == 0)
      requires Scanned(p, T, s0, v, n0, c0, iHit, Anchor(iHitPrevious, t0Previous, N10Previous, N200Previous), peaks)
      modifies this`maxN200, this`maxN200Time, this`firstHitTime_ToF
      modifies this`vCandidates, this`nCandidates
      modifies this`vHitRawTimes, this`vHitResTimes, this`vHitCableIDs, this`vHitSigFlags
      ensures PeaksIn(v, nextPeaks) && (nextHit < iHit + 1 || nextHit == 0)
      ensures Scanned(p, T, s0, v, n0, c0, iHit + 1, Anchor(nextHit, nextT0, nextN10, nextN200), nextPeaks)
    {
      nextHit, nextT0, nextN10, nextN200, nextPeaks :=
        ScanHit(iHit, iHitPrevious, t0Previous, N10Previous, N200Previous, p, T, s0, v, n0, c0, peaks);
    }

    /**
     * The loop of SearchCaptureCandidates over the sorted hits, from the
     * sentinel anchor: it leaves the anchor, the emitted peaks and the
     * fields maxN200, maxN200Time and firstHitTime_ToF as PeakSearch.ScanUpTo
     * describes.
     */
    method ScanHits(ghost p: Params, ghost T: seq<real>, ghost s0: ScanState,
                    ghost v: SortedView, ghost n0: nat, ghost c0: seq<Candidate>)
      returns (iHitPrevious: nat, t0Previous: real, N10Previous: int, N200Previous: int, ghost peaks: seq<nat>)
      requires CandidatesOk() && Aligned() && View() == v && Sized(v) && T == v.sortedT && |T| == nqiskz
      requires SearchParams() == p && s0 == ScanState(Sentinel, [], maxN200, maxN200Time, firstHitTime_ToF)
      requires |c0| == n0 && vCandidates == c0
      modifies this`maxN200, this`maxN200Time, this`firstHitTime_ToF
      modifies this`vCandidates, this`nCandidates
      modifies this`vHitRawTimes, this`vHitResTimes, this`vHitCableIDs, this`vHitSigFlags
      ensures CandidatesOk() && Aligned() && View() == v && SearchParams() == p && |T| == nqiskz
      ensures ScanUpTo(p, T, |T|, s0)
           == ScanState(Anchor(iHitPrevious, t0Previous, N10Previous, N200Previous), peaks,
                        maxN200, maxN200Time, firstHitTime_ToF)
      ensures iHitPrevious < |T| || iHitPrevious == 0
      ensures PeaksIn(v, peaks)
      ensures vCandidates == c0 + PeakCandidates(features, v, n0, peaks)
    {
      peaks := [];
      iHitPrevious := 0;
      N10Previous := 0;
      N200Previous := 0;
      t0Previous := -1.0;

      var iHit := 0;
      while iHit < nqiskz
        invariant iHit <= |T| && PeaksIn(v, peaks) && (iHitPrevious < iHit || iHitPrevious == 0)
        invariant Scanned(p, T, s0, v, n0, c0, iHit, Anchor(iHitPrevious, t0Previous, N10Previous, N200Previous), peaks)
      {
        iHitPrevious, t0Previous, N10Previous, N200Previous, peaks :=
          ScanNext(iHit, iHitPrevious, t0Previous, N10Previous, N200Previous, p, T, s0, v, n0, c0, peaks);
        iHit := iHit + 1;
      }
    }

    /**
     * SearchCaptureCandidates: the scan PeakSearch.Search describes, run on
     * the sorted times from the current maxN200, maxN200Time and
     * firstHitTime_ToF. Each emitted peak is appended as a candidate by
     * SavePeakFromHit, in emission order, and the three fields end as the
     * scan leaves them.
     */
    method SearchCaptureCandidates()
      requires Valid() && SortedSized()
      requires nqiskz > 0 || N10TH > 0
      modifies this`maxN200, this`maxN200Time, this`firstHitTime_ToF
      modifies this`vCandidates, this`nCandidates
      modifies this`vHitRawTimes, this`vHitResTimes, this`vHitCableIDs, this`vHitSigFlags
      ensures Valid()
      ensures var s := Search(old(SearchParams()), old(vSortedT_ToF), old(maxN200), old(maxN200Time), old(firstHitTime_ToF));
        && maxN200 == s.maxN200 && maxN200Time == s.maxN200Time && firstHitTime_ToF == s.firstHitTime
        && PeaksIn(old(View()), s.peaks)
        && vCandidates == old(vCandidates) + PeakCandidates(features, old(View()), |old(vCandidates)|, s.peaks)
    {
      ghost var p := SearchParams();
      ghost var T := vSortedT_ToF;
      ghost var s0 := ScanState(Sentinel, [], maxN200, maxN200Time, firstHitTime_ToF);
      ghost var n0 := |vCandidates|;
      ghost var c0 := vCandidates;
      ghost var v := View();
      var iHitPrevious, t0Previous, N10Previous, N200Previous, peaks := ScanHits(p, T, s0, v, n0, c0);
      FlushLastPeak(iHitPrevious, t0Previous, N10Previous, N200Previous, p, T, s0, v, n0, c0, peaks);
    }

    /**
     * The end of SearchCaptureCandidates: the anchor the scan leaves is
     * saved as a last peak when its N10 reaches N10TH, which completes the
     * search PeakSearch.Search describes.
     */
    method FlushLastPeak(iHitPrevious: nat, t0Previous: real, N10Previous: int, N200Previous: int,
                         ghost p: Params, ghost T: seq<real>, ghost s0: ScanState,
                         ghost v: SortedView, ghost n0: nat, ghost c0: seq<Candidate>, ghost peaks: seq<nat>)
      requires Sized(v) && T == v.sortedT && |c0| == n0 && (|T| > 0 || p.N10TH > 0)
      requires s0 == ScanState(Sentinel, [], s0.maxN200, s0.maxN200Time, s0.firstHitTime)
      requires CandidatesOk() && Aligned() && View() == v && SearchParams() == p && |T| == nqiskz
      requires ScanUpTo(p, T, |T|, s0)
            == ScanState(Anchor(iHitPrevious, t0Previous, N10Previous, N200Previous), peaks,
                         maxN200, maxN200Time, firstHitTime_ToF)
      requires iHitPrevious < |T| || iHitPrevious == 0
      requires PeaksIn(v, peaks)
      requires vCandidates == c0 + PeakCandidates(features, v, n0, peaks)
      modifies this`vCandidates, this`nCandidates
      modifies this`vHitRawTimes, this`vHitResTimes, this`vHitCableIDs, this`vHitSigFlags
      ensures Valid()
      ensures var s := Search(p, T, s0.maxN200, s0.maxN200Time, s0.firstHitTime);
        && maxN200 == s.maxN200 && maxN200Time == s.maxN200Time && firstHitTime_ToF == s.firstHitTime
        && PeaksIn(v, s.peaks)
        && vCandidates == c0 + PeakCandidates(features, v, n0, s.peaks)
    {
      ghost var last := ScanUpTo(p, T, |T|, s0);
      SearchIsScanThenFlush(p, T, s0);
      EmitFinalPeak(iHitPrevious, t0Previous, N10Previous, N200Previous, p, last, v, n0, c0);
    }

    /** The final emission: the anchor the scan leaves becomes a peak when its N10 reaches N10TH. */
    method EmitFinalPeak(iHitPrevious: nat, t0Previous: real, N10Previous: int, N200Previous: int,
                         ghost p: Params, ghost last: ScanState,
                         ghost v: SortedView, ghost n0: nat, ghost c0: seq<Candidate>)
      requires Sized(v) && |c0| == n0 && |v.sortedT| == nqiskz
      requires CandidatesOk() && Aligned() && View() == v && SearchParams() == p
      requires last.prev == Anchor(iHitPrevious, t0Previous, N10Previous, N200Previous)
      requires iHitPrevious < nqiskz || N10Previous < p.N10TH
      requires PeaksIn(v, last.peaks)
      requires vCandidates == c0 + PeakCandidates(features, v, n0, last.peaks)
      modifies this`vCandidates, this`nCandidates
      modifies this`vHitRawTimes, this`vHitResTimes, this`vHitCableIDs, this`vHitSigFlags
      ensures Valid()
      ensures PeaksIn(v, FinalPeaks(p, last))
      ensures vCandidates == c0 + PeakCandidates(features, v, n0, FinalPeaks(p, last))
    {
      if N10Previous >= N10TH {
        EmitPeak(iHitPrevious, v, n0, c0, last.peaks);
      }
    }

    // ------------------------------------------------------------------
    // Feature columns

    /** The candidates' names are all among the given column names. */
    predicate NamesCovered(iNames: set<string>, fNames: set<string>)
      reads this`vCandidates
    {
      forall j :: 0 <= j < |vCandidates| ==>
        vCandidates[j].vars.iVarMap.Keys <= iNames && vCandidates[j].vars.fVarMap.Keys <= fNames
    }

    /** The integer columns SetCandidateVariables pushes onto: created from the first candidate if not yet. */
    function InitialIntColumns(): map<string, seq<int>>
      reads this`vCandidates, this`candidateVariablesInitialized, this`iCandidateVarMap
      requires |vCandidates| > 0
    {
      if candidateVariablesInitialized then iCandidateVarMap
      else Reset(iCandidateVarMap, vCandidates[0].vars.iVarMap.Keys)
    }

    /** The float columns SetCandidateVariables pushes onto: created from the first candidate if not yet. */
    function InitialFloatColumns(): map<string, seq<real>>
      reads this`vCandidates, this`candidateVariablesInitialized, this`fCandidateVarMap
      requires |vCandidates| > 0
    {
      if candidateVariablesInitialized then fCandidateVarMap
      else Reset(fCandidateVarMap, vCandidates[0].vars.fVarMap.Keys)
    }

    /**
     * SetCandidateVariables: nothing happens without candidates; otherwise
     * the columns are created from the first candidate's names if they were
     * not yet, and every candidate's values are pushed onto them in order.
     */
    method SetCandidateVariables()
      requires |vCandidates| > 0 ==> NamesCovered(InitialIntColumns().Keys, InitialFloatColumns().Keys)
      modifies this`iCandidateVarMap, this`fCandidateVarMap, this`candidateVariablesInitialized
      ensures |vCandidates| == 0 ==>
        && iCandidateVarMap == old(iCandidateVarMap) && fCandidateVarMap == old(fCandidateVarMap)
        && candidateVariablesInitialized == old(candidateVariablesInitialized)
      ensures |vCandidates| > 0 ==>
        && candidateVariablesInitialized
        && iCandidateVarMap == PushAll(old(InitialIntColumns()), IntVars(vCandidates))
        && fCandidateVarMap == PushAll(old(InitialFloatColumns()), FloatVars(vCandidates))
    {
      if |vCandidates| > 0 {
        if !candidateVariablesInitialized {
          InitializeCandidateVariableVectors();
        }
        ExtractCandidateVariables();
      }
    }

    /** InitializeCandidateVariableVectors: an empty column for each name of the first candidate. */
    method InitializeCandidateVariableVectors()
      requires |vCandidates| > 0
      modifies this`iCandidateVarMap, this`fCandidateVarMap, this`candidateVariablesInitialized
      ensures iCandidateVarMap == Reset(old(iCandidateVarMap), vCandidates[0].vars.iVarMap.Keys)
      ensures fCandidateVarMap == Reset(old(fCandidateVarMap), vCandidates[0].vars.fVarMap.Keys)
      ensures candidateVariablesInitialized
    {
      iCandidateVarMap := ResetColumns(iCandidateVarMap, vCandidates[0].vars.iVarMap.Keys);
      fCandidateVarMap := ResetColumns(fCandidateVarMap, vCandidates[0].vars.fVarMap.Keys);
      candidateVariablesInitialized := true;
    }

    /** ExtractCandidateVariables: every candidate, in order, pushes its values onto the columns of its names. */
    method ExtractCandidateVariables()
      requires NamesCovered(iCandidateVarMap.Keys, fCandidateVarMap.Keys)
      modifies this`iCandidateVarMap, this`fCandidateVarMap
      ensures iCandidateVarMap == PushAll(old(iCandidateVarMap), IntVars(vCandidates))
      ensures fCandidateVarMap == PushAll(old(fCandidateVarMap), FloatVars(vCandidates))
    {
      iCandidateVarMap, fCandidateVarMap :=
        PushEach(iCandidateVarMap, fCandidateVarMap, IntVars(vCandidates), FloatVars(vCandidates));
    }

    // ------------------------------------------------------------------
    // Clear

    /**
     * Clear: the event state is reset (raw, sorted and per-PMT hit data,
     * counters, candidates and their slices, the prompt vertex), the
     * classifier variables are cleared, and every feature column is emptied
     * while the column names are kept. Tag conditions, reverseIndex and
     * whether the columns were created are left as they are.
     */
    method Clear()
      requires Valid()
      modifies this`nqiskz, this`vTISKZ, this`vQISKZ, this`vCABIZ, this`vISIGZ, vPMTHitTime
      modifies this`nTotalHits, this`nTotalSigHits, this`nFoundSigHits, this`nRemovedHits
      modifies this`vSortedPMTID, this`vSortedT_ToF, this`vUnsortedT_ToF, this`vSortedQ, this`vSortedSigFlag
      modifies this`pvx, this`pvy, this`pvz, this`dWall
      modifies this`nCandidates, this`maxN200, this`maxN200Time, this`firstHitTime_ToF
      modifies this`vCandidates, this`vHitRawTimes, this`vHitResTimes, this`vHitCableIDs, this`vHitSigFlags
      modifies this`iCandidateVarMap, this`fCandidateVarMap
      modifies tmvaVariables
      ensures Valid()
      ensures RawHitsCleared() && SortedHitsCleared() && CandidatesCleared()
      ensures pvx == 0.0 && pvy == 0.0 && pvz == 0.0 && dWall == 0.0
      ensures iCandidateVarMap.Keys == old(iCandidateVarMap).Keys && fCandidateVarMap.Keys == old(fCandidateVarMap).Keys
      ensures old(tmvaVariables.SchemaBounded()) ==> tmvaVariables.Valid() && tmvaVariables.Cleared()
    {
      ClearTMVAVariables();
      ClearEventState();
    }

    /** Clear without the TMVA variables: hits, vertex and candidates. */
    method ClearEventState()
      requires Valid()
      modifies this`nqiskz, this`vTISKZ, this`vQISKZ, this`vCABIZ, this`vISIGZ, vPMTHitTime
      modifies this`nTotalHits, this`nTotalSigHits, this`nFoundSigHits, this`nRemovedHits
      modifies this`vSortedPMTID, this`vSortedT_ToF, this`vUnsortedT_ToF, this`vSortedQ, this`vSortedSigFlag
      modifies this`pvx, this`pvy, this`pvz, this`dWall
      modifies this`nCandidates, this`maxN200, this`maxN200Time, this`firstHitTime_ToF
      modifies this`vCandidates, this`vHitRawTimes, this`vHitResTimes, this`vHitCableIDs, this`vHitSigFlags
      modifies this`iCandidateVarMap, this`fCandidateVarMap
      ensures Valid()
      ensures RawHitsCleared() && SortedHitsCleared() && CandidatesCleared()
      ensures pvx == 0.0 && pvy == 0.0 && pvz == 0.0 && dWall == 0.0
      ensures iCandidateVarMap.Keys == old(iCandidateVarMap).Keys && fCandidateVarMap.Keys == old(fCandidateVarMap).Keys
    {
      ClearHits();
      ClearCandidates();
    }

    /** The hit part of Clear: raw and sorted hits dropped, the vertex zeroed. */
    method ClearHits()
      modifies this`nqiskz, this`vTISKZ, this`vQISKZ, this`vCABIZ, this`vISIGZ, vPMTHitTime
      modifies this`nTotalHits, this`nTotalSigHits, this`nFoundSigHits, this`nRemovedHits
      modifies this`vSortedPMTID, this`vSortedT_ToF, this`vUnsortedT_ToF, this`vSortedQ, this`vSortedSigFlag
      modifies this`pvx, this`pvy, this`pvz, this`dWall
      ensures RawHitsCleared() && SortedHitsCleared() && RawAligned() && SortedAligned()
      ensures pvx == 0.0 && pvy == 0.0 && pvz == 0.0 && dWall == 0.0
    {
      ClearRawHits();
      ClearSortedHits();
      pvx, pvy, pvz, dWall := 0.0, 0.0, 0.0, 0.0;
    }

    /** The TMVA part of Clear: every variable and event vector zeroed. */
    method ClearTMVAVariables()
      modifies tmvaVariables
      ensures old(tmvaVariables.SchemaBounded()) ==> tmvaVariables.Valid() && tmvaVariables.Cleared()
    {
      tmvaVariables.Clear();
    }

    /** No raw hit, zero counters, and zero last-hit time on every PMT. */
    predicate RawHitsCleared()
      reads this`nqiskz, this`vTISKZ, this`vQISKZ, this`vCABIZ, this`vISIGZ, vPMTHitTime
      reads this`nTotalHits, this`nTotalSigHits, this`nFoundSigHits, this`nRemovedHits
    {
      && nqiskz == 0 && vTISKZ == [] && vQISKZ == [] && vCABIZ == [] && vISIGZ == []
      && (forall c :: 0 <= c < vPMTHitTime.Length ==> vPMTHitTime[c] == 0.0)
      && nTotalHits == 0 && nTotalSigHits == 0 && nFoundSigHits == 0 && nRemovedHits == 0
    }

    /**
     * No candidate and no slice, maxN200 at 0, maxN200Time and
     * firstHitTime_ToF at -9999, and every feature column empty.
     */
    predicate CandidatesCleared()
      reads this`nCandidates, this`maxN200, this`maxN200Time, this`firstHitTime_ToF
      reads this`vCandidates, this`vHitRawTimes, this`vHitResTimes, this`vHitCableIDs, this`vHitSigFlags
      reads this`iCandidateVarMap, this`fCandidateVarMap
    {
      && nCandidates == 0 && maxN200 == 0 && maxN200Time == -9999.0 && firstHitTime_ToF == -9999.0
      && vCandidates == [] && vHitRawTimes == [] && vHitResTimes == [] && vHitCableIDs == [] && vHitSigFlags == []
      && (forall k :: k in iCandidateVarMap ==> iCandidateVarMap[k] == [])
      && (forall k :: k in fCandidateVarMap ==> fCandidateVarMap[k] == [])
    }

    /** The raw-hit part of Clear. */
    method ClearRawHits()
      modifies this`nqiskz, this`vTISKZ, this`vQISKZ, this`vCABIZ, this`vISIGZ, vPMTHitTime
      modifies this`nTotalHits, this`nTotalSigHits, this`nFoundSigHits, this`nRemovedHits
      ensures RawHitsCleared()
    {
      nqiskz := 0;
      vTISKZ, vQISKZ, vCABIZ, vISIGZ := [], [], [], [];
      forall c | 0 <= c < vPMTHitTime.Length {
        vPMTHitTime[c] := 0.0;
      }
      nTotalHits, nTotalSigHits, nFoundSigHits, nRemovedHits := 0, 0, 0, 0;
    }

    /** No sorted hit and no ToF-subtracted time. */
    predicate SortedHitsCleared()
      reads this`vSortedPMTID, this`vSortedT_ToF, this`vUnsortedT_ToF, this`vSortedQ, this`vSortedSigFlag
    {
      vSortedPMTID == [] && vSortedT_ToF == [] && vUnsortedT_ToF == [] && vSortedQ == [] && vSortedSigFlag == []
    }

    /** The sorted-hit part of Clear. */
    method ClearSortedHits()
      modifies this`vSortedPMTID, this`vSortedT_ToF, this`vUnsortedT_ToF, this`vSortedQ, this`vSortedSigFlag
      ensures SortedHitsCleared()
    {
      vSortedPMTID := [];
      vSortedT_ToF, vUnsortedT_ToF, vSortedQ, vSortedSigFlag := [], [], [], [];
    }

    /** The candidate part of Clear: the feature columns keep their names. */
    method ClearCandidates()
      modifies this`nCandidates, this`maxN200, this`maxN200Time, this`firstHitTime_ToF
      modifies this`vCandidates, this`vHitRawTimes, this`vHitResTimes, this`vHitCableIDs, this`vHitSigFlags
      modifies this`iCandidateVarMap, this`fCandidateVarMap
      ensures CandidatesCleared() && CandidatesOk()
      ensures iCandidateVarMap.Keys == old(iCandidateVarMap).Keys && fCandidateVarMap.Keys == old(fCandidateVarMap).Keys
      ensures iCandidateVarMap == Reset(old(iCandidateVarMap), old(iCandidateVarMap).Keys)
      ensures fCandidateVarMap == Reset(old(fCandidateVarMap), old(fCandidateVarMap).Keys)
    {
      maxN200, maxN200Time, firstHitTime_ToF := 0, -9999.0, -9999.0;
      iCandidateVarMap := ResetColumns(iCandidateVarMap, iCandidateVarMap.Keys);
      fCandidateVarMap := ResetColumns(fCandidateVarMap, fCandidateVarMap.Keys);
      ClearCandidateList();
    }

    /** No candidate and no slice. */
    method ClearCandidateList()
      modifies this`nCandidates, this`vCandidates
      modifies this`vHitRawTimes, this`vHitResTimes, this`vHitCableIDs, this`vHitSigFlags
      ensures CandidatesOk() && nCandidates == 0 && vCandidates == []
      ensures vHitRawTimes == [] && vHitResTimes == [] && vHitCableIDs == [] && vHitSigFlags == []
    {
      nCandidates, vCandidates := 0, [];
      vHitRawTimes, vHitResTimes, vHitCableIDs, vHitSigFlags := [], [], [], [];
    }
  }
}
