/**
 * The raw hit buffer of NTagEventInfo::AppendRawHitInfo as a specification:
 * the hits of one readout are appended to the parallel vectors vTISKZ,
 * vQISKZ, vCABIZ (and vISIGZ when signal hit times are loaded), a
 * continuation readout is aligned in time on the first hit that repeats the
 * last stored charge and PMT, only in-gate hits on a valid PMT count, and a
 * per-PMT dead time vetoes hits too close to the last stored hit on the same
 * PMT. The class method in module EventInfo runs the same loop on its fields
 * and is proved equal to this fold.
 */
module HitBuffer {

  /** One hit of the readout: time [ns], charge, PMT cable id and hit flags. */
  datatype RawHit = RawHit(t: real, q: real, cab: int, flag: bv32)

  /** Signal hit times and PMT ids of the same event (vSIGT, vSIGI). */
  datatype SignalTQ = SignalTQ(times: seq<real>, cables: seq<int>)

  datatype Option<T> = None | Some(value: T)

  function Abs(x: real): real { if x < 0.0 then -x else x }

  /** Flag bit 1 (in-gate) is set and the PMT id is at most MAXPM. */
  predicate Eligible(h: RawHit, maxPM: int) {
    h.flag & 2 != 0 && h.cab <= maxPM
  }

  /** A hit matches a signal hit when the times agree within 1e-3 ns and the PMT ids are equal. */
  predicate MatchesSignal(t: real, cab: int, sig: SignalTQ, k: nat)
    requires k < |sig.times| && |sig.times| <= |sig.cables|
  {
    Abs(t - sig.times[k]) < 0.001 && cab == sig.cables[k]
  }

  predicate IsSignal(t: real, cab: int, sig: SignalTQ)
    requires |sig.times| <= |sig.cables|
  {
    exists k :: 0 <= k < |sig.times| && MatchesSignal(t, cab, sig, k)
  }

  /**
   * What stays fixed during one call: MAXPM, the dead time TRBNWIDTH*1e3 [ns],
   * the signal hits if loaded, and the last stored hit (tLast, qLast,
   * pmtLast) that a continuation readout is aligned on.
   */
  datatype Env = Env(maxPM: nat, deadTime: real, sig: Option<SignalTQ>, tLast: real, qLast: real, pmtLast: int)

  /** The buffer and counters the loop updates. */
  datatype Buf = Buf(
    tOffset: real, found: bool,
    T: seq<real>, Q: seq<real>, C: seq<int>, S: seq<int>,
    pmtTime: seq<real>,
    nTotal: int, nRemoved: int, nFoundSig: int, nTotalSig: int)

  predicate EnvOk(env: Env) {
    env.sig.Some? ==> |env.sig.value.times| <= |env.sig.value.cables|
  }

  /** The hits the loop may index vPMTHitTime with are non-negative PMT ids. */
  predicate HitsOk(hits: seq<RawHit>, maxPM: int) {
    forall i :: 0 <= i < |hits| && Eligible(hits[i], maxPM) ==> 0 <= hits[i].cab
  }

  predicate BufOk(env: Env, b: Buf) {
    |b.pmtTime| == env.maxPM + 1
  }

  /**
   * The state before the loop: offset 0; with an empty buffer the
   * coincidence counts as already found, otherwise the last stored hit is
   * searched for.
   */
  function Start(env: Env, T: seq<real>, Q: seq<real>, C: seq<int>, S: seq<int>, pmtTime: seq<real>,
                 nTotal: int, nRemoved: int, nFoundSig: int, nTotalSig: int): Buf
  {
    Buf(0.0, T == [], T, Q, C, S, pmtTime, nTotal, nRemoved, nFoundSig, nTotalSig)
  }

  /** The values the loop aligns on: the last stored hit, or zeros for an empty buffer. */
  function LastStored(T: seq<real>, Q: seq<real>, C: seq<int>): (r: (real, real, int))
    requires |T| == |Q| == |C|
    ensures T == [] ==> r == (0.0, 0.0, 0)
    ensures T != [] ==> r == (T[|T| - 1], Q[|Q| - 1], C[|C| - 1])
  {
    if T == [] then (0.0, 0.0, 0) else (T[|T| - 1], Q[|Q| - 1], C[|C| - 1])
  }

  /**
   * The coincidence search: the first hit that repeats the last stored
   * charge and PMT fixes the offset that aligns the continuation readout.
   */
  function Align(env: Env, h: RawHit, b: Buf): Buf {
    if !b.found && h.q == env.qLast && h.cab == env.pmtLast
    then b.(tOffset := env.tLast - h.t, found := true) else b
  }

  /** The time hit h is stored with: its readout time plus the offset. */
  function HitTime(env: Env, h: RawHit, b: Buf): real {
    h.t + Align(env, h, b).tOffset
  }

  /** An eligible hit is vetoed when it is within the dead time of its PMT's last stored hit. */
  predicate Vetoed(env: Env, h: RawHit, b: Buf)
    requires BufOk(env, b) && Eligible(h, env.maxPM) && 0 <= h.cab
  {
    Abs(HitTime(env, h, b) - b.pmtTime[h.cab]) < env.deadTime
  }

  /** One iteration of the loop over the readout, at hit h. */
  function AppendHit(env: Env, h: RawHit, b: Buf): Buf
    requires EnvOk(env) && BufOk(env, b)
    requires Eligible(h, env.maxPM) ==> 0 <= h.cab
  {
    var b1 := Align(env, h, b);
    var hitTime := HitTime(env, h, b);
    if !Eligible(h, env.maxPM) then b1
    else if Vetoed(env, h, b) then
      b1.(nTotal := b1.nTotal + 1, nRemoved := b1.nRemoved + 1)
    else Stored(env, h, b1.(nTotal := b1.nTotal + 1), hitTime)
  }

  /**
   * A counted hit kept by the dead time: stored at time t, its PMT's last
   * time updated, and with signal hits loaded its signal flag recorded.
   */
  function Stored(env: Env, h: RawHit, b: Buf, t: real): Buf
    requires EnvOk(env) && 0 <= h.cab < |b.pmtTime|
  {
    var b2 := b.(T := b.T + [t], Q := b.Q + [h.q], C := b.C + [h.cab], pmtTime := b.pmtTime[h.cab := t]);
    match env.sig
    case None => b2
    case Some(sig) =>
      var isSignal := IsSignal(t, h.cab, sig);
      b2.(nTotalSig := |sig.times|,
          S := b2.S + [if isSignal then 1 else 0],
          nFoundSig := if isSignal then b2.nFoundSig + 1 else b2.nFoundSig)
  }

  /** The three outcomes of one iteration: skipped, removed by the dead time, or stored. */
  lemma AppendHitCases(env: Env, h: RawHit, b: Buf)
    requires EnvOk(env) && BufOk(env, b) && (Eligible(h, env.maxPM) ==> 0 <= h.cab)
    ensures var b' := AppendHit(env, h, b);
      && (!Eligible(h, env.maxPM) ==>
            b'.T == b.T && b'.Q == b.Q && b'.C == b.C && b'.S == b.S && b'.pmtTime == b.pmtTime
            && b'.nTotal == b.nTotal && b'.nRemoved == b.nRemoved
            && b'.nFoundSig == b.nFoundSig && b'.nTotalSig == b.nTotalSig)
      && (Eligible(h, env.maxPM) && Vetoed(env, h, b) ==>
            b'.T == b.T && b'.Q == b.Q && b'.C == b.C && b'.S == b.S && b'.pmtTime == b.pmtTime
            && b'.nTotal == b.nTotal + 1 && b'.nRemoved == b.nRemoved + 1
            && b'.nFoundSig == b.nFoundSig && b'.nTotalSig == b.nTotalSig)
      && (Eligible(h, env.maxPM) && !Vetoed(env, h, b) ==>
            b'.T == b.T + [HitTime(env, h, b)] && b'.Q == b.Q + [h.q] && b'.C == b.C + [h.cab]
            && b'.pmtTime == b.pmtTime[h.cab := HitTime(env, h, b)]
            && b'.nTotal == b.nTotal + 1 && b'.nRemoved == b.nRemoved
            && (env.sig.None? ==> b'.S == b.S && b'.nFoundSig == b.nFoundSig && b'.nTotalSig == b.nTotalSig)
            && (env.sig.Some? ==>
                  && |b'.S| == |b.S| + 1 && b'.S[..|b.S|] == b.S
                  && b'.S[|b.S|] == (if IsSignal(HitTime(env, h, b), h.cab, env.sig.value) then 1 else 0)
                  && b'.nFoundSig == b.nFoundSig + b'.S[|b.S|]
                  && b'.nTotalSig == |env.sig.value.times|))
  {
  }

  lemma AppendHitKeepsBufOk(env: Env, h: RawHit, b: Buf)
    requires EnvOk(env) && BufOk(env, b) && (Eligible(h, env.maxPM) ==> 0 <= h.cab)
    ensures BufOk(env, AppendHit(env, h, b))
  {
  }

  /** The buffer after the loop has visited hits[0 .. n-1]. */
  function AppendUpTo(env: Env, hits: seq<RawHit>, n: nat, b0: Buf): (b: Buf)
    requires n <= |hits| && EnvOk(env) && BufOk(env, b0) && HitsOk(hits, env.maxPM)
    ensures BufOk(env, b)
  {
    if n == 0 then b0
    else
      var prev := AppendUpTo(env, hits, n - 1, b0);
      AppendHitKeepsBufOk(env, hits[n - 1], prev);
      AppendHit(env, hits[n - 1], prev)
  }

  /** Number of hits among hits[0 .. n-1] that are eligible. */
  function CountEligible(hits: seq<RawHit>, n: nat, maxPM: int): (c: nat)
    requires n <= |hits|
    ensures c <= n
  {
    if n == 0 then 0 else CountEligible(hits, n - 1, maxPM) + (if Eligible(hits[n - 1], maxPM) then 1 else 0)
  }

  /**
   * The time of the last stored hit on PMT c among positions lo .. hi-1 of
   * the buffer, or `dflt` if there is none.
   */
  function LastOn(T: seq<real>, C: seq<int>, c: int, lo: nat, hi: nat, dflt: real): real
    requires lo <= hi <= |T| && |C| == |T|
    decreases hi - lo
  {
    if hi == lo then dflt
    else if C[hi - 1] == c then T[hi - 1]
    else LastOn(T, C, c, lo, hi - 1, dflt)
  }

  /** The hit at position k is at least W away from the previous stored hit on its PMT since lo. */
  predicate SeparatedAt(T: seq<real>, C: seq<int>, lo: nat, k: nat, pm0: seq<real>, W: real)
    requires lo <= k < |T| && |C| == |T| && 0 <= C[k] < |pm0|
  {
    Abs(T[k] - LastOn(T, C, C[k], lo, k, pm0[C[k]])) >= W
  }

  lemma {:induction false} LastOnPrefix(T: seq<real>, C: seq<int>, T': seq<real>, C': seq<int>, c: int, lo: nat, hi: nat, dflt: real)
    requires lo <= hi <= |T| <= |T'| && |C| == |T| && |C'| == |T'|
    requires T'[..|T|] == T && C'[..|C|] == C
    ensures LastOn(T', C', c, lo, hi, dflt) == LastOn(T, C, c, lo, hi, dflt)
    decreases hi - lo
  {
    if hi > lo {
      assert T'[hi - 1] == T[hi - 1] && C'[hi - 1] == C[hi - 1];
      LastOnPrefix(T, C, T', C', c, lo, hi - 1, dflt);
    }
  }

  /** The raw vectors stay index-aligned and only grow; the signal flags follow them when loaded. */
  predicate VectorsOk(env: Env, b0: Buf, b: Buf) {
    var start := |b0.T|;
    && |b.T| == |b.Q| == |b.C|
    && start <= |b.T|
    && b.T[..start] == b0.T && b.Q[..start] == b0.Q && b.C[..start] == b0.C
    && (env.sig.Some? ==> |b0.S| <= |b.S| && |b.S| - |b0.S| == |b.T| - start && b.S[..|b0.S|] == b0.S)
    && (env.sig.None? ==> b.S == b0.S)
    && (forall k :: start <= k < |b.C| ==> 0 <= b.C[k] <= env.maxPM)
  }

  /**
   * vPMTHitTime holds, for every PMT, the time of its last stored hit (or its
   * time before the call), and every stored hit is at least the dead time
   * away from the previous stored hit on its PMT.
   */
  predicate VetoOk(env: Env, b0: Buf, b: Buf)
    requires BufOk(env, b0) && BufOk(env, b) && |b.T| == |b.C| && |b0.T| <= |b.T|
    requires forall k :: |b0.T| <= k < |b.C| ==> 0 <= b.C[k] <= env.maxPM
  {
    var start := |b0.T|;
    && (forall c :: 0 <= c <= env.maxPM ==> b.pmtTime[c] == LastOn(b.T, b.C, c, start, |b.T|, b0.pmtTime[c]))
    && (forall k :: start <= k < |b.T| ==>
          SeparatedAt(b.T, b.C, start, k, b0.pmtTime, env.deadTime))
  }

  /** Every eligible hit seen was counted in nTotalHits and either stored or removed. */
  predicate CountsOk(env: Env, hits: seq<RawHit>, n: nat, b0: Buf, b: Buf)
    requires n <= |hits|
  {
    && b.nTotal - b0.nTotal == CountEligible(hits, n, env.maxPM)
    && (|b.T| - |b0.T|) + (b.nRemoved - b0.nRemoved) == CountEligible(hits, n, env.maxPM)
  }

  /** The invariant of the loop relative to the state b0 it started from. */
  predicate AppendOk(env: Env, hits: seq<RawHit>, n: nat, b0: Buf, b: Buf)
    requires n <= |hits| && BufOk(env, b0) && BufOk(env, b)
  {
    && VectorsOk(env, b0, b)
    && VetoOk(env, b0, b)
    && CountsOk(env, hits, n, b0, b)
  }

  lemma AppendHitKeepsVectors(env: Env, h: RawHit, b0: Buf, b: Buf)
    requires EnvOk(env) && BufOk(env, b) && (Eligible(h, env.maxPM) ==> 0 <= h.cab)
    requires VectorsOk(env, b0, b)
    ensures VectorsOk(env, b0, AppendHit(env, h, b))
  {
    AppendHitCases(env, h, b);
    var b' := AppendHit(env, h, b);
    var start := |b0.T|;
    if Eligible(h, env.maxPM) && !Vetoed(env, h, b) {
      assert b'.T[..start] == b.T[..start];
      assert b'.Q[..start] == b.Q[..start];
      assert b'.C[..start] == b.C[..start];
      if env.sig.Some? {
        assert b'.S[..|b0.S|] == b.S[..|b0.S|];
      }
    }
  }

  /** After storing time t on PMT c, c's last time is t and every other PMT's is unchanged. */
  lemma StoreKeepsLast(T: seq<real>, C: seq<int>, pm: seq<real>, start: nat, pm0: seq<real>,
                       maxPM: nat, c: int, t: real)
    requires |T| == |C| && start <= |T| && |pm| == |pm0| == maxPM + 1 && 0 <= c <= maxPM
    requires forall d :: 0 <= d <= maxPM ==> pm[d] == LastOn(T, C, d, start, |T|, pm0[d])
    ensures forall d :: 0 <= d <= maxPM ==>
      pm[c := t][d] == LastOn(T + [t], C + [c], d, start, |T| + 1, pm0[d])
  {
    var T', C' := T + [t], C + [c];
    assert T'[..|T|] == T && C'[..|C|] == C;
    forall d | 0 <= d <= maxPM
      ensures pm[c := t][d] == LastOn(T', C', d, start, |T'|, pm0[d])
    {
      if d != c {
        assert C'[|T|] != d;
        LastOnPrefix(T, C, T', C', d, start, |T|, pm0[d]);
      }
    }
  }

  /** Storing time t on PMT c, at least the dead time from c's last time, keeps every stored hit separated. */
  lemma StoreKeepsSeparation(T: seq<real>, C: seq<int>, pm: seq<real>, start: nat, pm0: seq<real>,
                             maxPM: nat, c: int, t: real, W: real)
    requires |T| == |C| && start <= |T| && |pm| == |pm0| == maxPM + 1 && 0 <= c <= maxPM
    requires forall k :: start <= k < |C| ==> 0 <= C[k] <= maxPM
    requires pm[c] == LastOn(T, C, c, start, |T|, pm0[c])
    requires forall k :: start <= k < |T| ==> SeparatedAt(T, C, start, k, pm0, W)
    requires Abs(t - pm[c]) >= W
    ensures forall k :: start <= k < |T| + 1 ==> SeparatedAt(T + [t], C + [c], start, k, pm0, W)
  {
    var T', C' := T + [t], C + [c];
    assert T'[..|T|] == T && C'[..|C|] == C;
    forall k | start <= k < |T'|
      ensures SeparatedAt(T', C', start, k, pm0, W)
    {
      LastOnPrefix(T, C, T', C', C'[k], start, k, pm0[C'[k]]);
      if k < |T| {
        assert T'[k] == T[k] && C'[k] == C[k];
        assert SeparatedAt(T, C, start, k, pm0, W);
      }
    }
  }

  /** Storing a hit outside its PMT's dead time keeps vPMTHitTime and the separation right. */
  lemma StoreKeepsVeto(env: Env, b0: Buf, b: Buf, b': Buf, c: int, t: real)
    requires BufOk(env, b0) && BufOk(env, b) && |b.T| == |b.C| && |b0.T| <= |b.T|
    requires forall k :: |b0.T| <= k < |b.C| ==> 0 <= b.C[k] <= env.maxPM
    requires VetoOk(env, b0, b)
    requires 0 <= c <= env.maxPM && Abs(t - b.pmtTime[c]) >= env.deadTime
    requires b'.T == b.T + [t] && b'.C == b.C + [c] && b'.pmtTime == b.pmtTime[c := t]
    ensures BufOk(env, b') && |b'.T| == |b'.C| && |b0.T| <= |b'.T|
    ensures forall k :: |b0.T| <= k < |b'.C| ==> 0 <= b'.C[k] <= env.maxPM
    ensures VetoOk(env, b0, b')
  {
    var start := |b0.T|;
    assert forall k :: start <= k < |b'.C| ==> 0 <= b'.C[k] <= env.maxPM by {
      forall k | start <= k < |b'.C| ensures 0 <= b'.C[k] <= env.maxPM {
        if k < |b.C| {
          assert b'.C[k] == b.C[k];
        }
      }
    }
    assert forall d :: 0 <= d <= env.maxPM ==> b'.pmtTime[d] == LastOn(b'.T, b'.C, d, start, |b'.T|, b0.pmtTime[d]) by {
      StoreKeepsLast(b.T, b.C, b.pmtTime, start, b0.pmtTime, env.maxPM, c, t);
    }
    assert forall k :: start <= k < |b'.T| ==> SeparatedAt(b'.T, b'.C, start, k, b0.pmtTime, env.deadTime) by {
      assert b.pmtTime[c] == LastOn(b.T, b.C, c, start, |b.T|, b0.pmtTime[c]);
      StoreKeepsSeparation(b.T, b.C, b.pmtTime, start, b0.pmtTime, env.maxPM, c, t, env.deadTime);
    }
  }

  lemma AppendHitKeepsVeto(env: Env, h: RawHit, b0: Buf, b: Buf)
    requires EnvOk(env) && BufOk(env, b0) && BufOk(env, b) && (Eligible(h, env.maxPM) ==> 0 <= h.cab)
    requires VectorsOk(env, b0, b) && VetoOk(env, b0, b)
    ensures BufOk(env, AppendHit(env, h, b)) && VectorsOk(env, b0, AppendHit(env, h, b))
    ensures VetoOk(env, b0, AppendHit(env, h, b))
  {
    AppendHitCases(env, h, b);
    AppendHitKeepsVectors(env, h, b0, b);
    var b' := AppendHit(env, h, b);
    if Eligible(h, env.maxPM) && !Vetoed(env, h, b) {
      StoreKeepsVeto(env, b0, b, b', h.cab, HitTime(env, h, b));
    } else {
      assert b'.T == b.T && b'.C == b.C && b'.pmtTime == b.pmtTime;
    }
  }

  lemma AppendHitKeepsOk(env: Env, hits: seq<RawHit>, n: nat, b0: Buf, b: Buf)
    requires n < |hits| && EnvOk(env) && BufOk(env, b0) && BufOk(env, b) && HitsOk(hits, env.maxPM)
    requires AppendOk(env, hits, n, b0, b)
    ensures BufOk(env, AppendHit(env, hits[n], b))
    ensures AppendOk(env, hits, n + 1, b0, AppendHit(env, hits[n], b))
  {
    AppendHitCases(env, hits[n], b);
    AppendHitKeepsVeto(env, hits[n], b0, b);
  }

  /**
   * Appending a readout keeps the raw vectors aligned and only appends to
   * them, counts every eligible hit in nTotalHits, stores or removes each
   * one, keeps vPMTHitTime equal to each PMT's last stored time, and never
   * stores a hit within the dead time of the previous stored hit on the same
   * PMT.
   */
  lemma {:induction false} AppendInvariant(env: Env, hits: seq<RawHit>, n: nat, b0: Buf)
    requires n <= |hits| && EnvOk(env) && BufOk(env, b0) && HitsOk(hits, env.maxPM)
    requires |b0.T| == |b0.Q| == |b0.C|
    ensures AppendOk(env, hits, n, b0, AppendUpTo(env, hits, n, b0))
  {
    if n == 0 {
      var start := |b0.T|;
      assert b0.T[..start] == b0.T && b0.Q[..start] == b0.Q && b0.C[..start] == b0.C;
      assert b0.S[..|b0.S|] == b0.S;
    } else {
      AppendInvariant(env, hits, n - 1, b0);
      AppendHitKeepsOk(env, hits, n - 1, b0, AppendUpTo(env, hits, n - 1, b0));
    }
  }
}
