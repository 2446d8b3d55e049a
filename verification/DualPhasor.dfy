/** The voltage and current transforms run side by side, and the frequency estimate smoothed over
    their ready results. */
module DualPhasor {
  import opened Basics
  import opened PhasorMath
  import opened Models
  import opened Goertzel
  import opened SlidingDft

  function Smooth(f: real, target: real, alpha: real): real { f * (1.0 - alpha) + target * alpha }

  /** `n` rounds of smoothing towards `target`. */
  function Track(f0: real, target: real, alpha: real, n: nat): real {
    if n == 0 then f0 else Smooth(Track(f0, target, alpha, n - 1), target, alpha)
  }

  /** The estimate's distance from the bin frequency shrinks by the same factor every round. */
  lemma {:induction false} TrackClosed(f0: real, target: real, alpha: real, n: nat)
    ensures Track(f0, target, alpha, n) - target == (f0 - target) * PowR(1.0 - alpha, n)
  {
    if n > 0 {
      TrackClosed(f0, target, alpha, n - 1);
      Shrink(Track(f0, target, alpha, n - 1), target, alpha, f0 - target, PowR(1.0 - alpha, n - 1));
    }
  }

  lemma Shrink(f: real, target: real, alpha: real, d: real, p: real)
    requires f - target == d * p
    ensures f * (1.0 - alpha) + target * alpha - target == d * ((1.0 - alpha) * p)
  {
    assert f * (1.0 - alpha) + target * alpha - target == (f - target) * (1.0 - alpha);
    assert (d * p) * (1.0 - alpha) == d * ((1.0 - alpha) * p);
  }

  class DualPhasor {
    const voltage: SlidingDft
    const current: SlidingDft
    const freqAlpha: real
    var sampleIdx: nat
    var trackedFreq: real
    ghost const target: real
    ghost var readySoFar: nat

    ghost predicate Valid()
      reads this, voltage, voltage.sampleBuf, voltage.weightedCos, voltage.weightedSin,
            current, current.sampleBuf, current.weightedCos, current.weightedSin
    {
      && voltage.Valid() && current.Valid() && voltage != current
      && voltage.sampleBuf != current.sampleBuf
      && voltage.sampleBuf != current.weightedCos && voltage.sampleBuf != current.weightedSin
      && current.sampleBuf != voltage.weightedCos && current.sampleBuf != voltage.weightedSin
      && voltage.windowSize == current.windowSize
      && |voltage.hist| == |current.hist| == sampleIdx
      && trackedFreq == Track(target, Bin(), freqAlpha, readySoFar)
    }

    /** The frequency of the bin both transforms are tuned to. */
    ghost function Bin(): real
      requires voltage.windowSize > 0
    {
      BinFrequency(voltage.k, voltage.sampleRateHz, voltage.windowSize)
    }

    /** `NewDualPhasorPipeline`: both transforms share the window, the bin and the Hann weights; the
        estimate starts at the target frequency and moves an eighth of the way each time. */
    constructor (lib: Libm, size: int, targetFreqHz: real, sampleRateHz: real, turn: Turns)
      ensures Valid() && sampleIdx == 0 && readySoFar == 0 && trackedFreq == target == targetFreqHz && freqAlpha == 0.125
      ensures fresh(voltage) && fresh(voltage.sampleBuf) && fresh(current) && fresh(current.sampleBuf)
      ensures Alike(lib, size, targetFreqHz, sampleRateHz, turn, voltage) && Alike(lib, size, targetFreqHz, sampleRateHz, turn, current)
    {
      var v := new SlidingDft(lib, size, targetFreqHz, sampleRateHz, turn, Hann);
      var i := new SlidingDft(lib, size, targetFreqHz, sampleRateHz, turn, Hann);
      voltage, current := v, i;
      freqAlpha := 0.125;
      sampleIdx := 0;
      trackedFreq, target, readySoFar := targetFreqHz, targetFreqHz, 0;
    }

    /** How either transform is set up. */
    static ghost predicate Alike(lib: Libm, size: int, targetFreqHz: real, sampleRateHz: real, turn: Turns, dft: SlidingDft) {
      && dft.lib == lib && dft.windowSize == (if size <= 0 then 512 else size) > 0
      && dft.sampleRateHz == (if sampleRateHz <= 0.0 then 100_000.0 else sampleRateHz) > 0.0
      && dft.k == ClampBin(BinIndex(if targetFreqHz <= 0.0 then 40_000.0 else targetFreqHz, dft.sampleRateHz, dft.windowSize),
                           dft.windowSize)
      && dft.w == turn(dft.k, dft.windowSize) && dft.weights == WeightsOf(turn, Hann, dft.windowSize)
    }

    /** Restarts both windows; the frequency estimate carries on. */
    method Reset()
      requires Valid()
      modifies this`sampleIdx, voltage, voltage.sampleBuf, current, current.sampleBuf
      ensures Valid() && voltage.hist == [] && current.hist == []
    {
      voltage.Reset();
      current.Reset();
      sampleIdx := 0;
    }

    method UpdateBoth(v: real, i: real, timeNs: nat) returns (vRes: PhasorResult, iRes: PhasorResult)
      requires Valid()
      modifies this`sampleIdx, voltage, voltage.sampleBuf, current, current.sampleBuf
      ensures Valid() && voltage.hist == old(voltage.hist) + [v] && current.hist == old(current.hist) + [i]
      ensures sampleIdx == old(sampleIdx) + 1
      ensures if sampleIdx >= voltage.windowSize then voltage.Measured(vRes) && current.Measured(iRes)
              else !vRes.ready && !iRes.ready
    {
      sampleIdx := sampleIdx + 1;
      vRes := voltage.Update(v, timeNs);
      iRes := current.Update(i, timeNs);
    }

    method Follow(freqHz: real)
      requires Valid() && freqHz == Bin()
      modifies this`trackedFreq, this`readySoFar
      ensures Valid() && readySoFar == old(readySoFar) + 1
    {
      trackedFreq := Smooth(trackedFreq, freqHz, freqAlpha);
      readySoFar := readySoFar + 1;
    }

    /** Ready from the N-th sample on. Unless the weights sum to zero each phasor is then the windowed bin
        of its newest N samples; both carry the estimate, which has moved one round towards the bin. */
    method ProcessSample(v: real, i: real, timeNs: nat) returns (phasors: Option<(Phasor, Phasor)>)
      requires Valid()
      modifies this, voltage, voltage.sampleBuf, current, current.sampleBuf
      ensures Valid() && voltage.hist == old(voltage.hist) + [v] && current.hist == old(current.hist) + [i]
      ensures sampleIdx == old(sampleIdx) + 1 && (phasors.Some? <==> sampleIdx >= voltage.windowSize)
      ensures readySoFar == old(readySoFar) + if phasors.Some? then 1 else 0
      ensures phasors.Some? ==> voltage.Shows(phasors.value.0, trackedFreq) && current.Shows(phasors.value.1, trackedFreq)
    {
      var vRes, iRes := UpdateBoth(v, i, timeNs);
      phasors := None;
      if vRes.ready && iRes.ready {
        Follow(vRes.freqHz);
        var vPhasor := Phasor(vRes.re, vRes.im, vRes.magnitude, vRes.angle, trackedFreq);
        var iPhasor := Phasor(iRes.re, iRes.im, iRes.magnitude, iRes.angle, trackedFreq);
        phasors := Some((vPhasor, iPhasor));
      }
    }
  }
}
