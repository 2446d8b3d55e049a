/** The bond-strength predictor: energy and softening trackers fed from the phasors, the checks that
    reject a sample, and the counters that follow. */
module MeyerPredictor {
  import opened Basics
  import opened PhasorMath
  import opened Models
  import opened RingWindow
  import ET = EnergyTracker
  import ST = SofteningTracker

  /** Below this an impedance gives no hardness. */
  const MIN_HARDNESS := 0.000_000_001

  const STEADY_DT: real := 10_000.0

  datatype Config = Config(maxwellTauS: real, meyerHardnessGPa: real, bondAreaUm2: real, energyCoeff: real,
                           yieldCoeff: real, redlineGrams: real, bondingFreqHz: real,
                           softeningWindowNs: nat, energyWindowNs: nat)

  datatype Features = Features(timestampNs: nat, seqNo: nat, hardnessRatio: real, dissipationJ: real,
                               contactArea: real, softeningDeg: real, phaseLagRad: real, energyRatio: real)

  datatype Estimate = Estimate(pullGrams: real, shearGrams: real, confidence: real)

  datatype Prediction = Prediction(timestampNs: nat, seqNo: nat, estimate: Estimate, belowRedline: bool,
                                   features: Features)

  function OrDefault(x: real, d: real): real { if x <= 0.0 then d else x }

  function OrDefaultNs(x: nat, d: nat): nat { if x == 0 then d else x }

  function AtLeast(x: nat, least: posnat): posnat { if x < least then least else x }

  function WithDefaults(c: Config): Config {
    Config(OrDefault(c.maxwellTauS, 0.000_025), OrDefault(c.meyerHardnessGPa, 0.12),
           OrDefault(c.bondAreaUm2, 2_500.0), OrDefault(c.energyCoeff, 1.85), OrDefault(c.yieldCoeff, 0.62),
           OrDefault(c.redlineGrams, 5.0), OrDefault(c.bondingFreqHz, 40_000.0),
           OrDefaultNs(c.softeningWindowNs, 500_000), OrDefaultNs(c.energyWindowNs, 2_000_000))
  }

  // ---- energy as the product of the magnitudes ------------------------------------------------

  /** An accepted sample: its stamp, its phasors and the time step it was pushed with. */
  datatype Pair = Pair(tsNs: nat, v: Phasor, i: Phasor, dtNs: real)

  /** The time since the last sample, or the nominal one when there is none or the stamp did not advance. */
  function StepOf(lastTsNs: nat, tsNs: nat): real {
    if 0 < lastTsNs < tsNs then (tsNs - lastTsNs) as real else STEADY_DT
  }

  function Magnitude(m: Libm, p: Phasor): real { m.sqrt(NormSq(AsComplex(p))) }

  /** |V| |I|. */
  function Apparent(m: Libm, p: Pair): real { Magnitude(m, p.v) * Magnitude(m, p.i) }

  /** The energy of a run of pairs: |V| |I| over each one's time step. */
  function EnergyOf(m: Libm, pairs: seq<Pair>): real {
    if pairs == [] then 0.0
    else
      var last := pairs[|pairs| - 1];
      EnergyOf(m, pairs[..|pairs| - 1]) + Apparent(m, last) * last.dtNs / 1_000_000_000.0
  }

  lemma MagnitudeRoot(m: Libm, p: Phasor)
    requires IsSqrt(m)
    ensures Magnitude(m, p) >= 0.0 && Magnitude(m, p) * Magnitude(m, p) == NormSq(AsComplex(p))
  {
    Square(p.re);
    Square(p.im);
  }

  lemma ProductOfRoots(a: real, b: real, x: real, y: real)
    requires a >= 0.0 && b >= 0.0 && a * a == x && b * b == y
    ensures a * b >= 0.0 && (a * b) * (a * b) == x * y
  {
    assert (a * b) * (a * b) == (a * a) * (b * b);
  }

  /** The tracker's power, a hypotenuse of the two parts of V conj(I), is |V| |I|. */
  lemma PowerIsApparent(m: Libm, p: Pair)
    requires IsSqrt(m)
    ensures ET.Hypot(m, InPhase(p.v, p.i), Quadrature(p.v, p.i)) == Apparent(m, p)
  {
    ApparentSq(p.v, p.i);
    MagnitudeRoot(m, p.v);
    MagnitudeRoot(m, p.i);
    var a, b := Magnitude(m, p.v), Magnitude(m, p.i);
    ProductOfRoots(a, b, NormSq(AsComplex(p.v)), NormSq(AsComplex(p.i)));
    RootOfSquare(m, NormSq(AsComplex(p.v)) * NormSq(AsComplex(p.i)), a * b);
  }

  lemma RootOfSquare(m: Libm, x: real, s: real)
    requires IsSqrt(m) && s >= 0.0 && s * s == x
    ensures m.sqrt(x) == s
  {
    SqrtOfSquare(m, x, s);
  }

  /** What the tracker is charged with. */
  function ChargeOf(p: Pair): ET.Charge {
    ET.Charge(ET.Row(p.tsNs, InPhase(p.v, p.i), Quadrature(p.v, p.i)), p.dtNs)
  }

  function ChargesOf(pairs: seq<Pair>): (cs: seq<ET.Charge>)
    ensures |cs| == |pairs|
  {
    seq(|pairs|, k requires 0 <= k < |pairs| => ChargeOf(pairs[k]))
  }

  lemma ChargesAppend(pairs: seq<Pair>, p: Pair)
    ensures ChargesOf(pairs + [p]) == ChargesOf(pairs) + [ChargeOf(p)]
  {
  }

  lemma ChargesWindow(pairs: seq<Pair>, cap: nat)
    ensures ChargesOf(Window(pairs, cap)) == Window(ChargesOf(pairs), cap)
  {
  }

  lemma {:induction false} EnergyAgrees(m: Libm, pairs: seq<Pair>)
    requires IsSqrt(m)
    ensures ET.Sum(m, ChargesOf(pairs)) == EnergyOf(m, pairs)
  {
    if pairs != [] {
      var front, last := pairs[..|pairs| - 1], pairs[|pairs| - 1];
      assert front + [last] == pairs;
      ChargesAppend(front, last);
      assert ChargesOf(pairs)[..|pairs| - 1] == ChargesOf(front);
      EnergyAgrees(m, front);
      PowerIsApparent(m, last);
      ET.JoulesAre(Apparent(m, last), last.dtNs);
    }
  }

  /** The accumulator after a run of accepted pairs. */
  function Energy(m: Libm, cap: nat, pairs: seq<Pair>): real
    requires cap > 0
  {
    ET.Accumulated(m, cap, ChargesOf(pairs))
  }

  /** It is the energy of the newest pairs after the run and after each of its beginnings. */
  ghost predicate AlwaysRight(m: Libm, cap: nat, pairs: seq<Pair>)
    requires cap > 0
  {
    && Energy(m, cap, pairs) == EnergyOf(m, Window(pairs, cap))
    && (pairs == [] || AlwaysRight(m, cap, pairs[..|pairs| - 1]))
  }

  ghost predicate Powerless(m: Libm, pairs: seq<Pair>) { forall p :: p in pairs ==> Apparent(m, p) == 0.0 }

  /** One more pair evicts nothing; or a pair without power; or a stamped one whose step was the same, or was
      shorter while nothing in the new window has power. */
  ghost predicate HarmlessPair(m: Libm, pairs: seq<Pair>, cap: nat, p: Pair)
    requires cap > 0
  {
    |pairs| < cap ||
    var out := Newest(pairs, cap)[0];
    || Apparent(m, out) == 0.0
    || (out.tsNs > 0 && (p.dtNs == out.dtNs || (p.dtNs > out.dtNs && Powerless(m, Window(pairs + [p], cap)))))
  }

  ghost predicate AllHarmlessPairs(m: Libm, cap: nat, pairs: seq<Pair>)
    requires cap > 0
  {
    pairs == [] || (HarmlessPair(m, pairs[..|pairs| - 1], cap, pairs[|pairs| - 1]) && AllHarmlessPairs(m, cap, pairs[..|pairs| - 1]))
  }

  lemma PowerlessIsDead(m: Libm, pairs: seq<Pair>)
    requires IsSqrt(m)
    ensures Powerless(m, pairs) <==> ET.Dead(m, ChargesOf(pairs))
  {
    forall k | 0 <= k < |pairs| ensures ET.Power(m, ChargesOf(pairs)[k].row) == Apparent(m, pairs[k]) { PowerIsApparent(m, pairs[k]); }
    if Powerless(m, pairs) {
      forall c | c in ChargesOf(pairs) ensures ET.Power(m, c.row) == 0.0 {
        var k :| 0 <= k < |pairs| && ChargesOf(pairs)[k] == c;
        assert pairs[k] in pairs;
      }
    }
    if ET.Dead(m, ChargesOf(pairs)) {
      forall p | p in pairs ensures Apparent(m, p) == 0.0 {
        var k :| 0 <= k < |pairs| && pairs[k] == p;
        assert ChargesOf(pairs)[k] in ChargesOf(pairs);
      }
    }
  }

  lemma HarmlessAgrees(m: Libm, pairs: seq<Pair>, cap: nat, p: Pair)
    requires IsSqrt(m) && cap > 0
    ensures HarmlessPair(m, pairs, cap, p) <==> ET.Harmless(m, ChargesOf(pairs), cap, ChargeOf(p))
  {
    if |pairs| >= cap {
      var out := Newest(pairs, cap)[0];
      assert Newest(ChargesOf(pairs), cap)[0] == ChargeOf(out);
      PowerIsApparent(m, out);
      ChargesAppend(pairs, p);
      ChargesWindow(pairs + [p], cap);
      PowerlessIsDead(m, Window(pairs + [p], cap));
    }
  }

  lemma {:induction false} RunsAgree(m: Libm, cap: nat, pairs: seq<Pair>)
    requires IsSqrt(m) && cap > 0
    ensures AlwaysRight(m, cap, pairs) <==> ET.AlwaysExact(m, cap, ChargesOf(pairs))
    ensures AllHarmlessPairs(m, cap, pairs) <==> ET.AllHarmless(m, cap, ChargesOf(pairs))
  {
    ChargesWindow(pairs, cap);
    EnergyAgrees(m, Window(pairs, cap));
    if pairs != [] {
      var front, last := pairs[..|pairs| - 1], pairs[|pairs| - 1];
      assert front + [last] == pairs;
      ChargesAppend(front, last);
      assert ChargesOf(pairs)[..|pairs| - 1] == ChargesOf(front);
      RunsAgree(m, cap, front);
      HarmlessAgrees(m, front, cap, last);
    }
  }

  /** Whatever the stamps, with forward steps: the accumulator has been the energy of the newest pairs all along
      if and only if every eviction was harmless. */
  lemma EnergyRightIff(m: Libm, cap: nat, pairs: seq<Pair>)
    requires IsSqrt(m) && cap > 0 && ET.Forward(ChargesOf(pairs))
    ensures AlwaysRight(m, cap, pairs) <==> AllHarmlessPairs(m, cap, pairs)
  {
    RunsAgree(m, cap, pairs);
    ET.ExactRunIff(m, cap, ChargesOf(pairs));
  }

  // ---- predictions ----------------------------------------------------------------------------

  function CountBelow(preds: seq<Prediction>): nat {
    if preds == [] then 0
    else CountBelow(preds[..|preds| - 1]) + if preds[|preds| - 1].belowRedline then 1 else 0
  }

  lemma CountAppend(preds: seq<Prediction>, p: Prediction)
    ensures CountBelow(preds + [p]) == CountBelow(preds) + if p.belowRedline then 1 else 0
  {
    assert (preds + [p])[..|preds + [p]| - 1] == preds;
  }

  /** The nine defaults, for what is not positive and nothing else. */
  lemma DefaultsFill(c: Config)
    ensures WithDefaults(c) ==
            Config(if c.maxwellTauS <= 0.0 then 0.000_025 else c.maxwellTauS,
                   if c.meyerHardnessGPa <= 0.0 then 0.12 else c.meyerHardnessGPa,
                   if c.bondAreaUm2 <= 0.0 then 2_500.0 else c.bondAreaUm2, if c.energyCoeff <= 0.0 then 1.85 else c.energyCoeff,
                   if c.yieldCoeff <= 0.0 then 0.62 else c.yieldCoeff, if c.redlineGrams <= 0.0 then 5.0 else c.redlineGrams,
                   if c.bondingFreqHz <= 0.0 then 40_000.0 else c.bondingFreqHz,
                   if c.softeningWindowNs == 0 then 500_000 else c.softeningWindowNs,
                   if c.energyWindowNs == 0 then 2_000_000 else c.energyWindowNs)
    ensures WithDefaults(WithDefaults(c)) == WithDefaults(c)
  {
  }

  /** Statistics of admissible hardness values: a mean no smaller than the least of them, and a
      softening degree that is a fraction. */
  lemma Statistics(avgHard: real, avgPhase: real, degSoft: real, rows: seq<ST.Row>)
    requires ST.Describes(avgHard, avgPhase, degSoft, true, rows)
    requires forall r :: r in rows ==> r.hardRat >= MIN_HARDNESS
    ensures avgHard >= MIN_HARDNESS && 0.0 <= degSoft < 1.0
  {
    var lo, hi :| ST.IsLeast(lo, rows) && ST.IsGreatest(hi, rows) && degSoft == ST.Softening(lo, hi);
    ST.MeanBetween(rows, lo, hi);
    ST.SofteningIsFraction(rows, lo, hi);
  }

  function EnergyRatio(dissJ: real, avgHard: real): real {
    if dissJ > 0.000_000_000_001 then Ratio(dissJ, 1.0 + avgHard * 0.001) else 0.0
  }

  /** An energy is never divided by zero. */
  lemma DivisorsPositive(avgHard: real)
    requires avgHard >= MIN_HARDNESS
    ensures 1.0 + avgHard * 0.001 > 0.0
  {
  }

  // ---- the predictor as a function of what it was fed -----------------------------------------

  /** What stays the same from one reset to the next and beyond. */
  datatype Setup = Setup(lib: Libm, cfg: Config, solve: (Config, Features) -> Estimate, softCap: nat, energyCap: posnat)

  /** Everything that was taken in and came out since the last reset. */
  datatype Book = Book(soft: seq<ST.Row>, accepted: seq<Pair>, lastTsNs: nat, predictions: seq<Prediction>)

  const EMPTY_BOOK := Book([], [], 0, [])

  predicate Admitted(rows: seq<ST.Row>) { forall r :: r in rows ==> r.hardRat >= MIN_HARDNESS }

  function HardnessIn(s: Setup, soft: seq<ST.Row>, tsNs: nat): seq<ST.Row> {
    ST.Kept(Window(soft, s.softCap), s.cfg.softeningWindowNs, tsNs)
  }

  /** The prediction at `tsNs` from the two trackers: none below four hardness values in the window. */
  function Forecast(s: Setup, soft: seq<ST.Row>, accepted: seq<Pair>, seqNo: nat, tsNs: nat): Option<Prediction> {
    var stats := ST.StatisticsOf(HardnessIn(s, soft, tsNs));
    if stats.None? then None
    else
      var avgHard, dissJ := stats.value.avgHard, Energy(s.lib, s.energyCap, accepted);
      var f := Features(tsNs, seqNo, avgHard, dissJ, s.cfg.bondAreaUm2, stats.value.degSoft, stats.value.avgPhase,
                        EnergyRatio(dissJ, avgHard));
      var estimate := s.solve(s.cfg, f);
      Some(Prediction(tsNs, seqNo, estimate, estimate.pullGrams < s.cfg.redlineGrams, f))
  }

  /** The time and, unless the current is too small to divide by, the pair of one sample. */
  function Charged(b: Book, tsNs: nat, v: Phasor, i: Phasor): Book {
    b.(lastTsNs := tsNs,
       accepted := b.accepted + if CurrentSq(i) < MIN_CURRENT_SQ then [] else [Pair(tsNs, v, i, StepOf(b.lastTsNs, tsNs))])
  }

  /** The hardness of one accepted sample, and the prediction it leads to. */
  function Judged(s: Setup, b: Book, seqNo: nat, tsNs: nat, z: ImpedancePoint): Book {
    var soft := b.soft + [ST.Row(tsNs, z.magnitude, z.phase)];
    b.(soft := soft, predictions := b.predictions + Listed(Forecast(s, soft, b.accepted, seqNo, tsNs)))
  }

  /** The book after one sample. */
  function Fed(s: Setup, b: Book, seqNo: nat, tsNs: nat, v: Phasor, i: Phasor, z: ImpedancePoint): Book {
    var c := Charged(b, tsNs, v, i);
    if CurrentSq(i) < MIN_CURRENT_SQ || z.magnitude < MIN_HARDNESS then c else Judged(s, c, seqNo, tsNs, z)
  }

  // ---- whole runs -----------------------------------------------------------------------------

  /** What one call of `PushPhasor` is given. */
  datatype Input = Input(seqNo: nat, tsNs: nat, v: Phasor, i: Phasor, z: ImpedancePoint)

  /** The book after a run of calls. */
  function FedAll(s: Setup, inputs: seq<Input>): Book {
    if inputs == [] then EMPTY_BOOK
    else
      var x := inputs[|inputs| - 1];
      Fed(s, FedAll(s, inputs[..|inputs| - 1]), x.seqNo, x.tsNs, x.v, x.i, x.z)
  }

  /** The time step of an accepted pair is the time since the sample before it, whether that was accepted or not; the
      nominal 10000 ns when there was none or its stamp was not smaller. */
  lemma StepIs(s: Setup, b: Book, x: Input)
    requires CurrentSq(x.i) >= 0.000_000_000_001
    ensures var accepted := Fed(s, b, x.seqNo, x.tsNs, x.v, x.i, x.z).accepted;
            && |accepted| == |b.accepted| + 1 && accepted[..|b.accepted|] == b.accepted
            && var p := accepted[|b.accepted|];
               && p.tsNs == x.tsNs && p.v == x.v && p.i == x.i
               && (0 < b.lastTsNs < x.tsNs ==> p.dtNs == x.tsNs as real - b.lastTsNs as real)
               && (b.lastTsNs == 0 || b.lastTsNs >= x.tsNs ==> p.dtNs == 10_000.0)
  {
  }

  function TotalNs(pairs: seq<Pair>): real {
    if pairs == [] then 0.0 else TotalNs(pairs[..|pairs| - 1]) + pairs[|pairs| - 1].dtNs
  }

  lemma TotalAppend(pairs: seq<Pair>, p: Pair)
    ensures TotalNs(pairs + [p]) == TotalNs(pairs) + p.dtNs
  {
    assert (pairs + [p])[..|pairs|] == pairs;
  }

  /** Positive stamps that always increase. */
  ghost predicate Increasing(inputs: seq<Input>) {
    && (forall k :: 0 <= k < |inputs| ==> inputs[k].tsNs > 0)
    && (forall j, k :: 0 <= j < k < |inputs| ==> inputs[j].tsNs < inputs[k].tsNs)
  }

  ghost predicate NoneRejected(inputs: seq<Input>) {
    forall k :: 0 <= k < |inputs| ==> CurrentSq(inputs[k].i) >= 0.000_000_000_001
  }

  /** The steps telescope: for increasing stamps those of the accepted pairs add up to the time from the first sample to
      the last and the nominal step of the first, if and only if no sample was rejected; otherwise to less. */
  lemma {:induction false} StepsTelescope(s: Setup, inputs: seq<Input>)
    requires inputs != [] && Increasing(inputs)
    ensures var first, last, total := inputs[0].tsNs, inputs[|inputs| - 1].tsNs, TotalNs(FedAll(s, inputs).accepted);
            && FedAll(s, inputs).lastTsNs == last && total <= last as real - first as real + 10_000.0
            && (total == last as real - first as real + 10_000.0 <==> NoneRejected(inputs))
  {
    var front, x := inputs[..|inputs| - 1], inputs[|inputs| - 1];
    TotalGrows(s, FedAll(s, front), x);
    assert inputs == front + [x];
    RejectedNext(front, x);
    if front == [] {
      assert inputs[0] == x && FedAll(s, front) == EMPTY_BOOK && TotalNs([]) == 0.0;
    } else {
      StepsTelescope(s, front);
      Later(front[|front| - 1].tsNs, x.tsNs) by { assert inputs[|front| - 1] == front[|front| - 1]; }
    }
  }

  lemma Later(a: nat, b: nat)
    requires a < b
    ensures a as real < b as real
  {
  }

  lemma RejectedNext(front: seq<Input>, x: Input)
    ensures NoneRejected(front + [x]) <==> NoneRejected(front) && CurrentSq(x.i) >= 0.000_000_000_001
  {
    var inputs := front + [x];
    assert inputs[|front|] == x && forall k :: 0 <= k < |front| ==> inputs[k] == front[k];
  }

  /** One more sample: its step, unless it is rejected. */
  lemma TotalGrows(s: Setup, b: Book, x: Input)
    ensures var b' := Fed(s, b, x.seqNo, x.tsNs, x.v, x.i, x.z);
            && b'.lastTsNs == x.tsNs
            && TotalNs(b'.accepted) == TotalNs(b.accepted) +
                 if CurrentSq(x.i) < 0.000_000_000_001 then 0.0
                 else if 0 < b.lastTsNs < x.tsNs then x.tsNs as real - b.lastTsNs as real else 10_000.0
  {
    if CurrentSq(x.i) >= 0.000_000_000_001 {
      StepIs(s, b, x);
      var pairs := Fed(s, b, x.seqNo, x.tsNs, x.v, x.i, x.z).accepted;
      assert pairs == b.accepted + [pairs[|b.accepted|]];
      TotalAppend(b.accepted, pairs[|b.accepted|]);
    } else {
      assert b.accepted + [] == b.accepted;
    }
  }

  const ONE_UNIT := Phasor(1.0, 0.0, 1.0, 0.0, 0.0)

  /** `n` samples of one volt and one ampere, 10000 ns apart. */
  function Steady(n: nat, z: ImpedancePoint): (inputs: seq<Input>)
    ensures |inputs| == n
  {
    seq(n, k requires 0 <= k < n => Input(k, 10_000 * (k + 1), ONE_UNIT, ONE_UNIT, z))
  }

  lemma {:induction false} SteadyCharges(s: Setup, n: nat, z: ImpedancePoint)
    ensures var b := FedAll(s, Steady(n, z)); ChargesOf(b.accepted) == ET.OneWatt(n) && b.lastTsNs == 10_000 * n
  {
    if n > 0 {
      SteadyCharges(s, n - 1, z);
      var b, x := FedAll(s, Steady(n - 1, z)), Steady(n, z)[n - 1];
      assert Steady(n, z)[..n - 1] == Steady(n - 1, z);
      UnitCharge(s, b, x);
      assert ET.OneWatt(n) == ET.OneWatt(n - 1) + [ET.OneWatt(n)[n - 1]];
    }
  }

  /** A sample of one volt and one ampere is charged as one watt over its step. */
  lemma UnitCharge(s: Setup, b: Book, x: Input)
    requires x.v == x.i == ONE_UNIT
    ensures ChargesOf(Fed(s, b, x.seqNo, x.tsNs, x.v, x.i, x.z).accepted) ==
            ChargesOf(b.accepted) + [ET.Charge(ET.Row(x.tsNs, 1.0, 0.0), StepOf(b.lastTsNs, x.tsNs))]
  {
    StepIs(s, b, x);
    ChargesAppend(b.accepted, Pair(x.tsNs, x.v, x.i, StepOf(b.lastTsNs, x.tsNs)));
  }

  /** A failing run for every setup: a full window of one volt and one ampere each, and one more sample that comes
      20000 ns after the last. The accumulator is then no longer the energy of the newest pairs. */
  lemma LateSampleDrifts(s: Setup, z: ImpedancePoint)
    requires IsSqrt(s.lib)
    ensures var late := Input(s.energyCap, 10_000 * s.energyCap + 20_000, ONE_UNIT, ONE_UNIT, z);
            var accepted := FedAll(s, Steady(s.energyCap, z) + [late]).accepted;
            Energy(s.lib, s.energyCap, accepted) != EnergyOf(s.lib, Window(accepted, s.energyCap))
  {
    var n: nat := s.energyCap;
    var late := Input(n, 10_000 * n + 20_000, ONE_UNIT, ONE_UNIT, z);
    var b, inputs := FedAll(s, Steady(n, z)), Steady(n, z) + [late];
    var accepted := FedAll(s, inputs).accepted;
    assert inputs[..|inputs| - 1] == Steady(n, z);
    SteadyCharges(s, n, z);
    UnitCharge(s, b, late);
    ET.SkippedSampleDrifts(s.lib, n);
    EnergyAgrees(s.lib, Window(accepted, n));
    ChargesWindow(accepted, n);
  }

  // ---- what a prediction says -----------------------------------------------------------------

  /** The rows a prediction looks at: those of the newest pushes, as many as the tracker holds, that carry a stamp and,
      at a positive time, lie no further back than the softening window. */
  lemma HardnessIff(s: Setup, soft: seq<ST.Row>, tsNs: nat, r: ST.Row)
    requires tsNs < WORD64 && r.tsNs <= tsNs
    ensures r in HardnessIn(s, soft, tsNs) <==>
            r in Window(soft, s.softCap) && r.tsNs > 0 && tsNs - r.tsNs <= s.cfg.softeningWindowNs
  {
    ST.KeptIff(Window(soft, s.softCap), s.cfg.softeningWindowNs, tsNs, r);
    ST.UnstampedNever(r, s.cfg.softeningWindowNs, tsNs);
    if r.tsNs > 0 { ST.QualifiesIff(r, s.cfg.softeningWindowNs, tsNs); }
  }

  lemma ForecastDescribes(s: Setup, soft: seq<ST.Row>, accepted: seq<Pair>, seqNo: nat, tsNs: nat)
    ensures Forecast(s, soft, accepted, seqNo, tsNs).Some? <==> |HardnessIn(s, soft, tsNs)| >= 4
    ensures Forecast(s, soft, accepted, seqNo, tsNs).Some? ==>
              var f := Forecast(s, soft, accepted, seqNo, tsNs).value.features;
              && ST.Describes(f.hardnessRatio, f.phaseLagRad, f.softeningDeg, true, HardnessIn(s, soft, tsNs))
              && f.energyRatio == EnergyRatio(f.dissipationJ, f.hardnessRatio)
  {
    var stats := ST.StatisticsOf(HardnessIn(s, soft, tsNs));
    if stats.Some? {
      ST.DescribesIff(stats.value.avgHard, stats.value.avgPhase, stats.value.degSoft, HardnessIn(s, soft, tsNs));
    }
  }

  /** A prediction comes exactly from four rows on. It carries number and stamp; its features are the means of the rows,
      the softening in terms of their extremes, the energy in the accumulator and the bond area; it is below the redline
      when the solved pull is. */
  lemma ForecastSays(s: Setup, soft: seq<ST.Row>, accepted: seq<Pair>, seqNo: nat, tsNs: nat, p: Prediction, rows: seq<ST.Row>)
    requires rows == HardnessIn(s, soft, tsNs)
    requires Forecast(s, soft, accepted, seqNo, tsNs) == Some(p)
    ensures |rows| >= 4 && p.timestampNs == p.features.timestampNs == tsNs && p.seqNo == p.features.seqNo == seqNo
    ensures p.features.hardnessRatio * |rows| as real == ST.SumHard(rows)
    ensures p.features.phaseLagRad * |rows| as real == ST.SumPhase(rows)
    ensures forall lo, hi :: ST.IsLeast(lo, rows) && ST.IsGreatest(hi, rows) ==> ST.Lacks(p.features.softeningDeg, lo, hi)
    ensures p.features.dissipationJ == Energy(s.lib, s.energyCap, accepted) && p.features.contactArea == s.cfg.bondAreaUm2
    ensures p.estimate == s.solve(s.cfg, p.features) && (p.belowRedline <==> p.estimate.pullGrams < s.cfg.redlineGrams)
  {
    ForecastDescribes(s, soft, accepted, seqNo, tsNs);
    ST.MeansSay(p.features.hardnessRatio, p.features.phaseLagRad, p.features.softeningDeg, rows);
    ST.AllExtremesSay(p.features.hardnessRatio, p.features.phaseLagRad, p.features.softeningDeg, rows);
  }

  /** The energy ratio is the energy over 1 + hardness / 1000, and nothing for a negligible energy. */
  lemma EnergyRatioSays(dissJ: real, avgHard: real)
    requires avgHard >= MIN_HARDNESS
    ensures dissJ > 0.000_000_000_001 ==> 1000.0 * dissJ == EnergyRatio(dissJ, avgHard) * (1000.0 + avgHard)
    ensures dissJ <= 0.000_000_000_001 ==> EnergyRatio(dissJ, avgHard) == 0.0
  {
    var d := 1.0 + avgHard * 0.001;
    if dissJ > 0.000_000_000_001 {
      assert EnergyRatio(dissJ, avgHard) * d == dissJ;
      assert 1000.0 + avgHard == 1000.0 * d;
    }
  }

  ghost predicate FiveApart(me: object, soft: object, softRows: object, energy: object, energyRows: object) {
    && me != soft && me != softRows && me != energy && me != energyRows
    && soft != softRows && soft != energy && soft != energyRows
    && softRows != energy && softRows != energyRows && energy != energyRows
  }

  class MeyerPredictor {
    const lib: Libm
    const solve: (Config, Features) -> Estimate
    const cfg: Config
    var latest: Prediction
    var softBuf: ST.SofteningTracker
    var energyBuf: ET.EnergyTracker
    var totalPredictions: nat
    var redlineHits: nat
    var lastTsNs: nat
    /** Every pair whose current was not rejected, and every prediction, since the last reset. */
    ghost var accepted: seq<Pair>
    ghost var predictions: seq<Prediction>
    /** Every timestamp so far was positive and 10000 ns after the one before. */
    ghost var steady: bool

    ghost var Repr: set<object>

    ghost predicate Valid()
      reads this, Repr
    {
      && this in Repr && softBuf in Repr && softBuf.rows in Repr && energyBuf in Repr && energyBuf.rows in Repr
      && Hardened() && Accounted() && Exactly() && Counted() && Apart()
    }

    ghost predicate Hardened()
      reads this`softBuf, softBuf, softBuf.rows
    {
      softBuf.Valid() && Admitted(softBuf.hist)
    }

    ghost function Fixed(): Setup
      reads this`softBuf, this`energyBuf
    {
      Setup(lib, cfg, solve, softBuf.capacity, energyBuf.capacity)
    }

    ghost function Written(): Book
      reads this`softBuf, this`accepted, this`lastTsNs, this`predictions, softBuf`hist
    {
      Book(softBuf.hist, accepted, lastTsNs, predictions)
    }

    /** The energy tracker was charged for each accepted pair, always with a positive time step. */
    ghost predicate Accounted()
      reads this`energyBuf, this`accepted, energyBuf, energyBuf.rows
    {
      && energyBuf.Valid() && energyBuf.lib == lib && ET.Forward(energyBuf.charges)
      && energyBuf.charges == ChargesOf(accepted)
    }

    ghost predicate Exactly()
      reads this`energyBuf, this`steady, energyBuf
    {
      steady ==> ET.Steady(energyBuf.charges, STEADY_DT)
    }

    ghost predicate Counted()
      reads this`predictions, this`latest, this`totalPredictions, this`redlineHits
    {
      && totalPredictions == |predictions| && redlineHits == CountBelow(predictions)
      && (predictions != [] ==> latest == predictions[|predictions| - 1])
    }

    /** The predictor, its trackers and their buffers are five different objects. */
    ghost predicate Apart()
      reads this`softBuf, this`energyBuf
    {
      FiveApart(this, softBuf, softBuf.rows, energyBuf, energyBuf.rows)
    }

    /** `NewMeyerPredictor`. */
    constructor (lib: Libm, solve: (Config, Features) -> Estimate, c: Config, blank: Prediction)
      ensures Valid() && steady && Written() == EMPTY_BOOK
      ensures cfg == WithDefaults(c) && this.lib == lib && this.solve == solve
      ensures softBuf.hist == [] && energyBuf.accJ == 0.0
      ensures var n := cfg.softeningWindowNs / 10_000; softBuf.capacity == if n < 16 then 16 else n
      ensures var n := cfg.energyWindowNs / 10_000; energyBuf.capacity == if n < 64 then 64 else n
      ensures Repr == {this, softBuf, softBuf.rows, energyBuf, energyBuf.rows}
      ensures fresh(softBuf) && fresh(softBuf.rows) && fresh(energyBuf) && fresh(energyBuf.rows)
    {
      var full := WithDefaults(c);
      var soft := new ST.SofteningTracker(AtLeast(full.softeningWindowNs / SAMPLE_INTERVAL_NS, 16));
      var energy := new ET.EnergyTracker(lib, AtLeast(full.energyWindowNs / SAMPLE_INTERVAL_NS, 64));
      this.lib, this.solve, cfg := lib, solve, full;
      softBuf, energyBuf := soft, energy;
      latest := blank;
      totalPredictions, redlineHits, lastTsNs := 0, 0, 0;
      accepted, predictions, steady := [], [], true;
      Repr := {this, soft, soft.rows, energy, energy.rows};
    }

    method Install(soft: ST.SofteningTracker, energy: ET.EnergyTracker, blank: Prediction)
      requires soft.Valid() && soft.hist == [] && energy.Valid() && energy.charges == [] && energy.lib == lib
      requires FiveApart(this, soft, soft.rows, energy, energy.rows)
      modifies this
      ensures Valid() && steady && Written() == EMPTY_BOOK
      ensures softBuf == soft && energyBuf == energy && Repr == {this, softBuf, softBuf.rows, energyBuf, energyBuf.rows}
    {
      latest, softBuf, energyBuf := blank, soft, energy;
      totalPredictions, redlineHits, lastTsNs := 0, 0, 0;
      accepted, predictions, steady := [], [], true;
      Repr := {this, soft, soft.rows, energy, energy.rows};
    }

    method Renew(softCap: nat, energyCap: nat, blank: Prediction)
      requires softCap > 0 && energyCap > 0
      modifies this
      ensures Valid() && steady && Written() == EMPTY_BOOK
      ensures softBuf.hist == [] && energyBuf.accJ == 0.0
      ensures softBuf.capacity == softCap && energyBuf.capacity == energyCap
      ensures Repr == {this, softBuf, softBuf.rows, energyBuf, energyBuf.rows}
      ensures fresh(softBuf) && fresh(softBuf.rows) && fresh(energyBuf) && fresh(energyBuf.rows)
    {
      var soft := new ST.SofteningTracker(softCap);
      var energy := new ET.EnergyTracker(lib, energyCap);
      Install(soft, energy, blank);
    }

    /** New trackers of the same capacities; every counter and timestamp starts over. */
    method Reset(blank: Prediction)
      requires Valid()
      modifies this
      ensures Valid() && steady && Written() == EMPTY_BOOK
      ensures softBuf.hist == [] && energyBuf.accJ == 0.0
      ensures softBuf.capacity == old(softBuf.capacity) && energyBuf.capacity == old(energyBuf.capacity)
      ensures Repr == {this, softBuf, softBuf.rows, energyBuf, energyBuf.rows}
      ensures fresh(softBuf) && fresh(softBuf.rows) && fresh(energyBuf) && fresh(energyBuf.rows)
    {
      Renew(softBuf.capacity, energyBuf.capacity, blank);
    }

    /** While the stamps are steady the accumulator is the sum of |V| |I| dt over the newest accepted
        pairs, as many as the tracker holds. */
    lemma SteadyEnergy()
      requires Valid() && IsSqrt(lib) && steady
      ensures energyBuf.accJ == EnergyOf(lib, Window(accepted, energyBuf.capacity))
      ensures forall p :: p in accepted ==> p.dtNs == STEADY_DT
    {
      ET.SteadyRun(lib, energyBuf.capacity, energyBuf.charges, STEADY_DT);
      ChargesWindow(accepted, energyBuf.capacity);
      EnergyAgrees(lib, Window(accepted, energyBuf.capacity));
      forall k | 0 <= k < |accepted| ensures accepted[k].dtNs == STEADY_DT {
        assert energyBuf.charges[k] in energyBuf.charges;
      }
    }

    /** Whatever the stamps, the accumulator has been that sum after every accepted pair if and only if every
        eviction so far was harmless. */
    lemma EnergyExactIff()
      requires Valid() && IsSqrt(lib)
      ensures energyBuf.accJ == Energy(lib, energyBuf.capacity, accepted)
      ensures AlwaysRight(lib, energyBuf.capacity, accepted) <==> AllHarmlessPairs(lib, energyBuf.capacity, accepted)
    {
      EnergyRightIff(lib, energyBuf.capacity, accepted);
    }

    /** The time step of a push, and whether the stamps are still steady. */
    method Advance(tsNs: nat) returns (dtNs: real)
      requires Valid()
      modifies this`lastTsNs, this`steady
      ensures Valid() && lastTsNs == tsNs
      ensures steady <==> old(steady) && tsNs > 0 && (old(lastTsNs) > 0 ==> tsNs == old(lastTsNs) + SAMPLE_INTERVAL_NS)
      ensures dtNs == StepOf(old(lastTsNs), tsNs) > 0.0
      ensures dtNs == if 0 < old(lastTsNs) < tsNs then tsNs as real - old(lastTsNs) as real else 10_000.0
    {
      dtNs := SAMPLE_INTERVAL_NS as real;
      if lastTsNs > 0 && tsNs > lastTsNs {
        dtNs := (tsNs - lastTsNs) as real;
      }
      steady := steady && tsNs > 0 && (lastTsNs > 0 ==> tsNs == lastTsNs + SAMPLE_INTERVAL_NS);
      lastTsNs := tsNs;
    }

    /** The energy of one accepted pair. */
    method AccountFor(tsNs: nat, v: Phasor, i: Phasor, dtNs: real)
      requires Valid() && dtNs > 0.0
      requires steady ==> tsNs > 0 && dtNs == STEADY_DT
      modifies energyBuf, energyBuf.rows, this`accepted
      ensures Valid() && accepted == old(accepted) + [Pair(tsNs, v, i, dtNs)] && softBuf.hist == old(softBuf.hist)
    {
      var instVI := InPhase(v, i);
      var instQI := Quadrature(v, i);
      energyBuf.Push(tsNs, instVI, instQI, dtNs);
      ChargesAppend(accepted, Pair(tsNs, v, i, dtNs));
      accepted := accepted + [Pair(tsNs, v, i, dtNs)];
    }

    /** The time and, unless the current is too small to divide by, the energy of one sample. */
    method TakeIn(tsNs: nat, v: Phasor, i: Phasor) returns (accept: bool)
      requires Valid()
      modifies this`lastTsNs, this`steady, this`accepted, energyBuf, energyBuf.rows
      ensures Valid() && lastTsNs == tsNs && softBuf.hist == old(softBuf.hist)
      ensures steady <==> old(steady) && tsNs > 0 && (old(lastTsNs) > 0 ==> tsNs == old(lastTsNs) + SAMPLE_INTERVAL_NS)
      ensures accept <==> CurrentSq(i) >= MIN_CURRENT_SQ
      ensures accepted == old(accepted) + if accept then [Pair(tsNs, v, i, StepOf(old(lastTsNs), tsNs))] else []
      ensures !accept ==> energyBuf.accJ == old(energyBuf.accJ)
      ensures Written() == Charged(old(Written()), tsNs, v, i)
    {
      var dtNs := Advance(tsNs);
      var iMagSq := CurrentSq(i);
      if iMagSq < MIN_CURRENT_SQ {
        return false;
      }
      AccountFor(tsNs, v, i, dtNs);
      return true;
    }

    /** The hardness rows within the softening window, as of `tsNs`. */
    ghost function HardRows(tsNs: nat): seq<ST.Row>
      reads this, softBuf
    {
      HardnessIn(Fixed(), softBuf.hist, tsNs)
    }

    /** What a prediction at `tsNs` says about the two trackers. */
    ghost predicate Explained(p: Prediction, seqNo: nat, tsNs: nat)
      reads this, softBuf, energyBuf
    {
      var f := p.features;
      && p.timestampNs == f.timestampNs == tsNs && p.seqNo == f.seqNo == seqNo
      && ST.Describes(f.hardnessRatio, f.phaseLagRad, f.softeningDeg, true, HardRows(tsNs))
      && f.hardnessRatio >= MIN_HARDNESS && 0.0 <= f.softeningDeg < 1.0
      && f.dissipationJ == energyBuf.accJ && f.contactArea == cfg.bondAreaUm2
      && f.energyRatio == EnergyRatio(f.dissipationJ, f.hardnessRatio)
      && p.estimate == solve(cfg, f)
      && (p.belowRedline <==> p.estimate.pullGrams < cfg.redlineGrams)
    }

    /** The hardness of an accepted point joins the softening tracker. */
    method Harden(tsNs: nat, hardRatio: real, phaseLag: real)
      requires Valid() && hardRatio >= MIN_HARDNESS
      modifies softBuf, softBuf.rows
      ensures Valid() && softBuf.hist == old(softBuf.hist) + [ST.Row(tsNs, hardRatio, phaseLag)]
      ensures energyBuf.accJ == old(energyBuf.accJ)
    {
      softBuf.Push(tsNs, hardRatio, phaseLag);
    }

    lemma Admissible(avgHard: real, avgPhase: real, degSoft: real, tsNs: nat)
      requires Hardened() && ST.Describes(avgHard, avgPhase, degSoft, true, HardRows(tsNs))
      ensures avgHard >= MIN_HARDNESS && 0.0 <= degSoft < 1.0
    {
      forall r | r in HardRows(tsNs) ensures r.hardRat >= MIN_HARDNESS {
        ST.KeptIff(Window(softBuf.hist, softBuf.capacity), cfg.softeningWindowNs, tsNs, r);
      }
      Statistics(avgHard, avgPhase, degSoft, HardRows(tsNs));
    }

    /** A prediction becomes the latest and is counted. */
    method Record(result: Prediction)
      requires Counted()
      modifies this`latest, this`totalPredictions, this`redlineHits, this`predictions
      ensures Counted() && predictions == old(predictions) + [result] && accepted == old(accepted) && steady == old(steady)
    {
      CountAppend(predictions, result);
      latest := result;
      totalPredictions := totalPredictions + 1;
      if result.belowRedline {
        redlineHits := redlineHits + 1;
      }
      predictions := predictions + [result];
    }

    /** Statistics to features, features to a prediction, prediction to the counters. */
    method Predict(seqNo: nat, tsNs: nat) returns (pred: Option<Prediction>)
      requires Valid()
      modifies this`latest, this`totalPredictions, this`redlineHits, this`predictions
      ensures Valid()
      ensures pred.Some? <==> |HardRows(tsNs)| >= 4
      ensures pred.Some? ==> Explained(pred.value, seqNo, tsNs)
      ensures pred == Forecast(Fixed(), softBuf.hist, accepted, seqNo, tsNs)
      ensures predictions == old(predictions) + if pred.Some? then [pred.value] else []
    {
      var avgHard, avgPhase, degSoft, softOk := softBuf.Stats(cfg.softeningWindowNs, tsNs);
      if !softOk {
        return None;
      }
      var result := Compose(seqNo, tsNs, avgHard, avgPhase, degSoft);
      Record(result);
      return Some(result);
    }

    /** The features, and what they are solved to. */
    method Compose(seqNo: nat, tsNs: nat, avgHard: real, avgPhase: real, degSoft: real) returns (result: Prediction)
      requires Valid() && ST.Describes(avgHard, avgPhase, degSoft, true, HardRows(tsNs))
      requires ST.StatisticsOf(HardRows(tsNs)) == Some(ST.Statistics(avgHard, avgPhase, degSoft))
      ensures Explained(result, seqNo, tsNs) && Forecast(Fixed(), softBuf.hist, accepted, seqNo, tsNs) == Some(result)
    {
      Admissible(avgHard, avgPhase, degSoft, tsNs);
      DivisorsPositive(avgHard);
      var dissJ := energyBuf.accJ;
      var feat := Features(tsNs, seqNo, avgHard, dissJ, cfg.bondAreaUm2, degSoft, avgPhase, EnergyRatio(dissJ, avgHard));
      var estimate := solve(cfg, feat);
      var below := estimate.pullGrams < cfg.redlineGrams;
      result := Prediction(tsNs, seqNo, estimate, below, feat);
    }

    /** An accepted point with an impedance worth recording: its hardness, then the prediction. */
    method Assess(seqNo: nat, tsNs: nat, z: ImpedancePoint) returns (pred: Option<Prediction>)
      requires Valid() && z.magnitude >= MIN_HARDNESS
      modifies softBuf, softBuf.rows, this`latest, this`totalPredictions, this`redlineHits, this`predictions
      ensures Valid() && softBuf.hist == old(softBuf.hist) + [ST.Row(tsNs, z.magnitude, z.phase)]
      ensures pred.Some? <==> |HardRows(tsNs)| >= 4
      ensures pred.Some? ==> Explained(pred.value, seqNo, tsNs)
      ensures predictions == old(predictions) + if pred.Some? then [pred.value] else []
      ensures Written() == Judged(Fixed(), old(Written()), seqNo, tsNs, z)
    {
      Harden(tsNs, z.magnitude, z.phase);
      pred := Predict(seqNo, tsNs);
    }

    /** A sample in; a prediction out once four hardness values lie within the window. A current too
        small to divide by changes nothing but the last timestamp; an impedance too small is
        accounted for but gives no hardness. */
    method PushPhasor(seqNo: nat, tsNs: nat, v: Phasor, i: Phasor, z: ImpedancePoint) returns (pred: Option<Prediction>)
      requires Valid()
      modifies Repr
      ensures Valid() && Repr == old(Repr) && softBuf == old(softBuf) && energyBuf == old(energyBuf) && lastTsNs == tsNs
      ensures steady <==> old(steady) && tsNs > 0 && (old(lastTsNs) > 0 ==> tsNs == old(lastTsNs) + SAMPLE_INTERVAL_NS)
      ensures accepted == old(accepted) +
                if CurrentSq(i) < 0.000_000_000_001 then []
                else [Pair(tsNs, v, i, if 0 < old(lastTsNs) < tsNs then (tsNs - old(lastTsNs)) as real else 10_000.0)]
      ensures CurrentSq(i) < 0.000_000_000_001 ==> energyBuf.accJ == old(energyBuf.accJ)
      ensures softBuf.hist == old(softBuf.hist) + if CurrentSq(i) < 0.000_000_000_001 || z.magnitude < 0.000_000_001
                                                  then [] else [ST.Row(tsNs, z.magnitude, z.phase)]
      ensures pred.Some? <==> CurrentSq(i) >= 0.000_000_000_001 && z.magnitude >= 0.000_000_001 && |HardRows(tsNs)| >= 4
      ensures pred.Some? ==> Explained(pred.value, seqNo, tsNs)
      ensures predictions == old(predictions) + if pred.Some? then [pred.value] else []
      ensures Fixed() == old(Fixed()) && Written() == Fed(Fixed(), old(Written()), seqNo, tsNs, v, i, z)
    {
      var accept := TakeIn(tsNs, v, i);
      if !accept || z.magnitude < MIN_HARDNESS {
        return None;
      }
      pred := Assess(seqNo, tsNs, z);
    }
  }
}
