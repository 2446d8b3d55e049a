/** The Goertzel recurrence against the transform bin it stands for. */
module Goertzel {
  import opened PhasorMath

  /** The bin itself: the sum of x_n e^{-i w n}, for the rotation `w` = (cos, sin). */
  function Dft(xs: seq<real>, w: Complex): Complex {
    if xs == [] then ZERO
    else
      var n := |xs| - 1;
      Add(Dft(xs[..n], w), Scale(xs[n], Pow(Conj(w), n)))
  }

  datatype State = State(s1: real, s2: real)

  /** One `AddSample`. */
  function Next(g: State, coef: real, x: real): State {
    State(x + coef * g.s1 - g.s2, g.s1)
  }

  /** What the two registers hold after `xs`. */
  function Run(xs: seq<real>, coef: real): State {
    if xs == [] then State(0.0, 0.0) else Next(Run(xs[..|xs| - 1], coef), coef, xs[|xs| - 1])
  }

  /** The coefficient the constructor stores for the rotation `w`. */
  predicate Tuned(coef: real, w: Complex) { Unit(w) && coef == 2.0 * w.re }

  /** The registers as a phasor that each sample turns by `w` and adds to. */
  function Phasor(g: State, w: Complex): Complex {
    Complex(g.s1 - w.re * g.s2, w.im * g.s2)
  }

  /** The phasor turned once more: the pair `Result` starts from. */
  function Turned(g: State, w: Complex): Complex {
    Complex(w.re * g.s1 - g.s2, w.im * g.s1)
  }

  lemma PhasorTurns(g: State, w: Complex)
    requires Unit(w)
    ensures Mul(w, Phasor(g, w)) == Turned(g, w)
  {
    TurnParts(w.re, w.im, g.s1, g.s2);
  }

  lemma TurnParts(c: real, s: real, a: real, b: real)
    requires c * c + s * s == 1.0
    ensures c * (a - c * b) - s * (s * b) == c * a - b
    ensures c * (s * b) + s * (a - c * b) == s * a
  {
    assert c * (c * b) + s * (s * b) == (c * c + s * s) * b;
    assert c * (s * b) == s * (c * b);
  }

  lemma PhasorStep(g: State, coef: real, w: Complex, x: real)
    requires Tuned(coef, w)
    ensures Phasor(Next(g, coef, x), w) == Add(Complex(x, 0.0), Turned(g, w))
  {
    CoefParts(w.re, coef, g.s1);
  }

  lemma CoefParts(c: real, coef: real, a: real)
    requires coef == 2.0 * c
    ensures coef * a - c * a == c * a
  {
  }

  /** The phasor turned once more is the bin turned by w^n. */
  lemma {:induction false} TurnedIsBin(xs: seq<real>, coef: real, w: Complex)
    requires Tuned(coef, w)
    ensures Turned(Run(xs, coef), w) == Mul(Pow(w, |xs|), Dft(xs, w))
  {
    if xs != [] {
      var n, x, rest := |xs| - 1, xs[|xs| - 1], xs[..|xs| - 1];
      var g := Run(rest, coef);
      TurnedIsBin(rest, coef, w);
      PhasorStep(g, coef, w, x);
      PhasorTurns(Next(g, coef, x), w);
      BinStep(w, Dft(rest, w), x, Turned(g, w), n);
    }
  }

  lemma BinStep(w: Complex, d: Complex, x: real, h: Complex, n: nat)
    requires Unit(w) && h == Mul(Pow(w, n), d)
    ensures Mul(w, Add(Complex(x, 0.0), h)) == Mul(Pow(w, n + 1), Add(d, Scale(x, Pow(Conj(w), n))))
  {
    var p, q := Pow(w, n), Pow(Conj(w), n);
    PowCancel(w, n);
    MulAssoc(w, p, Add(d, Scale(x, q)));
    MulAdd(p, d, Scale(x, q));
    MulScale(x, p, q);
    assert Add(h, Scale(x, ONE)) == Add(Complex(x, 0.0), h);
  }

  function MagnitudeSquaredOf(g: State, coef: real): real {
    g.s1 * g.s1 + g.s2 * g.s2 - coef * g.s1 * g.s2
  }

  /** `MagnitudeSquared` is the squared magnitude of the bin, after any number of samples. */
  lemma MagnitudeIsBin(xs: seq<real>, coef: real, w: Complex)
    requires Tuned(coef, w)
    ensures MagnitudeSquaredOf(Run(xs, coef), coef) == NormSq(Dft(xs, w))
  {
    BinNorm(xs, coef, w);
    TurnedMagnitude(Run(xs, coef), coef, w);
  }

  lemma BinNorm(xs: seq<real>, coef: real, w: Complex)
    requires Tuned(coef, w)
    ensures NormSq(Turned(Run(xs, coef), w)) == NormSq(Dft(xs, w))
  {
    TurnedIsBin(xs, coef, w);
    PowUnit(w, |xs|);
    UnitMulNorm(Pow(w, |xs|), Dft(xs, w));
  }

  lemma TurnedMagnitude(g: State, coef: real, w: Complex)
    requires Tuned(coef, w)
    ensures NormSq(Turned(g, w)) == MagnitudeSquaredOf(g, coef)
  {
    TurnedNorm(w.re, w.im, coef, g.s1, g.s2);
  }

  lemma TurnedNorm(c: real, s: real, coef: real, a: real, b: real)
    requires c * c + s * s == 1.0 && coef == 2.0 * c
    ensures (c * a - b) * (c * a - b) + (s * a) * (s * a) == a * a + b * b - coef * a * b
  {
    assert (c * a - b) * (c * a - b) == (c * c) * (a * a) - 2.0 * (c * a * b) + b * b;
    assert (s * a) * (s * a) == (s * s) * (a * a);
    assert (c * c) * (a * a) + (s * s) * (a * a) == (c * c + s * s) * (a * a);
    assert coef * a * b == 2.0 * (c * a * b);
  }

  datatype Result = Result(re: real, im: real, magnitude: real, angle: real, freqHz: real, complete: bool)

  const INCOMPLETE := Result(0.0, 0.0, 0.0, 0.0, 0.0, false)

  function Norm(n: nat): (r: real)
    requires n > 0
    ensures r > 0.0 && r * n as real == 2.0
  {
    2.0 / n as real
  }

  /** The two parts before normalisation. */
  function RawParts(m: Libm, g: State, coef: real): Complex {
    Complex(0.5 * coef * g.s1 - g.s2, m.sqrt(1.0 - 0.25 * coef * coef) * g.s1)
  }

  /** The bin nearest to the target frequency. */
  function BinIndex(targetFreqHz: real, sampleRateHz: real, n: nat): int
    requires sampleRateHz > 0.0
  {
    Round(targetFreqHz * n as real / sampleRateHz)
  }

  /** N times the distance of a bin's frequency k rate / N from the target. */
  function Detuning(hz: real, rate: real, n: nat, k: int): (d: real)
    ensures d >= 0.0 && (d == k as real * rate - hz * n as real || d == hz * n as real - k as real * rate)
  {
    Abs(k as real * rate - hz * n as real)
  }

  /** The bin is the one nearest to the target, at most half a bin away. */
  lemma NearestBin(hz: real, rate: real, n: nat, j: int)
    requires rate > 0.0 && n > 0
    ensures var k := BinIndex(hz, rate, n);
            Detuning(hz, rate, n, k) <= Detuning(hz, rate, n, j) && 2.0 * Detuning(hz, rate, n, k) <= rate
  {
    RoundNearest(hz * n as real / rate);
    Nearest(hz, rate, n, BinIndex(hz, rate, n), j, hz * n as real / rate);
  }

  lemma Nearest(hz: real, rate: real, n: nat, k: int, j: int, x: real)
    requires rate > 0.0 && x == hz * n as real / rate && -0.5 <= k as real - x <= 0.5
    ensures Detuning(hz, rate, n, k) <= Detuning(hz, rate, n, j) && 2.0 * Detuning(hz, rate, n, k) <= rate
  {
    NearestInteger(k, j, x);
    Apart(hz, rate, n, k, x);
    Apart(hz, rate, n, j, x);
    Scales(k as real - x, j as real - x, rate, Detuning(hz, rate, n, k), Detuning(hz, rate, n, j));
  }

  lemma Apart(hz: real, rate: real, n: nat, k: int, x: real)
    requires rate > 0.0 && x == hz * n as real / rate
    ensures Detuning(hz, rate, n, k) == Abs(k as real - x) * rate
  {
    Differ(hz * n as real, rate, k as real, x);
    AbsOfProduct(k as real - x, rate, (k as real - x) * rate);
  }

  lemma Differ(a: real, rate: real, k: real, x: real)
    requires rate > 0.0 && x == a / rate
    ensures k * rate - a == (k - x) * rate
  {
    assert x * rate == a;
  }

  lemma NearestInteger(k: int, j: int, x: real)
    requires -0.5 <= k as real - x <= 0.5
    ensures Abs(k as real - x) <= 0.5 && Abs(k as real - x) <= Abs(j as real - x)
  {
    if j > k {
      assert j as real >= k as real + 1.0;
    } else if j < k {
      assert j as real <= k as real - 1.0;
    }
  }

  lemma Scales(a: real, b: real, s: real, p: real, q: real)
    requires s > 0.0 && Abs(a) <= 0.5 && Abs(a) <= Abs(b) && p == Abs(a) * s && q == Abs(b) * s
    ensures p <= q && 2.0 * p <= s
  {
    OrderScales(Abs(a), Abs(b), s);
    OrderScales(Abs(a), 0.5, s);
  }

  lemma AbsOfProduct(a: real, s: real, p: real)
    requires s > 0.0 && p == a * s
    ensures Abs(p) == Abs(a) * s
  {
    if a >= 0.0 { OrderScales(0.0, a, s); } else { OrderScales(a, 0.0, s); }
  }

  lemma OrderScales(a: real, b: real, s: real)
    requires a <= b && s > 0.0
    ensures a * s <= b * s
  {
    assert (b - a) * s >= 0.0;
  }

  /** The defaults for a window and a sampling rate that are not positive. */
  function WindowLength(n: int): (r: nat)
    ensures r > 0
  {
    if n <= 0 then 512 else n
  }

  function Rate(hz: real): (r: real)
    ensures r > 0.0
  {
    if hz <= 0.0 then 100000.0 else hz
  }

  /** `Result` on registers `g` after `count` samples of `n`, but for the target frequency. */
  function ResultOf(m: Libm, g: State, coef: real, count: nat, n: nat): Result
    requires n > 0
  {
    if count < n then INCOMPLETE
    else
      var raw := RawParts(m, g, coef);
      Result(raw.re * Norm(n), raw.im * Norm(n), m.sqrt(NormSq(raw)) * Norm(n), m.atan2(raw.im, raw.re), 0.0, true)
  }

  /** The root of 1 - cos^2 is |sin|. */
  lemma RootOfSine(m: Libm, coef: real, w: Complex)
    requires IsSqrt(m) && Tuned(coef, w)
    ensures m.sqrt(1.0 - 0.25 * coef * coef) == Abs(w.im)
  {
    QuarterSquare(coef, w.re, w.im);
    SqrtOfSquare(m, 1.0 - 0.25 * coef * coef, w.im);
  }

  lemma QuarterSquare(coef: real, c: real, s: real)
    requires coef == 2.0 * c && c * c + s * s == 1.0
    ensures 1.0 - 0.25 * coef * coef == s * s
  {
    assert coef * coef == 4.0 * (c * c);
  }

  /** What the root makes of a turned phasor: a negative sine loses its sign. */
  function Upright(w: Complex, z: Complex): Complex { if w.im >= 0.0 then z else Conj(z) }

  lemma RawIsTurned(m: Libm, g: State, coef: real, w: Complex)
    requires IsSqrt(m) && Tuned(coef, w)
    ensures RawParts(m, g, coef) == Upright(w, Turned(g, w))
  {
    RootOfSine(m, coef, w);
    RawReal(m, g, coef, w);
    SameFactor(m.sqrt(1.0 - 0.25 * coef * coef), Abs(w.im), g.s1);
    AbsTimes(w.im, g.s1);
  }

  lemma AbsTimes(s: real, a: real)
    ensures Abs(s) * a == if s >= 0.0 then s * a else -(s * a)
  {
  }

  lemma RawReal(m: Libm, g: State, coef: real, w: Complex)
    requires coef == 2.0 * w.re
    ensures RawParts(m, g, coef).re == Turned(g, w).re
  {
    HalfCoef(coef, w.re, g.s1);
  }

  lemma SameFactor(a: real, b: real, x: real)
    requires a == b
    ensures a * x == b * x
  {
  }

  lemma HalfCoef(coef: real, c: real, a: real)
    requires coef == 2.0 * c
    ensures 0.5 * coef * a == c * a
  {
  }

  lemma Commute(x: real, y: real)
    ensures x * y == y * x
  {
  }

  /** `Result` after any number of samples from N on is (2/N) times the bin, turned by w^count and
      conjugated where sin w is negative; the angle is that of the same number. */
  lemma ResultIsTurnedBin(m: Libm, xs: seq<real>, coef: real, w: Complex, n: nat)
    requires IsSqrt(m) && Tuned(coef, w) && 0 < n <= |xs|
    ensures var r, z := ResultOf(m, Run(xs, coef), coef, |xs|, n), Upright(w, Mul(Pow(w, |xs|), Dft(xs, w)));
            r.complete && Complex(r.re, r.im) == Scale(Norm(n), z) && r.angle == m.atan2(z.im, z.re)
  {
    RawIsTurned(m, Run(xs, coef), coef, w);
    TurnedIsBin(xs, coef, w);
    var raw := RawParts(m, Run(xs, coef), coef);
    Commute(raw.re, Norm(n));
    Commute(raw.im, Norm(n));
  }

  /** After a whole number of turns it is (2/N) times the bin itself, in both parts, for sin w >= 0. */
  lemma ResultIsBin(m: Libm, xs: seq<real>, coef: real, w: Complex, n: nat)
    requires IsSqrt(m) && Tuned(coef, w) && 0 < n <= |xs| && w.im >= 0.0 && Pow(w, |xs|) == ONE
    ensures var r := ResultOf(m, Run(xs, coef), coef, |xs|, n);
            r.complete && Complex(r.re, r.im) == Scale(Norm(n), Dft(xs, w))
  {
    ResultIsTurnedBin(m, xs, coef, w, n);
    MulOne(Dft(xs, w));
  }

  lemma MulOne(a: Complex)
    ensures Mul(ONE, a) == a
  {
  }

  /** Exactly when the sign comes out right: unless the imaginary part is zero, sin w must not be
      negative, that is, the target must lie in the first half of the bins. */
  lemma ResultIsBinIff(m: Libm, xs: seq<real>, coef: real, w: Complex, n: nat)
    requires IsSqrt(m) && Tuned(coef, w) && 0 < n <= |xs| && Pow(w, |xs|) == ONE
    ensures var r := ResultOf(m, Run(xs, coef), coef, |xs|, n);
            Complex(r.re, r.im) == Scale(Norm(n), Dft(xs, w)) <==> (w.im >= 0.0 || Dft(xs, w).im == 0.0)
  {
    ResultIsTurnedBin(m, xs, coef, w, n);
    MulOne(Dft(xs, w));
    SignMatters(Norm(n), Dft(xs, w).im);
  }

  lemma SignMatters(norm: real, y: real)
    requires norm > 0.0
    ensures norm * y == norm * (-y) <==> y == 0.0
  {
    if norm * y == norm * (-y) {
      assert norm * y == 0.0;
      if y != 0.0 { ZeroProduct(norm, y); }
    }
  }

  /** Such a target: 75 kHz at 100 kHz and N = 4 tunes the detector to bin 3, w = -i. On 0, 1, 0, 0 the
      bin is i, and the reported imaginary part is -1/2 where (2/N) times the bin has +1/2. */
  lemma SecondHalfFlips(m: Libm, turn: Turns, xs: seq<real>, w: Complex)
    requires IsSqrt(m) && turn(3, 4) == Complex(0.0, -1.0)
    requires xs == [0.0] + [1.0] + [0.0] + [0.0] && w == turn(BinIndex(75000.0, 100000.0, 4), 4)
    ensures Unit(w) && Pow(w, |xs|) == ONE && w.re == 0.0
    ensures Scale(Norm(4), Dft(xs, w)) == Complex(0.0, 0.5)
    ensures ResultOf(m, Run(xs, 0.0), 0.0, |xs|, 4).im == -0.5
  {
    ThirdBin();
    FourTurns(w, |xs|);
    ImpulseOnMinusI(w, xs);
    HalfBin(Dft(xs, w));
    MinusIsTuned(w);
    Reported(m, xs, w, Dft(xs, w));
  }

  lemma ThirdBin()
    ensures BinIndex(75000.0, 100000.0, 4) == 3
  {
  }

  lemma MinusIsTuned(w: Complex)
    requires w == Complex(0.0, -1.0)
    ensures Tuned(0.0, w)
  {
  }

  lemma Reported(m: Libm, xs: seq<real>, w: Complex, d: Complex)
    requires IsSqrt(m) && Tuned(0.0, w) && |xs| == 4 && w.im < 0.0 && Pow(w, |xs|) == ONE
    requires d == Dft(xs, w) && Scale(Norm(4), Conj(d)).im == -0.5
    ensures ResultOf(m, Run(xs, 0.0), 0.0, |xs|, 4).im == -0.5
  {
    ResultIsTurnedBin(m, xs, 0.0, w, 4);
    MulOne(d);
  }

  lemma HalfBin(d: Complex)
    requires d == Complex(0.0, 1.0)
    ensures Scale(Norm(4), d) == Complex(0.0, 0.5) && Scale(Norm(4), Conj(d)).im == -0.5
  {
  }

  /** `n` quarter turns backwards. */
  function Quarters(n: nat): Complex {
    if n == 0 then ONE else Complex(Quarters(n - 1).im, -Quarters(n - 1).re)
  }

  lemma {:induction false} PowQuarters(w: Complex, n: nat)
    requires w == Complex(0.0, -1.0)
    ensures Pow(w, n) == Quarters(n)
  {
    if n > 0 {
      PowQuarters(w, n - 1);
      QuarterTurn(w, Pow(w, n - 1));
    }
  }

  lemma QuarterTurn(w: Complex, z: Complex)
    requires w == Complex(0.0, -1.0)
    ensures Mul(w, z) == Complex(z.im, -z.re)
  {
    QuarterParts(z.re, z.im);
  }

  lemma QuarterParts(a: real, b: real)
    ensures 0.0 * a - (-1.0) * b == b && 0.0 * b + (-1.0) * a == -a
  {
  }

  lemma FullTurn()
    ensures Quarters(4) == ONE && Conj(Quarters(1)) == Complex(0.0, 1.0)
  {
  }

  lemma ConjOnce(w: Complex, n: nat)
    requires w == Complex(0.0, -1.0) && n == 1
    ensures Pow(Conj(w), n) == Complex(0.0, 1.0)
  {
    FullTurn();
    PowQuarters(w, n);
    PowConj(w, n);
  }

  lemma FourTurns(w: Complex, n: nat)
    requires w == Complex(0.0, -1.0) && n == 4
    ensures Pow(w, n) == ONE
  {
    FullTurn();
    PowQuarters(w, n);
  }

  lemma ImpulseOnMinusI(w: Complex, xs: seq<real>)
    requires w == Complex(0.0, -1.0) && xs == [0.0] + [1.0] + [0.0] + [0.0]
    ensures Dft(xs, w) == Complex(0.0, 1.0)
  {
    ConjOnce(w, |[0.0]|);
    ImpulseBin(w);
  }

  lemma ImpulseBin(w: Complex)
    requires Pow(Conj(w), |[0.0]|) == Complex(0.0, 1.0)
    ensures Dft([0.0] + [1.0] + [0.0] + [0.0], w) == Complex(0.0, 1.0)
  {
    SampleBin([], 0.0, w, Pow(Conj(w), 0));
    SampleBin([0.0], 1.0, w, Complex(0.0, 1.0));
    SampleBin([0.0] + [1.0], 0.0, w, Pow(Conj(w), 2));
    SampleBin([0.0] + [1.0] + [0.0], 0.0, w, Pow(Conj(w), 3));
    assert [] + [0.0] == [0.0];
  }

  lemma SampleBin(xs: seq<real>, x: real, w: Complex, z: Complex)
    requires z == Pow(Conj(w), |xs|)
    ensures x == 0.0 ==> Dft(xs + [x], w) == Dft(xs, w)
    ensures x == 1.0 ==> Dft(xs + [x], w) == Add(Dft(xs, w), z)
  {
    assert (xs + [x])[..|xs|] == xs;
    UnitScale(x, z);
  }

  lemma UnitScale(x: real, z: Complex)
    ensures x == 0.0 ==> Scale(x, z) == ZERO
    ensures x == 1.0 ==> Scale(x, z) == z
  {
  }

  /** The reported parts square to (2/N)^2 times `MagnitudeSquared`, whatever the sign of sin w and
      however many samples past N; and the reported magnitude is their root. */
  lemma ResultMagnitude(m: Libm, g: State, coef: real, w: Complex, count: nat, n: nat)
    requires IsSqrt(m) && Tuned(coef, w) && 0 < n <= count
    ensures var r := ResultOf(m, g, coef, count, n);
            && r.re * r.re + r.im * r.im == Norm(n) * Norm(n) * MagnitudeSquaredOf(g, coef)
            && r.magnitude >= 0.0 && r.magnitude * r.magnitude == r.re * r.re + r.im * r.im
  {
    var raw := RawParts(m, g, coef);
    RawNorm(m, g, coef, w);
    ScaledNorm(raw.re, raw.im, Norm(n));
    Square(raw.re);
    Square(raw.im);
    ScaledRoot(m.sqrt(NormSq(raw)), NormSq(raw), Norm(n));
  }

  lemma RawNorm(m: Libm, g: State, coef: real, w: Complex)
    requires IsSqrt(m) && Tuned(coef, w)
    ensures NormSq(RawParts(m, g, coef)) == MagnitudeSquaredOf(g, coef)
  {
    RawIsTurned(m, g, coef, w);
    ConjNorm(Turned(g, w));
    TurnedMagnitude(g, coef, w);
  }

  lemma ConjNorm(z: Complex)
    ensures NormSq(Conj(z)) == NormSq(z)
  {
  }

  lemma ScaledNorm(re: real, im: real, norm: real)
    ensures (re * norm) * (re * norm) + (im * norm) * (im * norm) == norm * norm * (re * re + im * im)
  {
    assert (re * norm) * (re * norm) == norm * norm * (re * re);
    assert (im * norm) * (im * norm) == norm * norm * (im * im);
  }

  lemma ScaledRoot(r: real, sq: real, norm: real)
    requires r >= 0.0 && r * r == sq && norm >= 0.0
    ensures r * norm >= 0.0 && (r * norm) * (r * norm) == norm * norm * sq
  {
    assert (r * norm) * (r * norm) == norm * norm * (r * r);
  }

  /** The detector as the object its callers feed. */
  class Goertzel {
    const lib: Libm
    const targetFreq: real
    const sampleRate: real
    const n: nat
    const coef: real
    var count: nat
    var s1: real
    var s2: real
    ghost const w: Complex
    ghost var fed: seq<real>

    ghost predicate Valid()
      reads this
    {
      n > 0 && coef == 2.0 * w.re && count == |fed| && State(s1, s2) == Run(fed, coef)
    }

    /** `NewGoertzel`: tuned to the bin nearest to the target, wherever that lies. */
    constructor (lib: Libm, targetFreqHz: real, sampleRateHz: real, n: int, turn: Turns)
      ensures Valid() && fed == [] && this.lib == lib
      ensures this.n == (if n <= 0 then 512 else n) && sampleRate == (if sampleRateHz <= 0.0 then 100_000.0 else sampleRateHz)
      ensures targetFreq == targetFreqHz
      ensures w == turn(BinIndex(targetFreqHz, sampleRate, this.n), this.n)
    {
      var size, rate := WindowLength(n), Rate(sampleRateHz);
      var z := turn(BinIndex(targetFreqHz, rate, size), size);
      this.lib := lib;
      targetFreq, sampleRate, this.n, coef := targetFreqHz, rate, size, 2.0 * z.re;
      w := z;
      count, s1, s2, fed := 0, 0.0, 0.0, [];
    }

    method Reset()
      requires Valid()
      modifies this
      ensures Valid() && fed == []
    {
      count, s1, s2, fed := 0, 0.0, 0.0, [];
    }

    method AddSample(x: real)
      requires Valid()
      modifies this
      ensures Valid() && fed == old(fed) + [x]
    {
      var y := x + coef * s1 - s2;
      s2 := s1;
      s1 := y;
      count := count + 1;
      fed := fed + [x];
      assert fed[..|fed| - 1] == old(fed);
    }

    method AddBatch(xs: seq<real>)
      requires Valid()
      modifies this
      ensures Valid() && fed == old(fed) + xs
    {
      for i := 0 to |xs|
        invariant Valid() && fed == old(fed) + xs[..i]
      {
        AddSample(xs[i]);
        assert xs[..i] + [xs[i]] == xs[..i + 1];
      }
      assert xs[..|xs|] == xs;
    }

    function MagnitudeSquared(): real
      reads this
    {
      MagnitudeSquaredOf(State(s1, s2), coef)
    }

    /** The squared magnitude read off the object is that of the bin of everything fed to it. */
    lemma MagnitudeSquaredIsBin()
      requires Valid() && Unit(w)
      ensures MagnitudeSquared() == NormSq(Dft(fed, w))
    {
      assert Tuned(coef, w);
      MagnitudeIsBin(fed, coef, w);
    }

    /** What a complete result reports: (2/N) times the bin of everything fed, turned by w^count and conjugated
        where the sine is negative, with that number's angle and magnitude. */
    ghost predicate Reported(r: Result)
      reads this
    {
      var z := Upright(w, Mul(Pow(w, |fed|), Dft(fed, w)));
      && n > 0 && r.complete && Complex(r.re, r.im) == Scale(Norm(n), z) && r.angle == lib.atan2(z.im, z.re)
      && r.magnitude >= 0.0 && r.magnitude * r.magnitude == Norm(n) * Norm(n) * NormSq(Dft(fed, w))
      && r.freqHz == targetFreq
    }

    /** `Result`: incomplete before N samples. */
    method Read() returns (r: Result)
      requires Valid() && IsSqrt(lib) && Unit(w)
      ensures if |fed| >= n then Reported(r) else r == INCOMPLETE
    {
      r := ResultOf(lib, State(s1, s2), coef, count, n);
      if count >= n {
        r := r.(freqHz := targetFreq);
        ResultMagnitude(lib, State(s1, s2), coef, w, count, n);
        MagnitudeIsBin(fed, coef, w);
        ResultIsTurnedBin(lib, fed, coef, w, n);
      }
    }
  }
}
