/** The ring-buffered sliding transform against a dot product over the newest N samples. */
module SlidingDft {
  import opened RingWindow
  import opened PhasorMath
  import opened Models
  import opened Goertzel

  /** The bin index after the constructor's two clamps. */
  function ClampBin(k: int, n: nat): int {
    var k1 := if k < 1 then 1 else k;
    if k1 >= n / 2 then n / 2 - 1 else k1
  }

  /** The clamp leaves the interior bins alone, and from four samples up it always lands on one. */
  lemma ClampInterior(k: int, n: nat)
    ensures 1 <= k <= n / 2 - 1 ==> ClampBin(k, n) == k
    ensures n >= 4 ==> 1 <= ClampBin(k, n) <= n / 2 - 1 && (k < 1 ==> ClampBin(k, n) == 1)
    ensures n < 4 || k >= n / 2 ==> ClampBin(k, n) == n / 2 - 1
  {
  }

  /** The sum of x_i * t_i. */
  function Dot(xs: seq<real>, ts: seq<real>): real
    requires |xs| <= |ts|
  {
    if xs == [] then 0.0
    else
      var n := |xs| - 1;
      Dot(xs[..n], ts) + xs[n] * ts[n]
  }

  function Sum(ts: seq<real>): real {
    if ts == [] then 0.0 else Sum(ts[..|ts| - 1]) + ts[|ts| - 1]
  }

  /** The weighted tables: w_n cos(n angle) and w_n sin(n angle). */
  function Weighted(weights: seq<real>, w: Complex): (t: seq<Complex>)
    ensures |t| == |weights|
  {
    seq(|weights|, n requires 0 <= n < |weights| => Scale(weights[n], Pow(w, n)))
  }

  function Rotations(w: Complex, n: nat): (t: seq<Complex>)
    ensures |t| == n
  {
    seq(n, i requires 0 <= i < n => Pow(w, i))
  }

  function Parts(cs: seq<Complex>, imaginary: bool): (rs: seq<real>)
    ensures |rs| == |cs|
  {
    seq(|cs|, n requires 0 <= n < |cs| => if imaginary then cs[n].im else cs[n].re)
  }

  /** The windowed bin of the newest N samples, scaled by the coherent gain. */
  function WindowedBin(window: seq<real>, weights: seq<real>, w: Complex): Complex
    requires |window| == |weights| && Sum(weights) != 0.0
  {
    var t := Weighted(weights, w);
    Gained(Dot(window, Parts(t, false)), Dot(window, Parts(t, true)), CoherentGain(weights))
  }

  function CoherentGain(weights: seq<real>): real
    requires Sum(weights) != 0.0
  {
    2.0 / Sum(weights)
  }

  function Gained(re: real, im: real, gain: real): Complex { Complex(re * gain, (-im) * gain) }

  // ---- what the tables compute ----------------------------------------------------------------------

  /** The samples times the weights. */
  function Tapered(xs: seq<real>, weights: seq<real>): (r: seq<real>)
    requires |xs| == |weights|
    ensures |r| == |xs| && forall i :: 0 <= i < |xs| ==> r[i] == xs[i] * weights[i]
  {
    seq(|xs|, i requires 0 <= i < |xs| => xs[i] * weights[i])
  }

  lemma {:induction false} DotIsRe(xs: seq<real>, ts: seq<real>, w: Complex)
    requires |xs| <= |ts| && forall i :: 0 <= i < |xs| ==> ts[i] == Pow(w, i).re
    ensures Dot(xs, ts) == Dft(xs, w).re
  {
    if xs != [] {
      var k := |xs| - 1;
      DotIsRe(xs[..k], ts, w);
      var share := xs[k] * ts[k];
      DotShare(xs, ts, share);
      ShareRe(xs[k], w, k, ts[k], share);
    }
  }

  lemma {:induction false} DotIsIm(xs: seq<real>, ts: seq<real>, w: Complex)
    requires |xs| <= |ts| && forall i :: 0 <= i < |xs| ==> ts[i] == Pow(w, i).im
    ensures -Dot(xs, ts) == Dft(xs, w).im
  {
    if xs != [] {
      var k := |xs| - 1;
      DotIsIm(xs[..k], ts, w);
      var share := xs[k] * ts[k];
      DotShare(xs, ts, share);
      ShareIm(xs[k], w, k, ts[k], share);
    }
  }

  predicate Product(z: real, x: real, y: real) { z == x * y }

  /** A weight can be taken from the table to the sample. */
  lemma {:induction false} DotMoves(xs: seq<real>, weights: seq<real>, cs: seq<real>, ts: seq<real>, ys: seq<real>)
    requires |xs| == |ys| <= |weights| == |cs| == |ts|
    requires forall i :: 0 <= i < |xs| ==> Product(ts[i], weights[i], cs[i]) && Product(ys[i], xs[i], weights[i])
    ensures Dot(xs, ts) == Dot(ys, cs)
  {
    if xs != [] {
      var k := |xs| - 1;
      DotMoves(xs[..k], weights, cs, ts, ys[..k]);
      Regroup(xs[k], weights[k], cs[k], ts[k], ys[k]);
    }
  }

  lemma Regroup(x: real, weight: real, c: real, t: real, y: real)
    requires Product(t, weight, c) && Product(y, x, weight)
    ensures x * t == y * c
  {
  }

  /** Entry by entry the weighted tables are the weights times the plain ones. */
  lemma WeightedAt(weights: seq<real>, w: Complex, imaginary: bool, i: nat)
    requires i < |weights|
    ensures Product(Parts(Weighted(weights, w), imaginary)[i], weights[i], Parts(Rotations(w, |weights|), imaginary)[i])
  {
    PartOfScaled(weights[i], Rotations(w, |weights|)[i], imaginary);
  }

  lemma PartOfScaled(x: real, z: Complex, imaginary: bool)
    ensures if imaginary then Product(Scale(x, z).im, x, z.im) else Product(Scale(x, z).re, x, z.re)
  {
  }

  lemma TableMoves(window: seq<real>, weights: seq<real>, w: Complex, tapered: seq<real>, imaginary: bool)
    requires |window| == |weights| == |tapered|
    requires forall i :: 0 <= i < |window| ==> Product(tapered[i], window[i], weights[i])
    ensures Dot(window, Parts(Weighted(weights, w), imaginary)) == Dot(tapered, Parts(Rotations(w, |weights|), imaginary))
  {
    var ts, cs := Parts(Weighted(weights, w), imaginary), Parts(Rotations(w, |weights|), imaginary);
    forall i | 0 <= i < |window| ensures Product(ts[i], weights[i], cs[i]) { WeightedAt(weights, w, imaginary, i); }
    DotMoves(window, weights, cs, ts, tapered);
  }

  /** With weights that do not sum to zero the output is 2 / sum of the weights times the bin of the samples, each
      times its weight. */
  lemma WindowedBinIs(window: seq<real>, weights: seq<real>, w: Complex, tapered: seq<real>)
    requires |window| == |weights| == |tapered| && Sum(weights) != 0.0
    requires forall i :: 0 <= i < |window| ==> tapered[i] == window[i] * weights[i]
    ensures WindowedBin(window, weights, w) == Scale(2.0 / Sum(weights), Dft(tapered, w))
  {
    TablesGiveBin(window, weights, w, tapered);
    var t := Weighted(weights, w);
    GainParts(Dot(window, Parts(t, false)), Dot(window, Parts(t, true)), CoherentGain(weights), Dft(tapered, w));
  }

  lemma TablesGiveBin(window: seq<real>, weights: seq<real>, w: Complex, tapered: seq<real>)
    requires |window| == |weights| == |tapered|
    requires forall i :: 0 <= i < |window| ==> Product(tapered[i], window[i], weights[i])
    ensures Dft(tapered, w) ==
            Complex(Dot(window, Parts(Weighted(weights, w), false)), -Dot(window, Parts(Weighted(weights, w), true)))
  {
    TableMoves(window, weights, w, tapered, false);
    TableMoves(window, weights, w, tapered, true);
    DotIsRe(tapered, Parts(Rotations(w, |weights|), false), w);
    DotIsIm(tapered, Parts(Rotations(w, |weights|), true), w);
  }

  lemma DotShare(xs: seq<real>, ts: seq<real>, share: real)
    requires 0 < |xs| <= |ts| && share == xs[|xs| - 1] * ts[|xs| - 1]
    ensures Dot(xs, ts) == Dot(xs[..|xs| - 1], ts) + share
  {
  }

  /** The share of one sample in each part. */
  lemma ShareRe(x: real, w: Complex, k: nat, y: real, share: real)
    requires y == Pow(w, k).re && share == x * y
    ensures Scale(x, Pow(Conj(w), k)).re == share
  {
    PowConj(w, k);
    ConjShare(x, Pow(Conj(w), k), y, Pow(w, k).im);
  }

  lemma ShareIm(x: real, w: Complex, k: nat, y: real, share: real)
    requires y == Pow(w, k).im && share == x * y
    ensures Scale(x, Pow(Conj(w), k)).im == -share
  {
    PowConj(w, k);
    ConjShare(x, Pow(Conj(w), k), Pow(w, k).re, y);
  }

  lemma ConjShare(x: real, q: Complex, re: real, im: real)
    requires q.im == -im
    ensures Scale(x, q).im == -(x * im)
    ensures q.re == re ==> Scale(x, q).re == x * re
  {
    TimesNeg(x, q.im, im);
  }

  lemma TimesNeg(x: real, z: real, y: real)
    requires z == -y
    ensures x * z == -(x * y)
  {
  }

  // ---- the rectangular window ---------------------------------------------------------------------

  function Ones(n: nat): (r: seq<real>)
    ensures |r| == n
  {
    seq(n, _ => 1.0)
  }

  lemma {:induction false} SumOnes(n: nat)
    ensures Sum(Ones(n)) == n as real
  {
    if n > 0 {
      assert Ones(n)[..n - 1] == Ones(n - 1);
      SumOnes(n - 1);
    }
  }

  /** With the rectangular window the output is (2/N) times the bin of the newest N samples. */
  lemma RectangularIsBin(window: seq<real>, w: Complex)
    requires |window| > 0
    ensures Sum(Ones(|window|)) != 0.0
    ensures WindowedBin(window, Ones(|window|), w) == Scale(Norm(|window|), Dft(window, w))
  {
    SumOnes(|window|);
    WindowedBinIs(window, Ones(|window|), w, window);
  }

  lemma GainParts(re: real, im: real, gain: real, d: Complex)
    requires d == Complex(re, -im)
    ensures Gained(re, im, gain) == Scale(gain, d)
  {
    Commute(d.re, gain);
    Commute(d.im, gain);
  }

  /** The two algorithms agree: once the ring has filled, the rectangular sliding transform gives the
      very number a reset Goertzel detector gives for the newest N samples, whenever the common bin
      is one the clamp leaves alone. */
  lemma TwoAlgorithmsAgree(m: Libm, hist: seq<real>, n: nat, turn: Turns, k: int)
    requires IsSqrt(m) && AreTurns(turn) && 1 <= k <= n / 2 - 1 && |hist| >= n
    ensures Sum(Ones(n)) != 0.0
    ensures var coef := 2.0 * turn(k, n).re;
            var g := ResultOf(m, Run(Newest(hist, n), coef), coef, n, n);
            g.complete && WindowedBin(Newest(hist, n), Ones(n), turn(ClampBin(k, n), n)) == Complex(g.re, g.im)
  {
    ClampInterior(k, n);
    assert IsTurn(turn, k, n);
    RectangularIsBin(Newest(hist, n), turn(k, n));
    ResultIsBin(m, Newest(hist, n), 2.0 * turn(k, n).re, turn(k, n), n);
  }

  // ---- the object ------------------------------------------------------------------------------------

  datatype WindowType = Rectangular | Hann | Hamming | Blackman

  /** Weight `i` of `n`; the raised cosines run over a full turn from the first sample to the last. */
  function Weight(turn: Turns, wt: WindowType, i: nat, n: nat): real
    requires i < n
  {
    match wt
    case Rectangular => 1.0
    case Hann => 0.5 * (1.0 - turn(i, n - 1).re)
    case Hamming => 0.54 - 0.46 * turn(i, n - 1).re
    case Blackman => 0.42 - 0.5 * turn(i, n - 1).re + 0.08 * turn(2 * i, n - 1).re
  }

  function WeightsOf(turn: Turns, wt: WindowType, n: nat): (r: seq<real>)
    ensures |r| == n
  {
    seq(n, i requires 0 <= i < n => Weight(turn, wt, i, n))
  }

  method BuildWindow(out: array<real>, turn: Turns, wt: WindowType)
    modifies out
    ensures out[..] == WeightsOf(turn, wt, out.Length)
    ensures forall i :: 0 <= i < out.Length ==> var c := turn(i, out.Length - 1).re;
              && (wt.Rectangular? ==> out[i] == 1.0) && (wt.Hann? ==> 2.0 * out[i] == 1.0 - c)
              && (wt.Hamming? ==> 50.0 * out[i] == 27.0 - 23.0 * c)
              && (wt.Blackman? ==> 50.0 * out[i] == 21.0 - 25.0 * c + 4.0 * turn(2 * i, out.Length - 1).re)
  {
    for i := 0 to out.Length
      invariant forall j :: 0 <= j < i ==> out[j] == WeightsOf(turn, wt, out.Length)[j]
    {
      out[i] := Weight(turn, wt, i, out.Length);
    }
    assert forall i :: 0 <= i < out.Length ==> out[i] == out[..][i];
  }

  // ---- the weights of the Hann window ----------------------------------------------------------------

  /** 1 + w + ... + w^(n-1). */
  function Geometric(w: Complex, n: nat): Complex {
    if n == 0 then ZERO else Add(Geometric(w, n - 1), Pow(w, n - 1))
  }

  lemma {:induction false} GeometricTurns(w: Complex, n: nat)
    ensures Add(ONE, Mul(w, Geometric(w, n))) == Add(Geometric(w, n), Pow(w, n))
  {
    if n > 0 {
      GeometricTurns(w, n - 1);
      MulAdd(w, Geometric(w, n - 1), Pow(w, n - 1));
    }
  }

  lemma NoZeroDivisors(a: Complex, b: Complex)
    requires Mul(a, b) == ZERO && a != ZERO
    ensures b == ZERO
  {
    NormSqMul(a, b);
    PositiveNorm(a);
    ZeroProduct(NormSq(b), NormSq(a));
    if b != ZERO { PositiveNorm(b); }
  }

  lemma PositiveNorm(a: Complex)
    requires a != ZERO
    ensures NormSq(a) > 0.0
  {
    PositiveSum(a.re, a.im, a.re * a.re, a.im * a.im);
  }

  /** A full set of roots of unity sums to zero. */
  lemma RootsSumToZero(w: Complex, n: nat)
    requires Pow(w, n) == ONE && w != ONE
    ensures Geometric(w, n) == ZERO
  {
    var g := Geometric(w, n);
    GeometricTurns(w, n);
    Telescope(w, g);
    NoZeroDivisors(Complex(w.re - 1.0, w.im), g);
  }

  lemma Telescope(w: Complex, g: Complex)
    requires Mul(w, g) == g
    ensures Mul(Complex(w.re - 1.0, w.im), g) == ZERO
  {
  }

  lemma HannTable(turn: Turns, n: nat)
    requires AreTurns(turn) && n >= 2
    ensures forall i :: 0 <= i < n ==> WeightsOf(turn, Hann, n)[i] == Raised(Pow(turn(1, n - 1), i))
  {
    forall i | 0 <= i < n ensures WeightsOf(turn, Hann, n)[i] == Raised(Pow(turn(1, n - 1), i)) {
      HannTerm(turn, n, i);
    }
  }

  function Raised(z: Complex): real { 0.5 * (1.0 - z.re) }

  lemma HannTerm(turn: Turns, n: nat, i: nat)
    requires AreTurns(turn) && i < n && n >= 2
    ensures Weight(turn, Hann, i, n) == Raised(Pow(turn(1, n - 1), i))
  {
    assert IsTurn(turn, i, n - 1);
  }

  lemma FirstTurn(turn: Turns, n: nat)
    requires AreTurns(turn) && n > 0
    ensures Pow(turn(1, n), n) == ONE && (n >= 2 ==> turn(1, n) != ONE)
  {
    assert IsTurn(turn, 1, n);
  }

  lemma {:induction false} RaisedSum(ws: seq<real>, w: Complex)
    requires forall i :: 0 <= i < |ws| ==> ws[i] == Raised(Pow(w, i))
    ensures Sum(ws) == 0.5 * (|ws| as real - Geometric(w, |ws|).re)
  {
    if ws != [] {
      var n := |ws| - 1;
      RaisedSum(ws[..n], w);
      GeometricNext(w, n);
    }
  }

  lemma GeometricNext(w: Complex, n: nat)
    ensures Geometric(w, n + 1) == Add(Geometric(w, n), Pow(w, n))
  {
  }

  /** The weights of a Hann window of two samples sum to zero, and those of a longer one to (N - 1) / 2. */
  lemma HannSum(turn: Turns, n: nat)
    requires AreTurns(turn) && n >= 2
    ensures Sum(WeightsOf(turn, Hann, n)) == if n == 2 then 0.0 else (n - 1) as real / 2.0
  {
    var w, ws := turn(1, n - 1), WeightsOf(turn, Hann, n);
    HannTable(turn, n);
    RaisedSum(ws, w);
    FirstTurn(turn, n - 1);
    RootsAndOne(w, n - 1);
  }

  lemma RootsAndOne(w: Complex, d: nat)
    requires d > 0 && Pow(w, d) == ONE && (d >= 2 ==> w != ONE)
    ensures Geometric(w, d + 1).re == if d == 1 then 2.0 else 1.0
  {
    GeometricNext(w, d);
    if d == 1 { GeometricNext(w, d - 1); } else { RootsSumToZero(w, d); }
  }

  lemma TurnIs(turn: Turns, k: nat, d: nat)
    requires AreTurns(turn) && d > 0
    ensures turn(k, d) == Pow(turn(1, d), k) && Unit(turn(k, d))
  {
    assert IsTurn(turn, k, d);
  }

  lemma {:induction false} PowAround(w: Complex, d: nat, m: nat)
    requires Pow(w, d) == ONE
    ensures Pow(w, m + d) == Pow(w, m)
  {
    if m > 0 { PowAround(w, d, m - 1); }
  }

  /** No turn, and one and two whole turns. */
  lemma WholeTurns(turn: Turns, d: nat)
    requires AreTurns(turn) && d > 0
    ensures turn(0, d) == turn(d, d) == turn(2 * d, d) == ONE
  {
    FirstTurn(turn, d);
    TurnIs(turn, 0, d);
    TurnIs(turn, d, d);
    TurnIs(turn, d + d, d);
    PowAround(turn(1, d), d, d);
  }

  /** A Hann weight is a quarter of the squared chord from one to its turn. */
  lemma HannIsChord(turn: Turns, i: nat, n: nat)
    requires AreTurns(turn) && i < n && n >= 2
    ensures 4.0 * Weight(turn, Hann, i, n) == NormSq(Complex(1.0 - turn(i, n - 1).re, turn(i, n - 1).im))
  {
    UnitTurn(turn, i, n - 1);
    Chord(turn(i, n - 1), 1.0 - turn(i, n - 1).re);
  }

  lemma UnitTurn(turn: Turns, k: nat, d: nat)
    requires AreTurns(turn) && d > 0
    ensures Unit(turn(k, d))
  {
    TurnIs(turn, k, d);
  }

  /** At both ends the weights of the three raised cosines are 0, 0.08 and 0. */
  lemma WindowEnds(turn: Turns, i: nat, n: nat)
    requires AreTurns(turn) && n >= 2 && (i == 0 || i == n - 1)
    ensures Weight(turn, Hann, i, n) == Weight(turn, Blackman, i, n) == 0.0 && Weight(turn, Hamming, i, n) == 0.08
  {
    WholeTurns(turn, n - 1);
  }

  lemma Chord(z: Complex, x: real)
    requires Unit(z) && x == 1.0 - z.re
    ensures NormSq(Complex(x, z.im)) == 2.0 * x
  {
  }

  lemma DotSnoc(xs: seq<real>, i: nat, ts: seq<real>)
    requires i < |xs| <= |ts|
    ensures Dot(xs[..i + 1], ts) == Dot(xs[..i], ts) + xs[i] * ts[i]
  {
    assert xs[..i + 1][..i] == xs[..i];
  }

  lemma SumSnoc(ts: seq<real>, i: nat)
    requires i < |ts|
    ensures Sum(ts[..i + 1]) == Sum(ts[..i]) + ts[i]
  {
    assert ts[..i + 1][..i] == ts[..i];
  }

  /** The constructor's loop over the tables. */
  method FillTables(coeff: array<real>, w: Complex)
    returns (cs: array<real>, sn: array<real>, wc: array<real>, ws: array<real>, winSum: real)
    ensures fresh(cs) && fresh(sn) && fresh(wc) && fresh(ws)
    ensures cs[..] == Parts(Rotations(w, coeff.Length), false) && sn[..] == Parts(Rotations(w, coeff.Length), true)
    ensures wc[..] == Parts(Weighted(coeff[..], w), false) && ws[..] == Parts(Weighted(coeff[..], w), true)
    ensures winSum == Sum(coeff[..])
  {
    var n := coeff.Length;
    cs, sn, wc, ws := new real[n], new real[n], new real[n], new real[n];
    winSum := 0.0;
    ghost var ts := coeff[..];
    ghost var rotations, table := Rotations(w, n), Weighted(ts, w);
    for i := 0 to n
      invariant winSum == Sum(ts[..i])
      invariant Filled(cs[..], sn[..], rotations, i)
      invariant Filled(wc[..], ws[..], table, i)
    {
      var p := Pow(w, i);
      cs[i] := p.re;
      sn[i] := p.im;
      var weighted := Scale(coeff[i], p);
      wc[i] := weighted.re;
      ws[i] := weighted.im;
      SumSnoc(ts, i);
      winSum := winSum + coeff[i];
    }
    assert ts[..n] == ts;
    FilledAll(cs[..], sn[..], rotations);
    FilledAll(wc[..], ws[..], table);
  }

  /** The first `n` rotations stand in the two tables. */
  ghost predicate Filled(re: seq<real>, im: seq<real>, table: seq<Complex>, n: nat) {
    && |re| == |im| == |table| && n <= |table|
    && forall j :: 0 <= j < n ==> re[j] == table[j].re && im[j] == table[j].im
  }

  lemma FilledAll(re: seq<real>, im: seq<real>, table: seq<Complex>)
    requires Filled(re, im, table, |table|)
    ensures re == Parts(table, false) && im == Parts(table, true)
  {
  }

  /** The loop of `Update`: the ring, read from the head round, against the tables. */
  method Correlate(buf: array<real>, head: nat, wc: array<real>, ws: array<real>, ghost hist: seq<real>)
    returns (re: real, im: real)
    requires Holds(buf[..], head, true, hist) && wc.Length == ws.Length == buf.Length
    ensures |hist| >= buf.Length
    ensures re == Dot(Newest(hist, buf.Length), wc[..]) && im == -Dot(Newest(hist, buf.Length), ws[..])
  {
    var n := buf.Length;
    ghost var win := Newest(hist, n);
    re, im := 0.0, 0.0;
    for i := 0 to n
      invariant re == Dot(win[..i], wc[..]) && im == -Dot(win[..i], ws[..])
    {
      View(buf[..], head, true, hist, n, i);
      var x := buf[(head + i) % n];
      DotSnoc(win, i, wc[..]);
      DotSnoc(win, i, ws[..]);
      re := re + x * wc[i];
      im := im - x * ws[i];
    }
    assert win[..n] == win;
  }

  function BinFrequency(k: int, rate: real, n: nat): real
    requires n > 0
  {
    k as real * rate / n as real
  }

  function Target(hz: real): real { if hz <= 0.0 then 40000.0 else hz }

  datatype PhasorResult = PhasorResult(re: real, im: real, magnitude: real, angle: real, freqHz: real,
                                       timeNs: nat, ready: bool, windowSample: nat)

  function AsPhasor(lib: Libm, z: Complex, freqHz: real): Phasor {
    Phasor(z.re, z.im, lib.sqrt(NormSq(z)), lib.atan2(z.im, z.re), freqHz)
  }

  /** The bin of the window, each sample times its weight, scaled by 2 over the sum of the weights. */
  ghost predicate BinOf(z: Complex, window: seq<real>, weights: seq<real>, w: Complex)
    requires Sum(weights) != 0.0
  {
    forall ys: seq<real> :: IsTapered(ys, window, weights) ==> z == Scale(2.0 / Sum(weights), Dft(ys, w))
  }

  ghost predicate IsTapered(ys: seq<real>, window: seq<real>, weights: seq<real>) {
    |ys| == |window| == |weights| && forall i :: 0 <= i < |ys| ==> ys[i] == window[i] * weights[i]
  }

  lemma WindowedBinOf(window: seq<real>, weights: seq<real>, w: Complex)
    requires |window| == |weights| && Sum(weights) != 0.0
    ensures BinOf(WindowedBin(window, weights, w), window, weights, w)
  {
    forall ys | IsTapered(ys, window, weights) ensures WindowedBin(window, weights, w) == Scale(2.0 / Sum(weights), Dft(ys, w)) {
      WindowedBinIs(window, weights, w, ys);
    }
  }

  lemma HannGain(sum: real, d: real)
    requires d > 0.0 && sum == d / 2.0
    ensures sum != 0.0 && 2.0 / sum == 4.0 / d
  {
    assert (4.0 / d) * sum == 2.0;
  }

  class SlidingDft {
    const lib: Libm
    const windowSize: nat
    const sampleRateHz: real
    const k: int
    const cosTable: array<real>
    const sinTable: array<real>
    const windowCoeff: array<real>
    const weightedCos: array<real>
    const weightedSin: array<real>
    const coherentGain: real
    const sampleBuf: array<real>
    var bufHead: nat
    var filled: bool
    var sampleCount: nat
    ghost const w: Complex
    ghost const weights: seq<real>
    ghost var hist: seq<real>

    ghost predicate TablesOk()
      reads weightedCos, weightedSin
    {
      && |weights| == windowSize && (Sum(weights) != 0.0 ==> coherentGain == CoherentGain(weights))
      && weightedCos[..] == Parts(Weighted(weights, w), false)
      && weightedSin[..] == Parts(Weighted(weights, w), true)
    }

    ghost predicate Valid()
      reads this, sampleBuf, weightedCos, weightedSin
    {
      && windowSize > 0 && sampleBuf.Length == windowSize && TablesOk()
      && sampleBuf != weightedCos && sampleBuf != weightedSin
      && Holds(sampleBuf[..], bufHead, filled, hist)
      && sampleCount == |hist|
    }

    /** `NewSlidingDFT`: the three defaults, the nearest bin, clamped, and the tables. */
    constructor (lib: Libm, size: int, targetFreqHz: real, sampleRateHz: real, turn: Turns, wt: WindowType)
      ensures Valid() && hist == [] && fresh(sampleBuf) && fresh(weightedCos) && fresh(weightedSin)
      ensures this.lib == lib && windowSize == (if size <= 0 then 512 else size)
      ensures this.sampleRateHz == (if sampleRateHz <= 0.0 then 100_000.0 else sampleRateHz) > 0.0
      ensures var hz := if targetFreqHz <= 0.0 then 40_000.0 else targetFreqHz;
              k == ClampBin(BinIndex(hz, this.sampleRateHz, windowSize), windowSize)
      ensures w == turn(k, windowSize) && weights == WeightsOf(turn, wt, windowSize)
      ensures cosTable[..] == Parts(Rotations(w, windowSize), false) && sinTable[..] == Parts(Rotations(w, windowSize), true)
    {
      var n, rate := WindowLength(size), Rate(sampleRateHz);
      var kc := ClampBin(BinIndex(Target(targetFreqHz), rate, n), n);
      var coeff := new real[n];
      BuildWindow(coeff, turn, wt);
      var cs, sn, wc, ws, winSum := FillTables(coeff, turn(kc, n));
      ghost var ts := coeff[..];
      this.lib := lib;
      windowSize := n;
      this.sampleRateHz := rate;
      k := kc;
      cosTable, sinTable, windowCoeff, weightedCos, weightedSin := cs, sn, coeff, wc, ws;
      coherentGain := if winSum == 0.0 then 0.0 else 2.0 / winSum;
      sampleBuf := new real[n](_ => 0.0);
      bufHead, filled, sampleCount := 0, false, 0;
      w := turn(kc, n);
      weights := ts;
      hist := [];
      new;
      Empty(sampleBuf[..]);
    }

    method Reset()
      requires Valid()
      modifies this, sampleBuf
      ensures Valid() && hist == []
    {
      for i := 0 to sampleBuf.Length
        invariant TablesOk()
      {
        sampleBuf[i] := 0.0;
      }
      bufHead, filled, sampleCount, hist := 0, false, 0, [];
      Empty(sampleBuf[..]);
    }

    /** `Update` up to the readiness test: the sample goes into the ring. */
    method Store(sample: real)
      requires Valid()
      modifies this, sampleBuf
      ensures Valid() && hist == old(hist) + [sample]
    {
      Push(sampleBuf[..], bufHead, filled, hist, sample);
      sampleBuf[bufHead] := sample;
      bufHead := (bufHead + 1) % windowSize;
      filled := filled || bufHead == 0;
      sampleCount := sampleCount + 1;
      hist := hist + [sample];
    }

    /** The phasor of the newest N samples, whatever frequency is written into it: their bin, each sample times its
        weight, at twice the mean weighted sample; its magnitude and its angle. */
    ghost predicate Shows(p: Phasor, freqHz: real)
      reads this
    {
      && windowSize == |weights| <= |hist| && p.freqHz == freqHz
      && (Sum(weights) != 0.0 ==>
            && BinOf(Complex(p.re, p.im), Newest(hist, windowSize), weights, w)
            && p.magnitude == lib.sqrt(NormSq(Complex(p.re, p.im))) && p.angle == lib.atan2(p.im, p.re))
    }

    /** With a Hann window of three samples or more nothing is left open. */
    lemma HannShows(turn: Turns, p: Phasor, freqHz: real)
      requires AreTurns(turn) && windowSize >= 3 && weights == WeightsOf(turn, Hann, windowSize) && Shows(p, freqHz)
      ensures Complex(p.re, p.im) == Scale(4.0 / (windowSize - 1) as real, Dft(Tapered(Newest(hist, windowSize), weights), w))
      ensures p.magnitude == lib.sqrt(NormSq(Complex(p.re, p.im))) && p.angle == lib.atan2(p.im, p.re)
    {
      assert IsTapered(Tapered(Newest(hist, windowSize), weights), Newest(hist, windowSize), weights);
      HannSum(turn, windowSize);
      HannGain(Sum(weights), (windowSize - 1) as real);
    }

    /** What a ready result reports: the bin, unless the weights sum to zero, and the place in the window. */
    ghost predicate Measured(r: PhasorResult)
      reads this
    {
      && windowSize > 0 && r.ready
      && r.windowSample == |hist| % windowSize && r.freqHz == k as real * sampleRateHz / windowSize as real
      && Shows(Phasor(r.re, r.im, r.magnitude, r.angle, r.freqHz), r.freqHz)
    }

    /** Ready from the N-th sample on, and then the windowed bin of the newest N samples. */
    method Update(sample: real, timeNs: nat) returns (r: PhasorResult)
      requires Valid()
      modifies this, sampleBuf
      ensures Valid() && hist == old(hist) + [sample] && r.timeNs == timeNs
      ensures if |hist| >= windowSize then Measured(r)
              else r == PhasorResult(0.0, 0.0, 0.0, 0.0, 0.0, timeNs, false, |hist| % windowSize)
    {
      Store(sample);
      if filled {
        r := Measure(timeNs);
      } else {
        r := PhasorResult(0.0, 0.0, 0.0, 0.0, 0.0, timeNs, false, sampleCount % windowSize);
      }
    }

    method Measure(timeNs: nat) returns (r: PhasorResult)
      requires Valid() && filled
      ensures Measured(r) && r.timeNs == timeNs
    {
      var z := Bin();
      var p := AsPhasor(lib, z, BinFrequency(k, sampleRateHz, windowSize));
      ShowsBin(z, p);
      r := PhasorResult(p.re, p.im, p.magnitude, p.angle, p.freqHz, timeNs, true, sampleCount % windowSize);
    }

    /** The two sums over the ring, scaled. */
    method Bin() returns (z: Complex)
      requires Valid() && filled
      ensures |hist| >= windowSize == |weights|
      ensures Sum(weights) != 0.0 ==> z == WindowedBin(Newest(hist, windowSize), weights, w)
    {
      var re, im := Correlate(sampleBuf, bufHead, weightedCos, weightedSin, hist);
      z := Gained(re, -im, coherentGain);
    }

    lemma ShowsBin(z: Complex, p: Phasor)
      requires windowSize == |weights| <= |hist| && p == AsPhasor(lib, z, p.freqHz)
      requires Sum(weights) != 0.0 ==> z == WindowedBin(Newest(hist, windowSize), weights, w)
      ensures Shows(p, p.freqHz)
    {
      if Sum(weights) != 0.0 { WindowedBinOf(Newest(hist, windowSize), weights, w); }
    }
  }

  lemma RectangularWeights(turn: Turns, n: nat)
    ensures WeightsOf(turn, Rectangular, n) == Ones(n)
  {
  }

  /** The same on the objects: for a target in the interior bins, a rectangular sliding transform and a reset detector
      fed its newest N samples report the same two parts. */
  lemma ObjectsAgree(s: SlidingDft, g: Goertzel, turn: Turns, hz: real, r: PhasorResult, res: Result)
    requires AreTurns(turn) && hz > 0.0 && s.sampleRateHz > 0.0 && s.windowSize > 0
    requires g.n == s.windowSize && g.sampleRate == s.sampleRateHz
    requires s.k == ClampBin(BinIndex(hz, s.sampleRateHz, s.windowSize), s.windowSize) && s.w == turn(s.k, s.windowSize)
    requires s.weights == WeightsOf(turn, Rectangular, s.windowSize)
    requires g.w == turn(BinIndex(hz, g.sampleRate, g.n), g.n)
    requires 1 <= BinIndex(hz, s.sampleRateHz, s.windowSize) <= s.windowSize / 2 - 1
    requires s.Measured(r) && g.fed == Newest(s.hist, s.windowSize) && g.Reported(res)
    ensures r.re == res.re && r.im == res.im
  {
    var n, k := s.windowSize, BinIndex(hz, s.sampleRateHz, s.windowSize);
    ClampInterior(k, n);
    assert IsTurn(turn, k, n);
    RectangularWeights(turn, n);
    SumOnes(n);
    RectangularBinOf(Complex(r.re, r.im), g.fed, s.w);
    ReportedBin(g, res);
  }

  lemma RectangularBinOf(z: Complex, window: seq<real>, w: Complex)
    requires |window| > 0 && Sum(Ones(|window|)) != 0.0 && BinOf(z, window, Ones(|window|), w)
    ensures z == Scale(Norm(|window|), Dft(window, w))
  {
    assert IsTapered(window, window, Ones(|window|));
    SumOnes(|window|);
  }

  lemma ReportedBin(g: Goertzel, r: Result)
    requires g.Reported(r) && Pow(g.w, |g.fed|) == ONE && g.w.im >= 0.0
    ensures Complex(r.re, r.im) == Scale(Norm(g.n), Dft(g.fed, g.w))
  {
    MulOne(Dft(g.fed, g.w));
  }
}
