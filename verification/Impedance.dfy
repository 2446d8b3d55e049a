/** The impedance stream as functions of the quotients V / I: smoothing, the points that are large
    enough to use, and the baseline they settle on. */
module Impedance {
  import opened PhasorMath
  import opened Models

  /** V conj(I) / |I|^2. */
  function Quotient(v: Phasor, i: Phasor): Complex
    requires CurrentSq(i) != 0.0
  {
    var inv := 1.0 / CurrentSq(i);
    Complex(InPhase(v, i) * inv, Quadrature(v, i) * inv)
  }

  /** The quotient is the impedance: times the current it gives the voltage back. */
  lemma OhmsLaw(v: Phasor, i: Phasor)
    requires CurrentSq(i) != 0.0
    ensures Mul(Quotient(v, i), AsComplex(i)) == AsComplex(v)
  {
    Ohm(v.re, v.im, i.re, i.im, CurrentSq(i), 1.0 / CurrentSq(i));
  }

  lemma Ohm(a: real, b: real, c: real, d: real, n: real, inv: real)
    requires n == c * c + d * d && inv * n == 1.0
    ensures ((a * c + b * d) * inv) * c - ((b * c - a * d) * inv) * d == a
    ensures ((a * c + b * d) * inv) * d + ((b * c - a * d) * inv) * c == b
  {
    assert (a * c + b * d) * c - (b * c - a * d) * d == a * n;
    assert (a * c + b * d) * d + (b * c - a * d) * c == b * n;
    Regroup(a * c + b * d, b * c - a * d, c, d, inv);
    Cancel(a, n, inv);
    Cancel(b, n, inv);
  }

  lemma Regroup(p: real, q: real, c: real, d: real, inv: real)
    ensures (p * inv) * c - (q * inv) * d == (p * c - q * d) * inv
    ensures (p * inv) * d + (q * inv) * c == (p * d + q * c) * inv
  {
  }

  lemma Cancel(a: real, n: real, inv: real)
    requires inv * n == 1.0
    ensures (a * n) * inv == a
  {
    assert (a * n) * inv == a * (inv * n);
  }

  // ---- smoothing ------------------------------------------------------------------------------

  const ALPHA := 0.0625

  function Blend(prev: real, x: real): real { prev + ALPHA * (x - prev) }

  /** One sixteenth of the way from the last value to the new quotient; no last value, no smoothing. */
  function Next(last: Complex, q: Complex): Complex {
    if last != ZERO then Complex(Blend(last.re, q.re), Blend(last.im, q.im)) else q
  }

  function Smoothed(raws: seq<Complex>): Complex {
    if raws == [] then ZERO else Next(Smoothed(raws[..|raws| - 1]), raws[|raws| - 1])
  }

  /** The points with a re + b im <= c. */
  datatype HalfPlane = HalfPlane(a: real, b: real, c: real)

  predicate Inside(z: Complex, h: HalfPlane) { h.a * z.re + h.b * z.im <= h.c }

  /** Every smoothed value lies in any half-plane that holds all quotients so far, so in their convex hull. */
  lemma {:induction false} SmoothedInHull(raws: seq<Complex>, h: HalfPlane)
    requires raws != [] && forall q :: q in raws ==> Inside(q, h)
    ensures Inside(Smoothed(raws), h)
  {
    var n := |raws| - 1;
    assert Inside(raws[n], h);
    if n > 0 {
      SmoothedInHull(raws[..n], h);
      BlendInside(Smoothed(raws[..n]), raws[n], h);
    }
  }

  lemma BlendInside(last: Complex, q: Complex, h: HalfPlane)
    requires Inside(last, h) && Inside(q, h)
    ensures Inside(Next(last, q), h)
  {
    BlendLinear(h.a, h.b, last.re, last.im, q.re, q.im);
  }

  lemma BlendLinear(a: real, b: real, x: real, y: real, u: real, v: real)
    ensures a * Blend(x, u) + b * Blend(y, v) == Blend(a * x + b * y, a * u + b * v)
  {
    assert a * (x + ALPHA * (u - x)) == a * x + ALPHA * (a * u - a * x);
    assert b * (y + ALPHA * (v - y)) == b * y + ALPHA * (b * v - b * y);
  }

  lemma SmoothedAppend(raws: seq<Complex>, q: Complex)
    ensures Smoothed(raws + [q]) == Next(Smoothed(raws), q)
  {
    assert (raws + [q])[..|raws + [q]| - 1] == raws;
  }

  /** How far one quotient moves the smoothed value: sixteen new ones are fifteen old ones and the quotient. Zero
      counts as no value yet. */
  lemma SmoothedMoves(raws: seq<Complex>, q: Complex)
    ensures var z, z' := Smoothed(raws), Smoothed(raws + [q]);
            if z == Complex(0.0, 0.0) then z' == q
            else 16.0 * z'.re == 15.0 * z.re + q.re && 16.0 * z'.im == 15.0 * z.im + q.im
  {
    SmoothedAppend(raws, q);
  }

  // ---- a steady quotient --------------------------------------------------------------------------

  function Repeat(q: Complex, n: nat): (r: seq<Complex>)
    ensures |r| == n
  {
    seq(n, _ => q)
  }

  lemma RepeatNext(raws: seq<Complex>, q: Complex, n: nat)
    ensures raws + Repeat(q, n + 1) == raws + Repeat(q, n) + [q] && raws + Repeat(q, 0) == raws
  {
  }

  /** `z` once its distance from `q` has shrunk to (15/16)^n of what it was. */
  function Drawn(z: Complex, q: Complex, n: nat): (r: Complex)
    ensures r.re - q.re == PowR(15.0 / 16.0, n) * (z.re - q.re) && r.im - q.im == PowR(15.0 / 16.0, n) * (z.im - q.im)
  {
    Complex(q.re + PowR(15.0 / 16.0, n) * (z.re - q.re), q.im + PowR(15.0 / 16.0, n) * (z.im - q.im))
  }

  lemma DrawnNext(z: Complex, q: Complex, n: nat)
    ensures Drawn(z, q, 0) == z
    ensures Drawn(z, q, n) != ZERO || q == ZERO ==> Next(Drawn(z, q, n), q) == Drawn(z, q, n + 1)
    ensures Drawn(z, q, n) == ZERO && q != ZERO ==> Next(Drawn(z, q, n), q) != Drawn(z, q, n + 1)
  {
    var p := PowR(15.0 / 16.0, n);
    DrawnPart(p, z.re, q.re, Drawn(z, q, n).re, Drawn(z, q, n + 1).re);
    DrawnPart(p, z.im, q.im, Drawn(z, q, n).im, Drawn(z, q, n + 1).im);
  }

  lemma DrawnPart(p: real, x: real, c: real, y: real, y': real)
    requires y == c + p * (x - c) && y' == c + (15.0 / 16.0 * p) * (x - c)
    ensures Blend(y, c) == y' && y' - c == 15.0 / 16.0 * (y - c)
  {
    ShrinkOnce(p, x - c);
  }

  lemma ShrinkOnce(p: real, d: real)
    ensures (15.0 / 16.0 * p) * d == 15.0 / 16.0 * (p * d)
  {
  }

  /** After `m` rounds of a steady quotient the smoothed value has been drawn to it. */
  predicate IsDrawn(raws: seq<Complex>, q: Complex, m: nat) {
    Smoothed(raws + Repeat(q, m)) == Drawn(Smoothed(raws), q, m)
  }

  lemma SteadyStep(raws: seq<Complex>, q: Complex, m: nat)
    requires IsDrawn(raws, q, m)
    ensures IsDrawn(raws, q, m + 1) <==> (q == ZERO || Drawn(Smoothed(raws), q, m) != ZERO)
  {
    RepeatNext(raws, q, m);
    SmoothedAppend(raws + Repeat(q, m), q);
    DrawnNext(Smoothed(raws), q, m);
  }

  /** The smoothed values of a steady quotient are drawn to it by fifteen sixteenths at a time if and only if the way
      there does not lead through zero, where the smoothing starts over. */
  lemma {:induction false} SteadyIff(raws: seq<Complex>, q: Complex, n: nat)
    ensures (forall m :: 0 <= m <= n ==> IsDrawn(raws, q, m)) <==>
            (q == ZERO || forall m :: 0 <= m < n ==> Drawn(Smoothed(raws), q, m) != ZERO)
  {
    if n == 0 {
      RepeatNext(raws, q, 0);
      DrawnNext(Smoothed(raws), q, 0);
    } else {
      SteadyIff(raws, q, n - 1);
      if IsDrawn(raws, q, n - 1) { SteadyStep(raws, q, n - 1); }
    }
  }

  function Inner(a: Complex, b: Complex): real { a.re * b.re + a.im * b.im }

  /** It never does for a quotient that does not point away from the value it starts from. */
  lemma SteadyClosed(raws: seq<Complex>, q: Complex, n: nat)
    requires Smoothed(raws) != ZERO && Inner(Smoothed(raws), q) >= 0.0
    ensures Smoothed(raws + Repeat(q, n)) == Drawn(Smoothed(raws), q, n)
  {
    forall m | 0 <= m < n ensures Drawn(Smoothed(raws), q, m) != ZERO { NotThroughZero(Smoothed(raws), q, m); }
    SteadyIff(raws, q, n);
    assert IsDrawn(raws, q, n);
  }

  lemma {:induction false} PowRBetween(x: real, n: nat)
    requires 0.0 < x < 1.0
    ensures 0.0 < PowR(x, n) <= 1.0
  {
    if n > 0 {
      PowRBetween(x, n - 1);
      ProductBetween(x, PowR(x, n - 1));
    }
  }

  lemma ProductBetween(x: real, y: real)
    requires 0.0 < x < 1.0 && 0.0 < y <= 1.0
    ensures 0.0 < x * y <= 1.0
  {
    assert (1.0 - x) * y > 0.0;
  }

  lemma NotThroughZero(z: Complex, q: Complex, n: nat)
    requires z != ZERO && Inner(z, q) >= 0.0
    ensures Drawn(z, q, n) != ZERO
  {
    PowRBetween(15.0 / 16.0, n);
    PositiveSum(z.re, z.im, z.re * z.re, z.im * z.im);
    BetweenPointsAlong(PowR(15.0 / 16.0, n), z.re, z.im, q.re, q.im, z.re * z.re + z.im * z.im, Inner(z, q));
    NoneAlongZero(z, Drawn(z, q, n));
  }

  lemma NoneAlongZero(z: Complex, y: Complex)
    requires Inner(y, z) > 0.0
    ensures y != ZERO
  {
  }

  /** Between two points that do not oppose each other everything points along the first. */
  lemma BetweenPointsAlong(p: real, a: real, b: real, c: real, d: real, s: real, t: real)
    requires 0.0 < p <= 1.0 && s == a * a + b * b && t == a * c + b * d && s > 0.0 && t >= 0.0
    ensures (c + p * (a - c)) * a + (d + p * (b - d)) * b > 0.0
  {
    var r := 1.0 - p;
    AlongOne(p, r, a, c);
    AlongOne(p, r, b, d);
    assert p * (a * a) + p * (b * b) == p * s && r * (a * c) + r * (b * d) == r * t;
    Gap(p, s);
    Gap0(r, t);
  }

  lemma AlongOne(p: real, r: real, a: real, c: real)
    requires r == 1.0 - p
    ensures (c + p * (a - c)) * a == p * (a * a) + r * (a * c)
  {
    assert (c + p * (a - c)) * a == c * a + p * ((a - c) * a);
    assert (a - c) * a == a * a - a * c;
  }

  function Mag(m: Libm, z: Complex): real { m.sqrt(z.re * z.re + z.im * z.im) }

  const MIN_MAGNITUDE := 0.000_000_000_000_001

  /** The smoothed values large enough to use. */
  function PointsOf(m: Libm, raws: seq<Complex>): seq<Complex> {
    if raws == [] then []
    else
      var front, z := PointsOf(m, raws[..|raws| - 1]), Smoothed(raws);
      if Mag(m, z) < MIN_MAGNITUDE then front else front + [z]
  }

  lemma {:induction false} PointsInHull(m: Libm, raws: seq<Complex>, h: HalfPlane)
    requires forall q :: q in raws ==> Inside(q, h)
    ensures forall z :: z in PointsOf(m, raws) ==> Inside(z, h) && Mag(m, z) >= MIN_MAGNITUDE
  {
    if raws != [] {
      PointsInHull(m, raws[..|raws| - 1], h);
      SmoothedInHull(raws, h);
    }
  }

  // ---- the baseline ---------------------------------------------------------------------------

  datatype Baseline = Baseline(z0: Complex, mag: real, locked: bool, samples: nat)

  const BASELINE_POINTS: nat := 256

  const UNSET := Baseline(ZERO, 0.0, false, 0)

  function Absorb(m: Libm, b: Baseline, z: Complex): Baseline {
    if b.locked then b
    else
      var sum, mag, n := Add(b.z0, z), b.mag + Mag(m, z), b.samples + 1;
      if n >= BASELINE_POINTS then
        var invN := 1.0 / n as real;
        Baseline(Complex(sum.re * invN, sum.im * invN), mag * invN, true, n)
      else Baseline(sum, mag, false, n)
  }

  /** The baseline after a run of points, from the accumulators it started with. */
  function Settle(m: Libm, start: Baseline, points: seq<Complex>): Baseline {
    if points == [] then start else Absorb(m, Settle(m, start, points[..|points| - 1]), points[|points| - 1])
  }

  function SumZ(points: seq<Complex>): Complex {
    if points == [] then ZERO else Add(SumZ(points[..|points| - 1]), points[|points| - 1])
  }

  function SumMag(m: Libm, points: seq<Complex>): real {
    if points == [] then 0.0 else SumMag(m, points[..|points| - 1]) + Mag(m, points[|points| - 1])
  }

  /** A start state: nothing counted yet, whatever the accumulators hold. */
  predicate Fresh(b: Baseline) { !b.locked && b.samples == 0 }

  /** Before the 256th point the baseline holds running sums. */
  lemma {:induction false} Accumulates(m: Libm, start: Baseline, points: seq<Complex>)
    requires Fresh(start) && |points| < BASELINE_POINTS
    ensures Settle(m, start, points) ==
            Baseline(Add(start.z0, SumZ(points)), start.mag + SumMag(m, points), false, |points|)
  {
    if points != [] { Accumulates(m, start, points[..|points| - 1]); }
  }

  function Share(total: real): real { total / BASELINE_POINTS as real }

  function MeanZ(total: Complex): Complex { Complex(Share(total.re), Share(total.im)) }

  lemma ShareIsScaled(x: real)
    ensures x * (1.0 / BASELINE_POINTS as real) == Share(x)
  {
  }

  /** The 256th point locks it at their mean, offset by whatever the accumulators started with. */
  lemma LocksAt256(m: Libm, start: Baseline, points: seq<Complex>)
    requires Fresh(start) && |points| == 256
    ensures Settle(m, start, points) ==
            Baseline(MeanZ(Add(start.z0, SumZ(points))), Share(start.mag + SumMag(m, points)), true, 256)
  {
    var front, last := points[..|points| - 1], points[|points| - 1];
    Accumulates(m, start, front);
    var sum := Add(Add(start.z0, SumZ(front)), last);
    assert sum == Add(start.z0, SumZ(points));
    ShareIsScaled(sum.re);
    ShareIsScaled(sum.im);
    ShareIsScaled(start.mag + SumMag(m, points));
  }

  /** It is locked exactly from the 256th point on, and frozen from then on. */
  lemma {:induction false} FrozenAfter256(m: Libm, start: Baseline, points: seq<Complex>)
    requires Fresh(start)
    ensures Settle(m, start, points).locked <==> |points| >= 256
    ensures |points| >= 256 ==>
              Settle(m, start, points) == Settle(m, start, points[..256])
  {
    if |points| < BASELINE_POINTS {
      Accumulates(m, start, points);
    } else if |points| == BASELINE_POINTS {
      LocksAt256(m, start, points);
      assert points[..BASELINE_POINTS] == points;
    } else {
      FrozenAfter256(m, start, points[..|points| - 1]);
      assert points[..|points| - 1][..BASELINE_POINTS] == points[..BASELINE_POINTS];
    }
  }

  /** Once locked it is the mean of the first 256 points, and their mean magnitude, if and only if it
      started with empty accumulators: a new matrix does, one whose baseline was reset need not. */
  lemma LockedIsMeanIff(m: Libm, start: Baseline, points: seq<Complex>)
    requires Fresh(start) && |points| >= 256
    ensures var b, first := Settle(m, start, points), points[..256];
            b.z0 == MeanZ(SumZ(first)) && b.mag == Share(SumMag(m, first)) <==> start.z0 == ZERO && start.mag == 0.0
  {
    var first := points[..BASELINE_POINTS];
    FrozenAfter256(m, start, points);
    LocksAt256(m, start, first);
    ShareOffset(start.z0.re, SumZ(first).re);
    ShareOffset(start.z0.im, SumZ(first).im);
    ShareOffset(start.mag, SumMag(m, first));
  }

  lemma ShareOffset(x: real, y: real)
    ensures Share(x + y) == Share(y) <==> x == 0.0
  {
  }

  /** Accumulators that have ever absorbed a usable point are not empty. */
  lemma {:induction false} SettleGrows(m: Libm, start: Baseline, points: seq<Complex>)
    requires Fresh(start) && start.mag >= 0.0
    requires forall z :: z in points ==> Mag(m, z) >= MIN_MAGNITUDE
    ensures Settle(m, start, points).mag >= 0.0
    ensures points != [] || start.mag > 0.0 ==> Settle(m, start, points).mag > 0.0
  {
    if points != [] {
      var n := |points| - 1;
      SettleGrows(m, start, points[..n]);
      assert Mag(m, points[n]) >= MIN_MAGNITUDE;
      AbsorbGrows(m, Settle(m, start, points[..n]), points[n]);
      if n == 0 && start.mag == 0.0 { assert points[..n] == []; } else { assert n > 0 ==> points[..n] != []; }
    }
  }

  lemma AbsorbGrows(m: Libm, b: Baseline, z: Complex)
    requires b.mag >= 0.0 && Mag(m, z) >= MIN_MAGNITUDE && (b.locked ==> b.mag > 0.0)
    ensures Absorb(m, b, z).mag > 0.0
  {
    if !b.locked && b.samples + 1 >= BASELINE_POINTS {
      Gap(b.mag + Mag(m, z), 1.0 / (b.samples + 1) as real);
    }
  }

  lemma {:induction false} PointsAreLarge(m: Libm, raws: seq<Complex>)
    ensures forall z :: z in PointsOf(m, raws) ==> Mag(m, z) >= MIN_MAGNITUDE
  {
    if raws != [] { PointsAreLarge(m, raws[..|raws| - 1]); }
  }

  /** What a reset leaves of a baseline: the lock and the count go, the accumulators stay. */
  function Unlocked(b: Baseline): Baseline { Baseline(b.z0, b.mag, false, 0) }

  /** A steady impedance of one. */
  lemma {:induction false} SteadyOnes(m: Libm, n: nat)
    requires IsSqrt(m)
    ensures PointsOf(m, Repeat(ONE, n)) == Repeat(ONE, n) && SumZ(Repeat(ONE, n)) == Complex(n as real, 0.0)
    ensures n > 0 ==> Smoothed(Repeat(ONE, n)) == ONE
  {
    if n > 0 {
      SteadyOnes(m, n - 1);
      assert Repeat(ONE, n)[..n - 1] == Repeat(ONE, n - 1);
      assert Next(ZERO, ONE) == ONE && Next(ONE, ONE) == ONE;
      MagOfOne(m);
      assert Repeat(ONE, n - 1) + [ONE] == Repeat(ONE, n);
    }
  }

  lemma MagOfOne(m: Libm)
    requires IsSqrt(m)
    ensures Mag(m, ONE) == 1.0
  {
    SqrtOfSquare(m, ONE.re * ONE.re + ONE.im * ONE.im, 1.0);
  }

  /** A reset that is not harmless: k < 256 samples at impedance one, a reset, and 256 more lock the baseline at
      1 + k/256 where all that was measured is one. */
  lemma ResetKeepsSums(m: Libm, k: nat)
    requires IsSqrt(m) && 0 < k < BASELINE_POINTS
    ensures var start, points := Unlocked(Settle(m, UNSET, PointsOf(m, Repeat(ONE, k)))), PointsOf(m, Repeat(ONE, BASELINE_POINTS));
            && Settle(m, start, points).locked && |points| == BASELINE_POINTS && MeanZ(SumZ(points)) == ONE
            && Settle(m, start, points).z0 == Complex(1.0 + k as real / 256.0, 0.0)
  {
    SteadyOnes(m, k);
    SteadyOnes(m, BASELINE_POINTS);
    Accumulates(m, UNSET, Repeat(ONE, k));
    LocksAt256(m, Unlocked(Settle(m, UNSET, Repeat(ONE, k))), Repeat(ONE, BASELINE_POINTS));
    Shares256(k as real, SumZ(Repeat(ONE, BASELINE_POINTS)));
  }

  lemma Shares256(x: real, sum: Complex)
    requires sum == Complex(256.0, 0.0)
    ensures MeanZ(sum) == ONE && MeanZ(Add(Add(ZERO, Complex(x, 0.0)), sum)) == Complex(1.0 + x / 256.0, 0.0)
  {
  }

  // ---- |mean Z| <= mean |Z| -------------------------------------------------------------------

  lemma SquareOrder(x: real, y: real)
    requires y >= 0.0 && x * x <= y * y
    ensures x <= y
  {
    if x > y { SquareGrows(y, x); }
  }

  lemma SquareGrows(y: real, x: real)
    requires 0.0 <= y < x
    ensures y * y < x * x
  {
    assert x * x - y * y == (x - y) * (x + y);
    Gap(x - y, x + y);
  }

  lemma Gap(a: real, b: real)
    requires a > 0.0 && b > 0.0
    ensures a * b > 0.0
  {
  }

  /** Cauchy-Schwarz in the plane. */
  lemma DotBound(a: real, b: real, c: real, d: real, p: real, q: real)
    requires p >= 0.0 && q >= 0.0 && a * a + b * b <= p * p && c * c + d * d == q * q
    ensures a * c + b * d <= p * q
  {
    TwoSquares(a, b, c, -d);
    Negated(a, b, c, d);
    var dot, cross, pq := a * c + b * d, a * (-d) + b * c, p * q;
    assert a * c - b * (-d) == dot;
    assert dot * dot + cross * cross == (a * a + b * b) * (c * c + d * d);
    Square(cross);
    Scaled(a * a + b * b, p * p, q * q, q);
    assert (p * p) * (q * q) == pq * pq;
    Gap0(p, q);
    SquareOrder(dot, pq);
  }

  lemma Gap0(p: real, q: real)
    requires p >= 0.0 && q >= 0.0
    ensures p * q >= 0.0
  {
  }

  lemma Scaled(x: real, y: real, z: real, q: real)
    requires x <= y && z == q * q
    ensures x * z <= y * z
  {
    Square(q);
    Gap0(y - x, z);
  }

  lemma Triangle(a: real, b: real, c: real, d: real, p: real, q: real)
    requires p >= 0.0 && q >= 0.0 && a * a + b * b <= p * p && c * c + d * d == q * q
    ensures (a + c) * (a + c) + (b + d) * (b + d) <= (p + q) * (p + q)
  {
    DotBound(a, b, c, d, p, q);
    assert (a + c) * (a + c) + (b + d) * (b + d) == (a * a + b * b) + 2.0 * (a * c + b * d) + (c * c + d * d);
    assert (p + q) * (p + q) == p * p + 2.0 * (p * q) + q * q;
  }

  lemma MagRoot(m: Libm, z: Complex)
    requires IsSqrt(m)
    ensures Mag(m, z) >= 0.0 && z.re * z.re + z.im * z.im == Mag(m, z) * Mag(m, z)
  {
    Square(z.re);
    Square(z.im);
  }

  lemma {:induction false} SumBound(m: Libm, points: seq<Complex>)
    requires IsSqrt(m)
    ensures SumMag(m, points) >= 0.0
    ensures var s := SumZ(points); s.re * s.re + s.im * s.im <= SumMag(m, points) * SumMag(m, points)
  {
    if points != [] {
      var front, z := points[..|points| - 1], points[|points| - 1];
      SumBound(m, front);
      MagRoot(m, z);
      Triangle(SumZ(front).re, SumZ(front).im, z.re, z.im, SumMag(m, front), Mag(m, z));
    }
  }

  lemma ShareSquares(a: real, b: real, p: real)
    requires a * a + b * b <= p * p
    ensures Share(a) * Share(a) + Share(b) * Share(b) <= Share(p) * Share(p)
  {
    var k := 1.0 / 256.0;
    assert Share(a) * Share(a) == (k * k) * (a * a);
    assert Share(b) * Share(b) == (k * k) * (b * b);
    assert Share(p) * Share(p) == (k * k) * (p * p);
  }

  /** The magnitude of the mean is at most the mean of the magnitudes. */
  lemma MeanTriangle(m: Libm, points: seq<Complex>)
    requires IsSqrt(m)
    ensures Mag(m, MeanZ(SumZ(points))) <= Share(SumMag(m, points))
  {
    var s, t := SumZ(points), SumMag(m, points);
    SumBound(m, points);
    ShareSquares(s.re, s.im, t);
    MagRoot(m, MeanZ(s));
    SquareOrder(Mag(m, MeanZ(s)), Share(t));
  }
}
