/** The impedance matrix: a ring of rows kept in columns, the baseline beside it, and the alarms
    raised against the baseline. */
module Matrix {
  import opened Basics
  import opened Slots
  import opened RingWindow
  import opened PhasorMath
  import opened Models
  import opened Impedance

  function RowCount(n: int): nat { if n <= 0 then 2048 else n }

  datatype Row = Row(timestampNs: nat, seqNo: nat, vmag: real, imag: real, zreal: real, zimag: real, zmag: real, zphase: real)

  const BLANK := Row(0, 0, 0.0, 0.0, 0.0, 0.0, 0.0, 0.0)

  datatype AnomalyEvent = AnomalyEvent(channelId: string, timestampNs: nat, seqNo: nat, deviationPct: real,
                                       phaseShiftDeg: real, zBaseline: Complex, zMeasured: Complex, alarmId: nat)

  /** The relative jump of a magnitude against the baseline's. */
  function Jump(mag: real, z0Mag: real): real { Ratio(mag - z0Mag, Divisor(z0Mag)) }

  function Divisor(z0Mag: real): real { z0Mag + 0.000_000_000_000_000_001 }

  function PhaseShift(m: Libm, phase: real, z0: Complex): real { Abs(phase - m.atan2(z0.im, z0.re)) }

  /** A point is out of line when its magnitude or its phase is too far from the baseline's. */
  predicate OutOfLine(m: Libm, mag: real, phase: real, b: Baseline, jumpThreshold: real, phaseThreshold: real) {
    Abs(Jump(mag, b.mag)) > jumpThreshold || PhaseShift(m, phase, b.z0) > phaseThreshold
  }

  lemma RatioExceeds(a: real, d: real, t: real)
    requires d > 0.0
    ensures Ratio(a, d) * d == a && (Abs(Ratio(a, d)) > t <==> a > t * d || -a > t * d)
  {
    var q := Ratio(a, d);
    Exceeds(q, t, d);
    Exceeds(-q, t, d);
  }

  lemma Exceeds(q: real, t: real, d: real)
    requires d > 0.0
    ensures q > t <==> q * d > t * d
  {
    if q > t { Gap(q - t, d); } else if t > q { Gap(t - q, d); }
  }

  /** The rule in magnitudes and angles: more than the jump threshold of the mean magnitude away from it, either way
      and whatever the phase, or more than the phase threshold away from the baseline's angle, whatever the magnitude. */
  lemma OutOfLineIff(m: Libm, mag: real, phase: real, b: Baseline, jump: real, shift: real)
    requires b.mag >= 0.0
    ensures var limit, angle := jump * (b.mag + 0.000_000_000_000_000_001), m.atan2(b.z0.im, b.z0.re);
            OutOfLine(m, mag, phase, b, jump, shift) <==>
            (|| mag - b.mag > limit || b.mag - mag > limit
             || phase - angle > shift || angle - phase > shift)
  {
    RatioExceeds(mag - b.mag, Divisor(b.mag), jump);
  }

  // ---- the alarms as a function of the points -----------------------------------------------------

  /** What a matrix compares points with and labels alarms with. */
  datatype Limits = Limits(lib: Libm, pi: real, channelId: string, rows: nat, jump: real, phase: real)

  /** What the baseline started from, the points since, the row of the last alarm, and the alarms so far. */
  datatype Watch = Watch(start: Baseline, points: seq<Complex>, lastAlarmAt: nat, alarms: seq<AnomalyEvent>)

  /** An alarm is due for the point of row `at`: the baseline is locked, the row's cell is not that of the
      alarm before, and the point is out of line. */
  predicate Due(l: Limits, b: Baseline, z: ImpedancePoint, at: nat, lastAt: nat)
    requires l.rows > 0
  {
    b.locked && Slot(at, l.rows) != Slot(lastAt, l.rows) && OutOfLine(l.lib, z.magnitude, z.phase, b, l.jump, l.phase)
  }

  /** What an alarm says about a point. */
  function AlarmFor(l: Limits, b: Baseline, z: ImpedancePoint, id: nat): AnomalyEvent {
    AnomalyEvent(l.channelId, z.timestampNs, z.seqNo, Jump(z.magnitude, b.mag) * 100.0,
                 Ratio(PhaseShift(l.lib, z.phase, b.z0) * 180.0, l.pi), b.z0, Complex(z.resistance, z.reactance), id)
  }

  /** The deviation is the signed difference of the magnitudes in percent of the mean magnitude, the shift that of the
      angles in degrees. */
  lemma AlarmSays(l: Limits, b: Baseline, z: ImpedancePoint, id: nat)
    requires b.mag >= 0.0 && l.pi > 0.0
    ensures var e, angle := AlarmFor(l, b, z, id), l.lib.atan2(b.z0.im, b.z0.re);
            && e.deviationPct * (b.mag + 0.000_000_000_000_000_001) == 100.0 * (z.magnitude - b.mag)
            && (z.phase >= angle ==> e.phaseShiftDeg * l.pi == 180.0 * (z.phase - angle))
            && (z.phase < angle ==> e.phaseShiftDeg * l.pi == 180.0 * (angle - z.phase))
            && e.channelId == l.channelId && e.timestampNs == z.timestampNs && e.seqNo == z.seqNo && e.alarmId == id
            && e.zBaseline == b.z0 && e.zMeasured == Complex(z.resistance, z.reactance)
  {
    RatioExceeds(z.magnitude - b.mag, Divisor(b.mag), 0.0);
    Hundredfold(Jump(z.magnitude, b.mag), Divisor(b.mag));
    RatioExceeds(PhaseShift(l.lib, z.phase, b.z0) * 180.0, l.pi, 0.0);
  }

  lemma Hundredfold(x: real, d: real)
    ensures x * 100.0 * d == 100.0 * (x * d)
  {
  }

  /** One more recorded point, compared with the baseline `b`. */
  function Compared(l: Limits, w: Watch, b: Baseline, z: ImpedancePoint): Watch
    requires l.rows > 0
  {
    var points := w.points + [Complex(z.resistance, z.reactance)];
    if Due(l, b, z, |w.points|, w.lastAlarmAt)
    then Watch(w.start, points, |w.points|, w.alarms + [AlarmFor(l, b, z, |w.alarms| + 1)])
    else Watch(w.start, points, w.lastAlarmAt, w.alarms)
  }

  /** The baseline takes the point in before it is compared with it. */
  function Watched(l: Limits, w: Watch, z: ImpedancePoint): Watch
    requires l.rows > 0
  {
    Compared(l, w, Settle(l.lib, w.start, w.points + [Complex(z.resistance, z.reactance)]), z)
  }

  lemma WatchedIs(l: Limits, w: Watch, b: Baseline, z: ImpedancePoint)
    requires l.rows > 0 && b == Settle(l.lib, w.start, w.points + [Complex(z.resistance, z.reactance)])
    ensures Watched(l, w, z) == Compared(l, w, b, z)
  {
  }

  /** One sixteenth of the way from the last smoothed value to the quotient; all of it when there is none. */
  ghost predicate Moved(last: Complex, q: Complex, z: ImpedancePoint) {
    if last.re == 0.0 && last.im == 0.0 then z.resistance == q.re && z.reactance == q.im
    else 16.0 * z.resistance == 15.0 * last.re + q.re && 16.0 * z.reactance == 15.0 * last.im + q.im
  }

  lemma DueIff(l: Limits, b: Baseline, z: ImpedancePoint, at: nat, lastAt: nat)
    requires l.rows > 0 && b.mag >= 0.0
    ensures var limit, angle := l.jump * (b.mag + 0.000_000_000_000_000_001), l.lib.atan2(b.z0.im, b.z0.re);
            Due(l, b, z, at, lastAt) <==>
            (&& b.locked && Distance(at, lastAt) % l.rows != 0
             && (|| z.magnitude - b.mag > limit || b.mag - z.magnitude > limit
                 || z.phase - angle > l.phase || angle - z.phase > l.phase))
  {
    SameCellIff(at, lastAt, l.rows);
    OutOfLineIff(l.lib, z.magnitude, z.phase, b, l.jump, l.phase);
  }

  lemma ComparedIff(l: Limits, w: Watch, b: Baseline, z: ImpedancePoint)
    requires l.rows > 0
    ensures Compared(l, w, b, z).alarms ==
            w.alarms + if Due(l, b, z, |w.points|, w.lastAlarmAt) then [AlarmFor(l, b, z, |w.alarms| + 1)] else []
  {
  }

  /** When a recorded point raises an alarm: the baseline is locked with the point taken in, no whole number of laps
      lies between its row and that of the last alarm, and its magnitude or its phase is out of line. */
  lemma WatchedIff(l: Limits, w: Watch, b: Baseline, z: ImpedancePoint)
    requires l.rows > 0 && b == Settle(l.lib, w.start, w.points + [Complex(z.resistance, z.reactance)]) && b.mag >= 0.0
    ensures var limit, angle := l.jump * (b.mag + 0.000_000_000_000_000_001), l.lib.atan2(b.z0.im, b.z0.re);
            |Watched(l, w, z).alarms| == |w.alarms| + 1 <==>
            (&& b.locked && Distance(|w.points|, w.lastAlarmAt) % l.rows != 0
             && (|| z.magnitude - b.mag > limit || b.mag - z.magnitude > limit
                 || z.phase - angle > l.phase || angle - z.phase > l.phase))
  {
    WatchedIs(l, w, b, z);
    ComparedIff(l, w, b, z);
    DueIff(l, b, z, |w.points|, w.lastAlarmAt);
  }

  /** Alarm numbers count up from one. */
  ghost predicate Numbered(alarms: seq<AnomalyEvent>) {
    forall k :: 0 <= k < |alarms| ==> alarms[k].alarmId == k + 1
  }

  function Distance(a: nat, b: nat): nat { if a <= b then b - a else a - b }

  /** A row falls on the cell of the last alarm exactly when whole laps lie between them, either way: after a
      reset the rows count from zero again and the last alarm stays where it was. */
  lemma SameCellIff(n: nat, last: nat, rows: nat)
    requires rows > 0
    ensures Slot(n, rows) == Slot(last, rows) <==> Distance(n, last) % rows == 0
  {
    if last <= n { SlotAdd0(last, n - last, rows); } else { SlotAdd0(n, last - n, rows); }
  }

  lemma {:induction false} SlotAdd0(a: nat, d: nat, rows: nat)
    requires rows > 0
    ensures Slot(a + d, rows) == Slot(a, rows) <==> d % rows == 0
    decreases d
  {
    if d >= rows {
      SlotAdd0(a, d - rows, rows);
      LapSlot(a + d - rows, rows);
      ModLap(d - rows, rows);
    } else {
      ModSmall(d, rows);
      if d > 0 { SlotNext(a, a + d, rows); }
    }
  }

  /** One more quotient: at most one more point, absorbed by the baseline. */
  lemma PointsAppend(m: Libm, raws: seq<Complex>, q: Complex, start: Baseline)
    ensures var z, points := Smoothed(raws + [q]), PointsOf(m, raws);
            if Mag(m, z) < MIN_MAGNITUDE then PointsOf(m, raws + [q]) == points
            else PointsOf(m, raws + [q]) == points + [z] &&
                 Settle(m, start, points + [z]) == Absorb(m, Settle(m, start, points), z)
  {
    var z, points := Smoothed(raws + [q]), PointsOf(m, raws);
    assert (raws + [q])[..|raws + [q]| - 1] == raws;
    assert (points + [z])[..|points + [z]| - 1] == points;
  }

  /** The point a pair of phasors makes after the quotients `raws`: none unless it can be divided and what the
      smoothing then holds is not negligible. */
  function Solved(lib: Libm, raws: seq<Complex>, seqNo: nat, timestampNs: nat, v: Phasor, i: Phasor): Option<ImpedancePoint> {
    if CurrentSq(i) < MIN_CURRENT_SQ then None
    else
      var z := Smoothed(raws + [Quotient(v, i)]);
      if Mag(lib, z) < MIN_MAGNITUDE then None
      else Some(ImpedancePoint(timestampNs, z.re, z.im, Mag(lib, z), lib.atan2(z.im, z.re), seqNo))
  }

  lemma SolvedStamped(lib: Libm, raws: seq<Complex>, seqNo: nat, timestampNs: nat, v: Phasor, i: Phasor, p: Option<ImpedancePoint>)
    requires p == Solved(lib, raws, 0, 0, v, i)
    ensures Solved(lib, raws, seqNo, timestampNs, v, i) ==
            if p.None? then None else Some(p.value.(seqNo := seqNo, timestampNs := timestampNs))
  {
  }

  lemma Scaled0(x: real, k: real)
    requires x >= 0.0 && k >= 0.0
    ensures x * k >= 0.0
  {
  }

  datatype Snapshot = Snapshot(rows: nat, full: bool, timestampsNs: seq<nat>, zreal: seq<real>, zimag: seq<real>,
                               zmag: seq<real>, zphase: seq<real>, baselineLocked: bool, baselineZ: Complex,
                               alarmCount: nat)

  /** Five columns of a run of rows. */
  ghost predicate Columns(ts: seq<nat>, zr: seq<real>, zi: seq<real>, zm: seq<real>, zp: seq<real>, rows: seq<Row>) {
    && |ts| == |zr| == |zi| == |zm| == |zp| == |rows|
    && forall k :: 0 <= k < |rows| ==>
         rows[k].timestampNs == ts[k] && rows[k].zreal == zr[k] && rows[k].zimag == zi[k]
         && rows[k].zmag == zm[k] && rows[k].zphase == zp[k]
  }

  lemma ColumnsStep(ts: seq<nat>, zr: seq<real>, zi: seq<real>, zm: seq<real>, zp: seq<real>, rows: seq<Row>, i: nat)
    requires i < |rows| && Columns(ts, zr, zi, zm, zp, rows[..i])
    ensures var r := rows[i];
            Columns(ts + [r.timestampNs], zr + [r.zreal], zi + [r.zimag], zm + [r.zmag], zp + [r.zphase], rows[..i + 1])
  {
    var r, front := rows[i], rows[..i];
    assert rows[..i + 1] == front + [r];
  }

  ghost predicate Shows(s: Snapshot, rows: seq<Row>) {
    s.rows == |rows| && Columns(s.timestampsNs, s.zreal, s.zimag, s.zmag, s.zphase, rows)
  }

  class SpatiotemporalMatrix {
    const lib: Libm
    const pi: real
    const channelId: string
    const rows: nat
    const cells: array<Row>
    var writeIdx: nat
    var full: bool
    var baseline: Baseline
    const zJumpThreshold: real
    const phaseThreshold: real
    var alarmCount: nat
    var lastAlarmIdx: nat
    var lastZ: Complex
    /** Since the last reset: the rows written, the quotients seen, the alarms raised. */
    ghost var hist: seq<Row>
    ghost var raws: seq<Complex>
    ghost var alarms: seq<AnomalyEvent>
    /** The accumulators the baseline started from, the rows recorded before the last reset, and the row of the
        last alarm. */
    ghost var start: Baseline
    ghost var recordedBefore: nat
    ghost var lastAlarmAt: nat

    ghost predicate Valid()
      reads this, cells
    {
      Recorded() && Alarmed()
    }

    ghost predicate Recorded()
      reads this`writeIdx, this`full, this`hist, this`lastZ, this`baseline, this`raws, this`start, this`recordedBefore, cells
    {
      && pi > 0.0 && cells.Length == rows
      && Holds(cells[..], writeIdx, full, hist) && Solving() && Rowed()
    }

    ghost predicate Solving()
      reads this`lastZ, this`baseline, this`raws, this`start, this`recordedBefore
    {
      && lastZ == Smoothed(raws) && baseline == Settle(lib, start, PointsOf(lib, raws))
      && Fresh(start) && start.mag >= 0.0 && baseline.mag >= 0.0
      && (if recordedBefore == 0 then start == UNSET else start.mag > 0.0)
    }

    /** One row for each point. */
    ghost predicate Rowed()
      reads this`hist, this`raws
    {
      && |hist| == |PointsOf(lib, raws)|
      && forall k :: 0 <= k < |hist| ==> RowOf(hist[k], PointsOf(lib, raws)[k])
    }

    ghost predicate RowOf(r: Row, z: Complex) {
      r.zreal == z.re && r.zimag == z.im && r.zmag == Mag(lib, z) && r.zphase == lib.atan2(z.im, z.re)
    }

    ghost predicate Alarmed()
      reads this`alarmCount, this`alarms, this`lastAlarmIdx, this`lastAlarmAt
    {
      && rows > 0 && alarmCount == |alarms| && Numbered(alarms)
      && lastAlarmIdx == Slot(lastAlarmAt, rows)
      && (rows == 1 ==> alarms == [])
    }

    /** A matrix of one row never raises an alarm: its only cell is where the last alarm is taken to be. */
    lemma OneRowNeverAlarms()
      requires Valid() && rows == 1
      ensures alarmCount == 0
    {
    }

    /** Every row of the matrix lies in any half-plane that holds all quotients seen since the reset, so in their
        convex hull. */
    lemma RowsInHull(h: HalfPlane)
      requires Valid() && forall q :: q in raws ==> Inside(q, h)
      ensures forall r :: r in hist ==> Inside(Complex(r.zreal, r.zimag), h)
    {
      PointsInHull(lib, raws, h);
    }

    /** What the smoothing starts from is the newest row, unless the quotients since have brought it to nothing. */
    lemma NewestRowIsLast()
      requires Valid() && Mag(lib, lastZ) >= 0.000_000_000_000_001 && raws != []
      ensures hist != [] && hist[|hist| - 1].zreal == lastZ.re && hist[|hist| - 1].zimag == lastZ.im
    {
      var points := PointsOf(lib, raws);
      assert points[|points| - 1] == lastZ && RowOf(hist[|hist| - 1], points[|points| - 1]);
    }

    /** One more quotient: sixteen times the newest row is fifteen times the one before and the quotient. */
    lemma RowsMove(before: seq<Complex>, q: Complex)
      requires Valid() && raws == before + [q] && before != [] && Mag(lib, lastZ) >= 0.000_000_000_000_001
      requires Smoothed(before) != ZERO && Mag(lib, Smoothed(before)) >= 0.000_000_000_000_001
      ensures |hist| >= 2
      ensures var prev, newest := hist[|hist| - 2], hist[|hist| - 1];
              16.0 * newest.zreal == 15.0 * prev.zreal + q.re && 16.0 * newest.zimag == 15.0 * prev.zimag + q.im
    {
      var points := PointsOf(lib, raws);
      PointsAppend(lib, before, q, start);
      SmoothedMoves(before, q);
      assert RowOf(hist[|points| - 1], points[|points| - 1]) && RowOf(hist[|points| - 2], points[|points| - 2]);
    }

    /** Under a steady quotient that does not point away from where it began, the newest row has come closer to it by
        fifteen sixteenths at a time. */
    lemma SteadyRows(begun: seq<Complex>, q: Complex, n: nat)
      requires Valid() && raws == begun + Repeat(q, n) && Mag(lib, lastZ) >= 0.000_000_000_000_001
      requires Smoothed(begun) != ZERO && Inner(Smoothed(begun), q) >= 0.0
      ensures hist != [] && Complex(hist[|hist| - 1].zreal, hist[|hist| - 1].zimag) == Drawn(Smoothed(begun), q, n)
    {
      assert begun != [];
      NewestRowIsLast();
      SteadyClosed(begun, q, n);
    }

    /** The baseline is locked exactly from the 256th row on. It is then the mean of the first 256 points and of
        their magnitudes, with |mean Z| <= mean |Z|, if and only if no row had been recorded before the last reset. */
    lemma BaselineLocked()
      requires Valid()
      ensures baseline.locked <==> |hist| >= 256
      ensures baseline.locked ==>
                var first := PointsOf(lib, raws)[..256];
                && (baseline.z0 == MeanZ(SumZ(first)) && baseline.mag == Share(SumMag(lib, first)) <==> recordedBefore == 0)
                && (recordedBefore == 0 && IsSqrt(lib) ==> Mag(lib, baseline.z0) <= baseline.mag)
    {
      var points := PointsOf(lib, raws);
      FrozenAfter256(lib, start, points);
      if baseline.locked {
        LockedIsMeanIff(lib, start, points);
        if IsSqrt(lib) { MeanTriangle(lib, points[..BASELINE_POINTS]); }
      }
    }

    /** The accumulators are empty exactly while no row was ever recorded. */
    lemma Accumulators()
      requires Recorded()
      ensures if recordedBefore + |hist| == 0 then Unlocked(baseline) == UNSET else baseline.mag > 0.0
    {
      PointsAreLarge(lib, raws);
      SettleGrows(lib, start, PointsOf(lib, raws));
    }

    constructor (lib: Libm, pi: real, n: int, channelId: string)
      requires pi > 0.0
      ensures Valid() && hist == [] && raws == [] && alarms == [] && recordedBefore == 0 && lastAlarmAt == 0
      ensures rows == (if n <= 0 then 2048 else n) && this.lib == lib && this.channelId == channelId
      ensures zJumpThreshold == 0.15 && phaseThreshold == 12.0 * pi / 180.0
      ensures fresh(cells)
    {
      var size := RowCount(n);
      this.lib, this.pi, this.channelId, rows := lib, pi, channelId, size;
      cells := new Row[size](_ => BLANK);
      writeIdx, full := 0, false;
      baseline, lastZ := UNSET, ZERO;
      zJumpThreshold, phaseThreshold := 0.15, 12.0 * pi / 180.0;
      alarmCount, lastAlarmIdx := 0, 0;
      recordedBefore, hist := 0, [];
      new;
      Restart();
      Empty(cells[..]);
    }

    /** The smoothing of one quotient. */
    method Smooth(q: Complex)
      requires lastZ == Smoothed(raws)
      modifies this`lastZ, this`raws
      ensures raws == old(raws) + [q] && lastZ == Smoothed(raws)
    {
      SmoothedAppend(raws, q);
      var zr, zi := q.re, q.im;
      if lastZ != ZERO {
        var prevR, prevI := lastZ.re, lastZ.im;
        zr := prevR + ALPHA * (zr - prevR);
        zi := prevI + ALPHA * (zi - prevI);
      }
      lastZ := Complex(zr, zi);
      raws := raws + [q];
    }

    /** The baseline's share of one point. */
    method Learn(zr: real, zi: real, magnitude: real)
      requires magnitude == Mag(lib, Complex(zr, zi)) && magnitude >= 0.0 && baseline.mag >= 0.0
      modifies this`baseline
      ensures baseline == Absorb(lib, old(baseline), Complex(zr, zi)) && baseline.mag >= 0.0
    {
      if !baseline.locked {
        var z0, mag, samples := Complex(baseline.z0.re + zr, baseline.z0.im + zi), baseline.mag + magnitude, baseline.samples + 1;
        baseline := Baseline(z0, mag, false, samples);
        if baseline.samples >= BASELINE_POINTS {
          var invN := 1.0 / baseline.samples as real;
          Scaled0(mag, invN);
          baseline := Baseline(Complex(z0.re * invN, z0.im * invN), mag * invN, true, samples);
        }
      }
    }

    /** A solvable pair is one whose current can be divided by and whose smoothed quotient is not negligible;
        the smoothing remembers the quotient even when it is. */
    method SolveImpedance(v: Phasor, i: Phasor) returns (z: ImpedancePoint, solvable: bool)
      requires Solving()
      modifies this`lastZ, this`baseline, this`raws
      ensures Solving() && start == old(start) && recordedBefore == old(recordedBefore)
      ensures CurrentSq(i) < 0.000_000_000_001 ==> !solvable && raws == old(raws)
      ensures CurrentSq(i) >= 0.000_000_000_001 ==>
                raws == old(raws) + [Quotient(v, i)] && (solvable <==> Mag(lib, lastZ) >= 0.000_000_000_000_001)
      ensures solvable ==> Moved(old(lastZ), Quotient(v, i), z)
      ensures PointsOf(lib, raws) == old(PointsOf(lib, raws)) + if solvable then [lastZ] else []
      ensures Solved(lib, old(raws), 0, 0, v, i) == if solvable then Some(z) else None
      ensures solvable ==> z == ImpedancePoint(0, lastZ.re, lastZ.im, Mag(lib, lastZ), lib.atan2(lastZ.im, lastZ.re), 0)
    {
      z, solvable := ImpedancePoint(0, 0.0, 0.0, 0.0, 0.0, 0), false;
      var iMagSq := CurrentSq(i);
      if iMagSq < MIN_CURRENT_SQ {
        return;
      }
      ghost var points, before := PointsOf(lib, raws), raws;
      PointsAppend(lib, raws, Quotient(v, i), start);
      Smooth(Quotient(v, i));
      var zr, zi := lastZ.re, lastZ.im;
      var magnitude := Mag(lib, Complex(zr, zi));
      if magnitude < MIN_MAGNITUDE {
        assert PointsOf(lib, raws) == points;
        return;
      }
      assert PointsOf(lib, raws) == points + [lastZ];
      SmoothedMoves(before, Quotient(v, i));
      z, solvable := ImpedancePoint(0, zr, zi, magnitude, lib.atan2(zi, zr), 0), true;
      Learn(zr, zi, magnitude);
    }

    /** One row at the write index. */
    method Store(r: Row)
      requires cells.Length == rows && Holds(cells[..], writeIdx, full, hist)
      modifies this`writeIdx, this`full, this`hist, cells
      ensures Holds(cells[..], writeIdx, full, hist) && hist == old(hist) + [r]
      ensures start == old(start) && recordedBefore == old(recordedBefore) && raws == old(raws) && baseline == old(baseline)
    {
      Push(cells[..], writeIdx, full, hist, r);
      cells[writeIdx] := r;
      writeIdx := (writeIdx + 1) % rows;
      if writeIdx == 0 {
        full := true;
      }
      hist := hist + [r];
    }

    ghost function Posted(): Limits { Limits(lib, pi, channelId, rows, zJumpThreshold, phaseThreshold) }

    ghost function Watching(): Watch
      reads this`start, this`raws, this`lastAlarmAt, this`alarms
    {
      Watch(start, PointsOf(lib, raws), lastAlarmAt, alarms)
    }

    /** A matrix that has just compared a point has watched it. */
    lemma HasWatched(was: Watch, z: ImpedancePoint)
      requires Valid() && Watching() == Compared(Posted(), was, baseline, z)
      ensures Watching() == Watched(Posted(), was, z)
    {
      WatchedIs(Posted(), was, baseline, z);
    }

    /** A jump is never divided by zero. */
    lemma DivisorsPositive()
      requires Valid()
      ensures Divisor(baseline.mag) > 0.0
    {
    }

    /** The point just written to `idx`, against a locked baseline. */
    method Check(z: ImpedancePoint, idx: nat, seqNo: nat, timestampNs: nat, ghost at: nat) returns (anomaly: Option<AnomalyEvent>)
      requires pi > 0.0 && baseline.mag >= 0.0 && Alarmed() && idx == Slot(at, rows) && z.seqNo == seqNo && z.timestampNs == timestampNs
      modifies this`alarmCount, this`lastAlarmIdx, this`alarms, this`lastAlarmAt
      ensures Alarmed()
      ensures anomaly.Some? <==> Due(Posted(), baseline, z, at, old(lastAlarmAt))
      ensures var limit, angle := zJumpThreshold * (baseline.mag + 0.000_000_000_000_000_001), lib.atan2(baseline.z0.im, baseline.z0.re);
              anomaly.Some? <==>
              (&& baseline.locked && idx != old(lastAlarmIdx)
               && (|| z.magnitude - baseline.mag > limit || baseline.mag - z.magnitude > limit
                   || z.phase - angle > phaseThreshold || angle - z.phase > phaseThreshold))
      ensures anomaly.Some? ==>
                anomaly.value.deviationPct * (baseline.mag + 0.000_000_000_000_000_001) == 100.0 * (z.magnitude - baseline.mag)
      ensures anomaly.Some? ==> lastAlarmAt == at && anomaly.value == AlarmFor(Posted(), baseline, z, |old(alarms)| + 1)
      ensures anomaly.None? ==> lastAlarmAt == old(lastAlarmAt)
      ensures alarms == old(alarms) + Listed(anomaly)
    {
      anomaly := None;
      OutOfLineIff(lib, z.magnitude, z.phase, baseline, zJumpThreshold, phaseThreshold);
      AlarmSays(Posted(), baseline, z, |alarms| + 1);
      if baseline.locked {
        var deltaR := Jump(z.magnitude, baseline.mag);
        var deltaPhase := PhaseShift(lib, z.phase, baseline.z0);
        if Abs(deltaR) > zJumpThreshold || deltaPhase > phaseThreshold {
          if idx != lastAlarmIdx {
            alarmCount := alarmCount + 1;
            lastAlarmIdx := idx;
            var e := AnomalyEvent(channelId, timestampNs, seqNo, deltaR * 100.0, deltaPhase * 180.0 / pi,
                                  baseline.z0, Complex(z.resistance, z.reactance), alarmCount);
            alarms := alarms + [e];
            lastAlarmAt := at;
            anomaly := Some(e);
          }
        }
      }
    }

    /** Solves one pair and, if it can be solved, writes its row. */
    method Record(seqNo: nat, timestampNs: nat, v: Phasor, i: Phasor) returns (zp: ImpedancePoint, ok: bool)
      requires Recorded()
      modifies this`lastZ, this`baseline, this`raws, this`writeIdx, this`full, this`hist, cells
      ensures Recorded() && baseline.mag >= 0.0 && start == old(start) && recordedBefore == old(recordedBefore)
      ensures ok ==> old(writeIdx) == Slot(|old(hist)|, rows)
      ensures raws == old(raws) + if CurrentSq(i) < MIN_CURRENT_SQ then [] else [Quotient(v, i)]
      ensures Solved(lib, old(raws), seqNo, timestampNs, v, i) == if ok then Some(zp) else None
      ensures ok ==> CurrentSq(i) >= 0.000_000_000_001 && Moved(old(lastZ), Quotient(v, i), zp)
      ensures PointsOf(lib, raws) ==
              if ok then old(PointsOf(lib, raws)) + [Complex(zp.resistance, zp.reactance)] else old(PointsOf(lib, raws))
      ensures hist == old(hist) + if ok then [Row(timestampNs, seqNo, v.magnitude, i.magnitude, zp.resistance,
                                                  zp.reactance, zp.magnitude, zp.phase)] else []
    {
      zp := ImpedancePoint(0, 0.0, 0.0, 0.0, 0.0, 0);
      ghost var points := PointsOf(lib, raws);
      ghost var before := raws;
      var z, solvable := SolveImpedance(v, i);
      SolvedStamped(lib, before, seqNo, timestampNs, v, i, if solvable then Some(z) else None);
      if !solvable {
        return zp, false;
      }
      zp := z.(seqNo := seqNo, timestampNs := timestampNs);
      var r := Row(timestampNs, seqNo, v.magnitude, i.magnitude, z.resistance, z.reactance, z.magnitude, z.phase);
      assert RowOf(r, lastZ) && PointsOf(lib, raws) == points + [lastZ];
      Store(r);
      ok := true;
    }

    /** Solves, records and checks one pair. */
    method AppendRow(seqNo: nat, timestampNs: nat, v: Phasor, i: Phasor)
      returns (zp: ImpedancePoint, anomaly: Option<AnomalyEvent>, ok: bool)
      requires Valid()
      modifies this, cells
      ensures Valid() && start == old(start) && recordedBefore == old(recordedBefore)
      ensures raws == old(raws) + if CurrentSq(i) < 0.000_000_000_001 then [] else [Quotient(v, i)]
      ensures Solved(lib, old(raws), seqNo, timestampNs, v, i) == if ok then Some(zp) else None
      ensures hist == old(hist) + if ok then [Row(timestampNs, seqNo, v.magnitude, i.magnitude, zp.resistance,
                                                  zp.reactance, zp.magnitude, zp.phase)] else []
      ensures alarms == old(alarms) + Listed(anomaly)
      ensures Watching() == if ok then Compared(Posted(), old(Watching()), baseline, zp) else old(Watching())
    {
      anomaly := None;
      var idx := writeIdx;
      zp, ok := Record(seqNo, timestampNs, v, i);
      if !ok {
        return;
      }
      anomaly := Judge(zp, idx, seqNo, timestampNs, old(Watching()));
    }

    /** The alarm rule on the row just written, for the watch `was` before it. */
    method Judge(z: ImpedancePoint, idx: nat, seqNo: nat, timestampNs: nat, ghost was: Watch) returns (anomaly: Option<AnomalyEvent>)
      requires Valid() && idx == Slot(|was.points|, rows) && z.seqNo == seqNo && z.timestampNs == timestampNs
      requires was.alarms == alarms && was.lastAlarmAt == lastAlarmAt && was.start == start
      requires PointsOf(lib, raws) == was.points + [Complex(z.resistance, z.reactance)]
      modifies this`alarmCount, this`lastAlarmIdx, this`alarms, this`lastAlarmAt
      ensures start == old(start) && recordedBefore == old(recordedBefore)
      ensures Valid() && alarms == was.alarms + Listed(anomaly) && Watching() == Compared(Posted(), was, baseline, z)
    {
      anomaly := Check(z, idx, seqNo, timestampNs, |was.points|);
    }

    /** The newest row, if any was written. */
    method LatestRow() returns (r: Row, ok: bool)
      requires Valid()
      ensures ok <==> hist != []
      ensures ok ==> r == hist[|hist| - 1]
    {
      r := BLANK;
      var idx := writeIdx - 1;
      if idx < 0 {
        idx := rows - 1;
      }
      if !full && writeIdx == 0 {
        return r, false;
      }
      Latest(cells[..], writeIdx, full, hist);
      r := cells[idx];
      return r, true;
    }

    /** The cell a reader of the newest `n` rows visits i-th. */
    method RowAt(from: nat, n: nat, i: nat) returns (r: Row)
      requires Valid() && i < n <= Min(|hist|, rows) && from == Start(rows, writeIdx, n)
      ensures r == Newest(hist, n)[i]
    {
      View(cells[..], writeIdx, full, hist, n, i);
      var idx := (from + i) % rows;
      r := cells[idx];
    }

    /** The newest `n` rows, copied column by column. */
    method CopyRecent(n: nat) returns (ts: seq<nat>, zr: seq<real>, zi: seq<real>, zm: seq<real>, zp: seq<real>)
      requires Valid() && n <= Min(|hist|, rows)
      ensures Columns(ts, zr, zi, zm, zp, Newest(hist, n))
    {
      var from := writeIdx - n;
      if from < 0 {
        from := from + rows;
      }
      ts, zr, zi, zm, zp := [], [], [], [], [];
      ghost var w := Newest(hist, n);
      for i := 0 to n
        invariant Columns(ts, zr, zi, zm, zp, w[..i])
      {
        var r := RowAt(from, n, i);
        ColumnsStep(ts, zr, zi, zm, zp, w, i);
        ts, zr, zi, zm, zp := ts + [r.timestampNs], zr + [r.zreal], zi + [r.zimag], zm + [r.zmag], zp + [r.zphase];
      }
      assert w[..n] == w;
    }

    /** The newest `lastN` rows in order, or all that are kept when that is not a possible number. */
    method SnapshotRecent(lastN: int) returns (snap: Snapshot)
      requires Valid()
      ensures var kept := Min(|hist|, rows);
              Shows(snap, Newest(hist, if 0 < lastN <= kept then lastN else kept))
      ensures snap.full == (|hist| >= rows) && snap.alarmCount == |alarms|
      ensures snap.baselineLocked == baseline.locked && snap.baselineZ == baseline.z0
    {
      var total := rows;
      if !full {
        total := writeIdx;
      }
      CountIs(cells[..], writeIdx, full, hist);
      var n: nat := total;
      if 0 < lastN <= total {
        n := lastN;
      }
      var ts, zr, zi, zm, zp := CopyRecent(n);
      snap := Snapshot(n, full, ts, zr, zi, zm, zp, baseline.locked, baseline.z0, alarmCount);
    }

    method Reset()
      requires Valid()
      modifies this, cells
      ensures Valid() && hist == [] && raws == [] && alarms == []
      ensures start == Unlocked(old(baseline)) && recordedBefore == old(recordedBefore + |hist|) && lastAlarmAt == lastAlarmIdx
      ensures forall i :: 0 <= i < rows ==> cells[i] == BLANK
    {
      assert lastAlarmIdx < rows;
      Accumulators();
      Clear();
      Restart();
      Empty(cells[..]);
    }

    /** The scalar fields of a reset: the lock and the count go, the accumulators and the last alarm's row
        stay. */
    method Restart()
      requires lastAlarmIdx < rows && baseline.mag >= 0.0
      requires if recordedBefore + |hist| == 0 then Unlocked(baseline) == UNSET else baseline.mag > 0.0
      modifies this`writeIdx, this`full, this`baseline, this`alarmCount, this`lastZ, this`hist, this`raws, this`alarms,
               this`start, this`recordedBefore, this`lastAlarmAt
      ensures Solving() && Rowed() && Alarmed()
      ensures writeIdx == 0 && !full && hist == [] && raws == [] && alarms == []
      ensures start == Unlocked(old(baseline)) && recordedBefore == old(recordedBefore + |hist|) && lastAlarmAt == lastAlarmIdx
    {
      writeIdx, full := 0, false;
      baseline := Unlocked(baseline);
      alarmCount := 0;
      lastZ := ZERO;
      start, recordedBefore, lastAlarmAt := baseline, recordedBefore + |hist|, lastAlarmIdx;
      hist, raws, alarms := [], [], [];
    }

    method Clear()
      requires cells.Length == rows
      modifies cells
      ensures forall i :: 0 <= i < rows ==> cells[i] == BLANK
    {
      for i := 0 to rows
        invariant forall j :: 0 <= j < i ==> cells[j] == BLANK
      {
        cells[i] := BLANK;
      }
    }
  }
}
