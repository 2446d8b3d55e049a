/** The softening statistics of the bond: a scan of a circular buffer in slot order, against the newest
    entries in the order they came. */
module SofteningTracker {
  import opened Basics
  import opened RingWindow

  datatype Row = Row(tsNs: nat, hardRat: real, phase: real)

  const NO_ROW := Row(0, 0.0, 0.0)

  /** Timestamps are 64-bit, and their difference wraps. */
  function Elapsed(nowNs: nat, tsNs: nat): int {
    if tsNs <= nowNs then nowNs - tsNs else nowNs - tsNs + WORD64
  }

  predicate Qualifies(r: Row, windowNs: nat, nowNs: nat) {
    r.tsNs != 0 && !(nowNs > 0 && Elapsed(nowNs, r.tsNs) > windowNs)
  }

  // ---- the scan -------------------------------------------------------------------------------

  datatype Tally = Tally(valid: nat, sumH: real, sumP: real, minH: real, maxH: real)

  const NOTHING := Tally(0, 0.0, 0.0, 0.0, 0.0)

  function Admit(t: Tally, r: Row): Tally {
    Tally(t.valid + 1, t.sumH + r.hardRat, t.sumP + r.phase,
          if t.valid == 0 || r.hardRat < t.minH then r.hardRat else t.minH,
          if t.valid == 0 || r.hardRat > t.maxH then r.hardRat else t.maxH)
  }

  function Scan(rows: seq<Row>, windowNs: nat, nowNs: nat): Tally {
    if rows == [] then NOTHING
    else
      var t := Scan(rows[..|rows| - 1], windowNs, nowNs);
      if Qualifies(rows[|rows| - 1], windowNs, nowNs) then Admit(t, rows[|rows| - 1]) else t
  }

  /** The tally of two stretches scanned one after the other. */
  function Merge(a: Tally, b: Tally): Tally {
    if a.valid == 0 then b
    else if b.valid == 0 then a
    else Tally(a.valid + b.valid, a.sumH + b.sumH, a.sumP + b.sumP,
               if b.minH < a.minH then b.minH else a.minH, if b.maxH > a.maxH then b.maxH else a.maxH)
  }

  lemma MergeCommutes(a: Tally, b: Tally)
    requires a.valid == 0 ==> a == NOTHING
    requires b.valid == 0 ==> b == NOTHING
    ensures Merge(a, b) == Merge(b, a)
  {
  }

  lemma {:induction false} ScanNothing(rows: seq<Row>, windowNs: nat, nowNs: nat)
    ensures Scan(rows, windowNs, nowNs).valid == 0 ==> Scan(rows, windowNs, nowNs) == NOTHING
  {
    if rows != [] { ScanNothing(rows[..|rows| - 1], windowNs, nowNs); }
  }

  lemma {:induction false} ScanConcat(x: seq<Row>, y: seq<Row>, windowNs: nat, nowNs: nat)
    ensures Scan(x + y, windowNs, nowNs) == Merge(Scan(x, windowNs, nowNs), Scan(y, windowNs, nowNs))
  {
    if y == [] {
      assert x + y == x;
      ScanNothing(x, windowNs, nowNs);
    } else {
      ScanConcat(x, y[..|y| - 1], windowNs, nowNs);
      assert (x + y)[..|x + y| - 1] == x + y[..|y| - 1];
      ScanNothing(x, windowNs, nowNs);
      ScanNothing(y[..|y| - 1], windowNs, nowNs);
    }
  }

  /** The scan does not depend on where in the window it starts. */
  lemma ScanRotated(w: seq<Row>, k: nat, windowNs: nat, nowNs: nat)
    requires k <= |w|
    ensures Scan(w[k..] + w[..k], windowNs, nowNs) == Scan(w, windowNs, nowNs)
  {
    ScanConcat(w[k..], w[..k], windowNs, nowNs);
    ScanConcat(w[..k], w[k..], windowNs, nowNs);
    assert w[..k] + w[k..] == w;
    ScanNothing(w[k..], windowNs, nowNs);
    ScanNothing(w[..k], windowNs, nowNs);
    MergeCommutes(Scan(w[k..], windowNs, nowNs), Scan(w[..k], windowNs, nowNs));
  }

  // ---- what the scan means --------------------------------------------------------------------

  /** The rows the scan keeps, in order. */
  function Kept(rows: seq<Row>, windowNs: nat, nowNs: nat): seq<Row> {
    if rows == [] then []
    else
      var k := Kept(rows[..|rows| - 1], windowNs, nowNs);
      if Qualifies(rows[|rows| - 1], windowNs, nowNs) then k + [rows[|rows| - 1]] else k
  }

  lemma {:induction false} KeptIff(rows: seq<Row>, windowNs: nat, nowNs: nat, r: Row)
    ensures r in Kept(rows, windowNs, nowNs) <==> r in rows && Qualifies(r, windowNs, nowNs)
  {
    if rows != [] {
      var front, last := rows[..|rows| - 1], rows[|rows| - 1];
      assert rows == front + [last];
      KeptIff(front, windowNs, nowNs, r);
    }
  }

  function SumHard(rows: seq<Row>): real {
    if rows == [] then 0.0 else SumHard(rows[..|rows| - 1]) + rows[|rows| - 1].hardRat
  }

  function SumPhase(rows: seq<Row>): real {
    if rows == [] then 0.0 else SumPhase(rows[..|rows| - 1]) + rows[|rows| - 1].phase
  }

  ghost predicate IsLeast(x: real, rows: seq<Row>) {
    (exists r :: r in rows && r.hardRat == x) && forall r :: r in rows ==> x <= r.hardRat
  }

  ghost predicate IsGreatest(x: real, rows: seq<Row>) {
    (exists r :: r in rows && r.hardRat == x) && forall r :: r in rows ==> r.hardRat <= x
  }

  /** A tally of rows: how many, both sums, and the extremes where there are any. */
  ghost predicate Tallies(t: Tally, rows: seq<Row>) {
    && t.valid == |rows|
    && t.sumH == SumHard(rows) && t.sumP == SumPhase(rows)
    && (rows != [] ==> IsLeast(t.minH, rows) && IsGreatest(t.maxH, rows))
  }

  lemma LeastAdmit(rows: seq<Row>, r: Row, least: real)
    requires rows != [] ==> IsLeast(least, rows)
    ensures IsLeast(if rows == [] || r.hardRat < least then r.hardRat else least, rows + [r])
  {
    assert r in rows + [r];
    if rows != [] {
      var lo :| lo in rows && lo.hardRat == least;
      assert lo in rows + [r];
    }
  }

  lemma GreatestAdmit(rows: seq<Row>, r: Row, greatest: real)
    requires rows != [] ==> IsGreatest(greatest, rows)
    ensures IsGreatest(if rows == [] || r.hardRat > greatest then r.hardRat else greatest, rows + [r])
  {
    assert r in rows + [r];
    if rows != [] {
      var hi :| hi in rows && hi.hardRat == greatest;
      assert hi in rows + [r];
    }
  }

  lemma TalliesAdmit(t: Tally, rows: seq<Row>, r: Row)
    requires Tallies(t, rows)
    ensures Tallies(Admit(t, r), rows + [r])
  {
    assert (rows + [r])[..|rows + [r]| - 1] == rows;
    LeastAdmit(rows, r, t.minH);
    GreatestAdmit(rows, r, t.maxH);
  }

  lemma {:induction false} ScanTallies(rows: seq<Row>, windowNs: nat, nowNs: nat)
    ensures Tallies(Scan(rows, windowNs, nowNs), Kept(rows, windowNs, nowNs))
  {
    if rows != [] {
      var front, last := rows[..|rows| - 1], rows[|rows| - 1];
      ScanTallies(front, windowNs, nowNs);
      if Qualifies(last, windowNs, nowNs) {
        TalliesAdmit(Scan(front, windowNs, nowNs), Kept(front, windowNs, nowNs), last);
      }
    }
  }

  // ---- the statistics -------------------------------------------------------------------------

  function Mean(sum: real, n: nat): real
    requires n > 0
  {
    sum / n as real
  }

  function Softening(minH: real, maxH: real): real {
    if maxH > 0.000_000_001 then (maxH - minH) / maxH else 0.0
  }

  /** The statistics of the rows that qualify: nothing below four of them. */
  ghost predicate Describes(avgHard: real, avgPhase: real, degSoftening: real, ok: bool, rows: seq<Row>) {
    && (ok <==> |rows| >= 4)
    && (!ok ==> avgHard == 0.0 && avgPhase == 0.0 && degSoftening == 0.0)
    && (ok ==>
          && avgHard == Mean(SumHard(rows), |rows|) && avgPhase == Mean(SumPhase(rows), |rows|)
          && exists lo, hi :: IsLeast(lo, rows) && IsGreatest(hi, rows) && degSoftening == Softening(lo, hi))
  }

  function Least(rows: seq<Row>): (x: real)
    requires rows != []
    ensures IsLeast(x, rows)
  {
    var front, last := rows[..|rows| - 1], rows[|rows| - 1];
    assert rows == front + [last] && last in rows;
    if front == [] then last.hardRat
    else
      LeastAdmit(front, last, Least(front));
      if last.hardRat < Least(front) then last.hardRat else Least(front)
  }

  function Greatest(rows: seq<Row>): (x: real)
    requires rows != []
    ensures IsGreatest(x, rows)
  {
    var front, last := rows[..|rows| - 1], rows[|rows| - 1];
    assert rows == front + [last] && last in rows;
    if front == [] then last.hardRat
    else
      GreatestAdmit(front, last, Greatest(front));
      if last.hardRat > Greatest(front) then last.hardRat else Greatest(front)
  }

  datatype Statistics = Statistics(avgHard: real, avgPhase: real, degSoft: real)

  /** The statistics as a function of the rows that qualify. */
  function StatisticsOf(rows: seq<Row>): Option<Statistics> {
    if |rows| < 4 then None
    else Some(Statistics(Mean(SumHard(rows), |rows|), Mean(SumPhase(rows), |rows|), Softening(Least(rows), Greatest(rows))))
  }

  /** What describes rows is their statistics and nothing else. */
  lemma DescribesIff(avgHard: real, avgPhase: real, degSoftening: real, rows: seq<Row>)
    ensures Describes(avgHard, avgPhase, degSoftening, true, rows) <==>
            StatisticsOf(rows) == Some(Statistics(avgHard, avgPhase, degSoftening))
  {
    if |rows| >= 4 {
      var lo, hi := Least(rows), Greatest(rows);
      forall x, y | IsLeast(x, rows) && IsGreatest(y, rows) ensures x == lo && y == hi { OneExtreme(rows, x, y, lo, hi); }
    }
  }

  lemma OneExtreme(rows: seq<Row>, x: real, y: real, lo: real, hi: real)
    requires IsLeast(x, rows) && IsLeast(lo, rows) && IsGreatest(y, rows) && IsGreatest(hi, rows)
    ensures x == lo && y == hi
  {
  }

  lemma Scale(lo: real, hi: real, x: real, n: real)
    requires lo <= x <= hi && n >= 0.0
    ensures lo * (n + 1.0) == lo * n + lo && hi * (n + 1.0) == hi * n + hi
  {
  }

  lemma {:induction false} SumBetween(rows: seq<Row>, lo: real, hi: real)
    requires forall r :: r in rows ==> lo <= r.hardRat <= hi
    ensures lo * |rows| as real <= SumHard(rows) <= hi * |rows| as real
  {
    if rows != [] {
      SumBetween(rows[..|rows| - 1], lo, hi);
      assert rows[|rows| - 1] in rows;
      Scale(lo, hi, rows[|rows| - 1].hardRat, (|rows| - 1) as real);
    }
  }

  lemma Positive(a: real, b: real)
    requires a > 0.0 && b > 0.0
    ensures a * b > 0.0
  {
  }

  lemma Smaller(a: real, b: real, c: real)
    requires a < b && c > 0.0
    ensures a * c < b * c
  {
  }

  lemma Divide(lo: real, hi: real, s: real, n: real)
    requires n > 0.0 && lo * n <= s <= hi * n
    ensures lo <= s / n <= hi
  {
    var q := s / n;
    assert q * n == s;
    if q < lo { Positive(lo - q, n); }
    if q > hi { Positive(q - hi, n); }
  }

  /** The mean lies between the extremes, whatever the sign of the data. */
  lemma MeanBetween(rows: seq<Row>, lo: real, hi: real)
    requires rows != [] && IsLeast(lo, rows) && IsGreatest(hi, rows)
    ensures lo <= Mean(SumHard(rows), |rows|) <= hi
  {
    SumBetween(rows, lo, hi);
    MeanDivides(lo, hi, SumHard(rows), |rows|);
  }

  lemma MeanDivides(lo: real, hi: real, sum: real, n: nat)
    requires n > 0 && lo * n as real <= sum <= hi * n as real
    ensures lo <= Mean(sum, n) <= hi
  {
    Divide(lo, hi, sum, n as real);
  }

  lemma Quotient(lo: real, hi: real)
    requires lo <= hi && hi > 0.0
    ensures 0.0 <= (hi - lo) / hi && ((hi - lo) / hi < 1.0 <==> lo > 0.0) && ((hi - lo) / hi == 0.0 <==> lo == hi)
  {
    var q := (hi - lo) / hi;
    assert q * hi == hi - lo;
    if q < 0.0 {
      Positive(-q, hi);
    } else if q > 0.0 {
      Positive(q, hi);
      if q < 1.0 { Smaller(q, 1.0, hi); }
      if q > 1.0 { Smaller(1.0, q, hi); }
    }
  }

  /** The softening degree of positive hardness values is a fraction in [0, 1); it vanishes exactly when
      the hardness did not vary, or was too small to divide by. */
  lemma SofteningIsFraction(rows: seq<Row>, lo: real, hi: real)
    requires IsLeast(lo, rows) && IsGreatest(hi, rows)
    requires forall r :: r in rows ==> r.hardRat > 0.0
    ensures 0.0 <= Softening(lo, hi) < 1.0
    ensures Softening(lo, hi) == 0.0 <==> lo == hi || hi <= 0.000_000_001
  {
    var r :| r in rows && r.hardRat == lo;
    assert lo <= hi;
    Quotient(lo, hi);
  }

  /** The degree is the part of the greatest hardness that the least one lacks, and nothing when there is too little
      to divide by. */
  predicate Lacks(degSoftening: real, lo: real, hi: real) {
    if hi > 0.000_000_001 then degSoftening * hi == hi - lo && lo == (1.0 - degSoftening) * hi else degSoftening == 0.0
  }

  /** Reported statistics: the sums over the count, and the degree in terms of the extremes, whatever they are. */
  lemma MeansSay(avgHard: real, avgPhase: real, degSoftening: real, rows: seq<Row>)
    requires Describes(avgHard, avgPhase, degSoftening, true, rows)
    ensures avgHard * |rows| as real == SumHard(rows) && avgPhase * |rows| as real == SumPhase(rows)
  {
    MeanTimes(SumHard(rows), |rows|);
    MeanTimes(SumPhase(rows), |rows|);
  }

  lemma MeanTimes(sum: real, n: nat)
    requires n > 0
    ensures Mean(sum, n) * n as real == sum
  {
  }

  lemma SofteningSays(avgHard: real, avgPhase: real, degSoftening: real, rows: seq<Row>, lo: real, hi: real)
    requires Describes(avgHard, avgPhase, degSoftening, true, rows) && IsLeast(lo, rows) && IsGreatest(hi, rows)
    ensures hi > 0.000_000_001 ==> degSoftening * hi == hi - lo && lo == (1.0 - degSoftening) * hi
    ensures hi <= 0.000_000_001 ==> degSoftening == 0.0
  {
    ExtremesOnly(avgHard, avgPhase, degSoftening, rows, lo, hi);
    if hi > 0.000_000_001 { SofteningTimes(lo, hi, degSoftening); }
  }

  lemma ExtremesOnly(avgHard: real, avgPhase: real, degSoftening: real, rows: seq<Row>, lo: real, hi: real)
    requires Describes(avgHard, avgPhase, degSoftening, true, rows) && IsLeast(lo, rows) && IsGreatest(hi, rows)
    ensures degSoftening == Softening(lo, hi)
  {
    var x, y :| IsLeast(x, rows) && IsGreatest(y, rows) && degSoftening == Softening(x, y);
    OneExtreme(rows, x, y, lo, hi);
  }

  lemma SofteningTimes(lo: real, hi: real, d: real)
    requires hi > 0.000_000_001 && d == (hi - lo) / hi
    ensures d * hi == hi - lo && lo == (1.0 - d) * hi
  {
    assert d * hi == hi - lo;
    assert (1.0 - d) * hi == hi - d * hi;
  }

  lemma AllExtremesSay(avgHard: real, avgPhase: real, degSoftening: real, rows: seq<Row>)
    requires Describes(avgHard, avgPhase, degSoftening, true, rows)
    ensures forall lo, hi :: IsLeast(lo, rows) && IsGreatest(hi, rows) ==> Lacks(degSoftening, lo, hi)
  {
    forall lo, hi | IsLeast(lo, rows) && IsGreatest(hi, rows) ensures Lacks(degSoftening, lo, hi) {
      SofteningSays(avgHard, avgPhase, degSoftening, rows, lo, hi);
    }
  }

  // ---- the time window ------------------------------------------------------------------------

  /** Positive timestamps that never go back, none past `nowNs`. */
  ghost predicate Stamped(rows: seq<Row>, nowNs: nat) {
    && nowNs < WORD64
    && (forall i :: 0 <= i < |rows| ==> 0 < rows[i].tsNs <= nowNs)
    && (forall i, j :: 0 <= i < j < |rows| ==> rows[i].tsNs <= rows[j].tsNs)
  }

  /** For such timestamps a row qualifies exactly when it lies within the window. */
  lemma QualifiesIff(r: Row, windowNs: nat, nowNs: nat)
    requires 0 < r.tsNs <= nowNs < WORD64
    ensures Qualifies(r, windowNs, nowNs) <==> nowNs - r.tsNs <= windowNs
  {
  }

  /** A stamp from the future passes only if the wrapped difference is still inside the window. */
  lemma FutureQualifiesIff(r: Row, windowNs: nat, nowNs: nat)
    requires 0 < nowNs < r.tsNs < WORD64
    ensures Qualifies(r, windowNs, nowNs) <==> r.tsNs - nowNs >= WORD64 - windowNs
  {
  }

  /** A row without a stamp never qualifies, and at time zero every other one does. */
  lemma UnstampedNever(r: Row, windowNs: nat, nowNs: nat)
    ensures r.tsNs == 0 ==> !Qualifies(r, windowNs, nowNs)
    ensures r.tsNs > 0 ==> Qualifies(r, windowNs, 0)
  {
  }

  lemma StampedFront(rows: seq<Row>, nowNs: nat)
    requires Stamped(rows, nowNs) && rows != []
    ensures Stamped(rows[..|rows| - 1], nowNs)
  {
  }

  lemma {:induction false} NoneKept(rows: seq<Row>, windowNs: nat, nowNs: nat)
    requires Stamped(rows, nowNs)
    requires rows != [] ==> nowNs - rows[|rows| - 1].tsNs > windowNs
    ensures Kept(rows, windowNs, nowNs) == []
  {
    if |rows| > 0 {
      StampedFront(rows, nowNs);
      QualifiesIff(rows[|rows| - 1], windowNs, nowNs);
      NoneKept(rows[..|rows| - 1], windowNs, nowNs);
    }
  }

  /** How many of the rows lie outside the window: they are the oldest. */
  function Outside(rows: seq<Row>, windowNs: nat, nowNs: nat): (k: nat)
    ensures k <= |rows|
  {
    if rows == [] then 0
    else if nowNs - rows[|rows| - 1].tsNs > windowNs then |rows|
    else Outside(rows[..|rows| - 1], windowNs, nowNs)
  }

  lemma {:induction false} OutsideIsPrefix(rows: seq<Row>, windowNs: nat, nowNs: nat, i: nat)
    requires Stamped(rows, nowNs) && i < |rows|
    ensures Outside(rows, windowNs, nowNs) <= i <==> nowNs - rows[i].tsNs <= windowNs
  {
    if i < |rows| - 1 {
      StampedFront(rows, nowNs);
      OutsideIsPrefix(rows[..|rows| - 1], windowNs, nowNs, i);
    }
  }

  /** What qualifies is then a suffix: the newest entries, none skipped. */
  lemma {:induction false} KeptIsSuffix(rows: seq<Row>, windowNs: nat, nowNs: nat)
    requires Stamped(rows, nowNs)
    ensures Kept(rows, windowNs, nowNs) == rows[Outside(rows, windowNs, nowNs)..]
  {
    if rows != [] {
      var front, last := rows[..|rows| - 1], rows[|rows| - 1];
      if nowNs - last.tsNs <= windowNs {
        StampedFront(rows, nowNs);
        QualifiesIff(last, windowNs, nowNs);
        KeptIsSuffix(front, windowNs, nowNs);
        SuffixSnoc(rows, Outside(front, windowNs, nowNs));
      } else {
        NoneKept(rows, windowNs, nowNs);
      }
    }
  }

  lemma SuffixSnoc(rows: seq<Row>, k: nat)
    requires k < |rows|
    ensures rows[k..] == rows[..|rows| - 1][k..] + [rows[|rows| - 1]]
  {
  }

  lemma ScanStep(cells: seq<Row>, i: nat, windowNs: nat, nowNs: nat)
    requires i < |cells|
    ensures Scan(cells[..i + 1], windowNs, nowNs) ==
            var t := Scan(cells[..i], windowNs, nowNs);
            if Qualifies(cells[i], windowNs, nowNs) then Admit(t, cells[i]) else t
  {
    assert cells[..i + 1][..i] == cells[..i];
  }

  lemma TalliesDescribe(t: Tally, kept: seq<Row>)
    requires Tallies(t, kept)
    ensures t.valid < 4 ==> Describes(0.0, 0.0, 0.0, false, kept)
    ensures t.valid >= 4 ==>
              Describes(Mean(t.sumH, t.valid), Mean(t.sumP, t.valid), Softening(t.minH, t.maxH), true, kept)
  {
  }

  class SofteningTracker {
    const capacity: nat
    const rows: array<Row>
    var idx: nat
    var full: bool
    ghost var hist: seq<Row>

    ghost predicate Valid()
      reads this, rows
    {
      capacity > 0 && rows.Length == capacity && Holds(rows[..], idx, full, hist)
    }

    constructor (n: nat)
      requires n > 0
      ensures Valid() && hist == [] && capacity == n && fresh(rows)
    {
      capacity := n;
      rows := new Row[n](_ => NO_ROW);
      idx, full, hist := 0, false, [];
      new;
      Empty(rows[..]);
    }

    method Push(tsNs: nat, hardRat: real, phase: real)
      requires Valid()
      modifies this, rows
      ensures Valid() && hist == old(hist) + [Row(tsNs, hardRat, phase)]
    {
      RingWindow.Push(rows[..], idx, full, hist, Row(tsNs, hardRat, phase));
      rows[idx] := Row(tsNs, hardRat, phase);
      idx := (idx + 1) % capacity;
      if idx == 0 {
        full := true;
      }
      hist := hist + [Row(tsNs, hardRat, phase)];
    }

    /** The scanned cells, in slot order, tally as the window does in order of arrival. */
    lemma ScanIsWindow(windowNs: nat, nowNs: nat)
      requires Valid()
      ensures (if full then capacity else idx) <= rows.Length
      ensures Scan(rows[..if full then capacity else idx], windowNs, nowNs) ==
              Scan(Window(hist, capacity), windowNs, nowNs)
    {
      Rotation(rows[..], idx, full, hist);
      if full {
        ScanRotated(Newest(hist, capacity), capacity - idx, windowNs, nowNs);
        assert rows[..capacity] == rows[..];
      } else {
        assert Window(hist, capacity) == hist == rows[..][..idx] == rows[..idx];
      }
    }

    /** The loop of `stats`: one pass over the cells in use, in slot order. */
    method Sweep(windowNs: nat, nowNs: nat)
      returns (valid: nat, sumH: real, sumP: real, minH: real, maxH: real)
      requires Valid()
      ensures Tallies(Tally(valid, sumH, sumP, minH, maxH), Kept(Window(hist, capacity), windowNs, nowNs))
    {
      valid, sumH, sumP, minH, maxH := 0, 0.0, 0.0, 0.0, 0.0;
      var first := true;
      var limit := capacity;
      if !full {
        limit := idx;
      }
      ScanIsWindow(windowNs, nowNs);
      ghost var cells := rows[..limit];
      var i := 0;
      while i < limit
        invariant 0 <= i <= limit
        invariant Scan(cells[..i], windowNs, nowNs) == Tally(valid, sumH, sumP, minH, maxH)
        invariant first <==> valid == 0
      {
        ScanStep(cells, i, windowNs, nowNs);
        var r := rows[i];
        i := i + 1;
        if r.tsNs == 0 {
          continue;
        }
        if nowNs > 0 && Elapsed(nowNs, r.tsNs) > windowNs {
          continue;
        }
        valid := valid + 1;
        sumH := sumH + r.hardRat;
        sumP := sumP + r.phase;
        if first || r.hardRat < minH {
          minH := r.hardRat;
        }
        if first || r.hardRat > maxH {
          maxH := r.hardRat;
        }
        first := false;
      }
      assert cells[..limit] == cells;
      ScanTallies(Window(hist, capacity), windowNs, nowNs);
    }

    /** The statistics of the newest `capacity` pushes that lie within the window. */
    method Stats(windowNs: nat, nowNs: nat) returns (avgHard: real, avgPhase: real, degSoftening: real, ok: bool)
      requires Valid()
      ensures Describes(avgHard, avgPhase, degSoftening, ok, Kept(Window(hist, capacity), windowNs, nowNs))
      ensures StatisticsOf(Kept(Window(hist, capacity), windowNs, nowNs)) ==
              if ok then Some(Statistics(avgHard, avgPhase, degSoftening)) else None
    {
      var valid, sumH, sumP, minH, maxH := Sweep(windowNs, nowNs);
      TalliesDescribe(Tally(valid, sumH, sumP, minH, maxH), Kept(Window(hist, capacity), windowNs, nowNs));
      if valid < 4 {
        return 0.0, 0.0, 0.0, false;
      }
      avgHard, avgPhase, degSoftening, ok := Mean(sumH, valid), Mean(sumP, valid), Softening(minH, maxH), true;
      DescribesIff(avgHard, avgPhase, degSoftening, Kept(Window(hist, capacity), windowNs, nowNs));
    }
  }
}
