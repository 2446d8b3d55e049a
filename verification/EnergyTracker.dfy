/** The running energy of the bond: an accumulator that adds the newest entry and subtracts the one
    its slot held, against the sum over the window. */
module EnergyTracker {
  import opened Basics
  import opened RingWindow
  import opened PhasorMath

  datatype Row = Row(tsNs: nat, vI: real, qI: real)

  const NO_ROW := Row(0, 0.0, 0.0)

  /** A row together with the time step it was pushed with, which the tracker itself does not keep. */
  datatype Charge = Charge(row: Row, dtNs: real)

  /** `math.Hypot`. */
  function Hypot(m: Libm, a: real, b: real): real { m.sqrt(a * a + b * b) }

  function Power(m: Libm, r: Row): real { Hypot(m, r.vI, r.qI) }

  function Joules(p: real, dtNs: real): real { p * (dtNs * 0.000_000_001) }

  /** The energy an entry adds: its power over its own time step. */
  function Worth(m: Libm, c: Charge): real { Joules(Power(m, c.row), c.dtNs) }

  function Sum(m: Libm, cs: seq<Charge>): real {
    if cs == [] then 0.0 else Sum(m, cs[..|cs| - 1]) + Worth(m, cs[|cs| - 1])
  }

  /** Time steps are positive. */
  ghost predicate Forward(cs: seq<Charge>) { forall c :: c in cs ==> c.dtNs > 0.0 }

  /** No entry carries any power. */
  ghost predicate Dead(m: Libm, cs: seq<Charge>) { forall c :: c in cs ==> Power(m, c.row) == 0.0 }

  lemma {:induction false} SumFirst(m: Libm, cs: seq<Charge>)
    requires cs != []
    ensures Sum(m, cs) == Worth(m, cs[0]) + Sum(m, cs[1..])
  {
    if |cs| > 1 {
      SumFirst(m, cs[..|cs| - 1]);
      assert cs[1..][..|cs| - 2] == cs[..|cs| - 1][1..];
    }
  }

  lemma PowerNonnegative(m: Libm, r: Row)
    requires IsSqrt(m)
    ensures Power(m, r) >= 0.0
  {
    Square(r.vI);
    Square(r.qI);
  }

  lemma JoulesSign(p: real, dtNs: real)
    requires p >= 0.0 && dtNs > 0.0
    ensures Joules(p, dtNs) >= 0.0 && (Joules(p, dtNs) == 0.0 <==> p == 0.0)
  {
    var s := dtNs * 0.000_000_001;
    if p > 0.0 { assert p * s > 0.0; }
  }

  lemma JoulesOrder(p: real, d: real, e: real)
    requires p > 0.0 && d < e
    ensures Joules(p, d) < Joules(p, e)
  {
    var s, t := d * 0.000_000_001, e * 0.000_000_001;
    assert p * (t - s) > 0.0;
  }

  /** A window's energy is never negative, and nothing exactly when no entry carries power. */
  lemma {:induction false} SumSign(m: Libm, cs: seq<Charge>)
    requires IsSqrt(m) && Forward(cs)
    ensures Sum(m, cs) >= 0.0 && (Sum(m, cs) == 0.0 <==> Dead(m, cs))
  {
    if cs != [] {
      var front, last := cs[..|cs| - 1], cs[|cs| - 1];
      assert cs == front + [last] && last in cs;
      SumSign(m, front);
      PowerNonnegative(m, last.row);
      JoulesSign(Power(m, last.row), last.dtNs);
    }
  }

  /** The accumulator after one push, before and after the clamp at zero. */
  function Unclamped(acc: real, subJ: real, addJ: real): real { acc - subJ + addJ }

  function Clamped(x: real): real { if x < 0.0 then 0.0 else x }

  /** What a push subtracts: the evicted power over the step of the push, if the slot was ever stamped. */
  function Subtracted(m: Libm, cs: seq<Charge>, cap: nat, dtNs: real): real
    requires cap > 0
  {
    if |cs| >= cap && Newest(cs, cap)[0].row.tsNs > 0 then Joules(Power(m, Newest(cs, cap)[0].row), dtNs) else 0.0
  }

  function Next(m: Libm, acc: real, cs: seq<Charge>, cap: nat, c: Charge): real
    requires cap > 0
  {
    Clamped(Unclamped(acc, Subtracted(m, cs, cap, c.dtNs), Worth(m, c)))
  }

  /** The accumulator after any run of pushes. */
  function Accumulated(m: Libm, cap: nat, cs: seq<Charge>): real
    requires cap > 0
  {
    if cs == [] then 0.0
    else Next(m, Accumulated(m, cap, cs[..|cs| - 1]), cs[..|cs| - 1], cap, cs[|cs| - 1])
  }

  ghost predicate Exact(m: Libm, acc: real, cap: nat, cs: seq<Charge>) { acc == Sum(m, Window(cs, cap)) }

  /** Sliding the window by one: the newest entry comes in and, once full, the oldest goes out. */
  lemma WindowSlides(m: Libm, cs: seq<Charge>, cap: nat, c: Charge)
    requires cap > 0
    ensures |cs| < cap ==> Sum(m, Window(cs + [c], cap)) == Sum(m, Window(cs, cap)) + Worth(m, c)
    ensures |cs| >= cap ==>
              var w := Window(cs, cap);
              && w[0] == Newest(cs, cap)[0] && Window(cs + [c], cap) == w[1..] + [c]
              && Sum(m, w) == Worth(m, w[0]) + Sum(m, w[1..])
              && Sum(m, Window(cs + [c], cap)) == Sum(m, w[1..]) + Worth(m, c)
  {
    var w, w' := Window(cs, cap), Window(cs + [c], cap);
    if |cs| >= cap {
      SumFirst(m, w);
      assert w' == w[1..] + [c];
      assert w'[..|w'| - 1] == w[1..];
    } else {
      assert w' == w + [c];
      assert w'[..|w'| - 1] == w;
    }
  }

  /** When one more push keeps the accumulator right: nothing is evicted; what is evicted carried no power;
      or it was stamped and the time step has not changed, or has only grown while nothing in the new
      window carries power, where the clamp hides the overdraft. */
  ghost predicate Harmless(m: Libm, cs: seq<Charge>, cap: nat, c: Charge)
    requires cap > 0
  {
    |cs| < cap ||
    var out := Newest(cs, cap)[0];
    || Power(m, out.row) == 0.0
    || (out.row.tsNs > 0 && (c.dtNs == out.dtNs || (c.dtNs > out.dtNs && Dead(m, Window(cs + [c], cap)))))
  }

  lemma Evict(rest: real, added: real, subtracted: real, addJ: real)
    requires rest >= 0.0 && addJ >= 0.0
    ensures Clamped(Unclamped(rest + added, subtracted, addJ)) == rest + addJ <==>
            (subtracted == added || (subtracted > added && rest + addJ == 0.0))
  {
  }

  /** From a right accumulator the next one is right if and only if the push is harmless. */
  lemma EvictionExactIff(m: Libm, cs: seq<Charge>, cap: nat, c: Charge)
    requires IsSqrt(m) && cap > 0 && Forward(cs + [c])
    ensures Exact(m, Next(m, Sum(m, Window(cs, cap)), cs, cap, c), cap, cs + [c]) <==> Harmless(m, cs, cap, c)
  {
    WindowSlides(m, cs, cap, c);
    assert Forward(Window(cs, cap)) && Forward(Window(cs + [c], cap)) && c in cs + [c];
    PowerNonnegative(m, c.row);
    JoulesSign(Power(m, c.row), c.dtNs);
    if |cs| >= cap {
      EvictOne(m, Window(cs, cap), c);
    } else {
      SumSign(m, Window(cs, cap));
    }
  }

  lemma EvictOne(m: Libm, w: seq<Charge>, c: Charge)
    requires IsSqrt(m) && w != [] && Forward(w) && Forward(w[1..] + [c])
    ensures var sub := if w[0].row.tsNs > 0 then Joules(Power(m, w[0].row), c.dtNs) else 0.0;
            Clamped(Unclamped(Worth(m, w[0]) + Sum(m, w[1..]), sub, Worth(m, c))) == Sum(m, w[1..]) + Worth(m, c) <==>
            (|| Power(m, w[0].row) == 0.0
             || (w[0].row.tsNs > 0 && (c.dtNs == w[0].dtNs || (c.dtNs > w[0].dtNs && Dead(m, w[1..] + [c])))))
  {
    var p, d, e := Power(m, w[0].row), w[0].dtNs, c.dtNs;
    assert w[0] in w && c in w[1..] + [c] && (w[1..] + [c])[..|w| - 1] == w[1..];
    SumSign(m, w[1..]);
    SumSign(m, w[1..] + [c]);
    PowerNonnegative(m, w[0].row);
    PowerNonnegative(m, c.row);
    JoulesSign(p, d);
    JoulesSign(p, e);
    JoulesSign(Power(m, c.row), e);
    if p > 0.0 && d < e { JoulesOrder(p, d, e); }
    if p > 0.0 && e < d { JoulesOrder(p, e, d); }
    Evict(Sum(m, w[1..]), Worth(m, w[0]), if w[0].row.tsNs > 0 then Joules(p, e) else 0.0, Worth(m, c));
  }

  /** The accumulator is the windowed sum after the run and after each of its beginnings. */
  ghost predicate AlwaysExact(m: Libm, cap: nat, cs: seq<Charge>)
    requires cap > 0
  {
    Exact(m, Accumulated(m, cap, cs), cap, cs) && (cs == [] || AlwaysExact(m, cap, cs[..|cs| - 1]))
  }

  ghost predicate AllHarmless(m: Libm, cap: nat, cs: seq<Charge>)
    requires cap > 0
  {
    cs == [] || (Harmless(m, cs[..|cs| - 1], cap, cs[|cs| - 1]) && AllHarmless(m, cap, cs[..|cs| - 1]))
  }

  /** A whole run: the accumulator equals the windowed sum after every push if and only if every push was
      harmless. */
  lemma {:induction false} ExactRunIff(m: Libm, cap: nat, cs: seq<Charge>)
    requires IsSqrt(m) && cap > 0 && Forward(cs)
    ensures AlwaysExact(m, cap, cs) <==> AllHarmless(m, cap, cs)
  {
    if cs != [] {
      var front, last := cs[..|cs| - 1], cs[|cs| - 1];
      assert cs == front + [last];
      ExactRunIff(m, cap, front);
      EvictionExactIff(m, front, cap, last);
    }
  }

  lemma PushAccumulates(m: Libm, cap: nat, cs: seq<Charge>, c: Charge)
    requires cap > 0
    ensures Accumulated(m, cap, cs + [c]) == Next(m, Accumulated(m, cap, cs), cs, cap, c)
    ensures IsSqrt(m) && Forward(cs + [c]) && Exact(m, Accumulated(m, cap, cs), cap, cs) ==>
              (Exact(m, Accumulated(m, cap, cs + [c]), cap, cs + [c]) <==> Harmless(m, cs, cap, c))
  {
    assert (cs + [c])[..|cs|] == cs;
    if IsSqrt(m) && Forward(cs + [c]) { EvictionExactIff(m, cs, cap, c); }
  }

  /** Every entry stamped, every time step the same. */
  ghost predicate Steady(cs: seq<Charge>, dtNs: real) { forall c :: c in cs ==> c.row.tsNs > 0 && c.dtNs == dtNs }

  /** With one time step throughout the accumulator is the sum over the window. */
  lemma {:induction false} SteadyRun(m: Libm, cap: nat, cs: seq<Charge>, dtNs: real)
    requires IsSqrt(m) && cap > 0 && dtNs > 0.0 && Steady(cs, dtNs)
    ensures Exact(m, Accumulated(m, cap, cs), cap, cs)
  {
    if cs != [] {
      var front, last := cs[..|cs| - 1], cs[|cs| - 1];
      assert cs == front + [last] && last in cs;
      SteadyRun(m, cap, front, dtNs);
      if |front| >= cap { assert Newest(front, cap)[0] in front; }
      EvictionExactIff(m, front, cap, last);
    }
  }

  /** And the clamp at zero does not act. */
  lemma SteadyUnclamped(m: Libm, cap: nat, cs: seq<Charge>, c: Charge, dtNs: real)
    requires IsSqrt(m) && cap > 0 && dtNs > 0.0 && Steady(cs + [c], dtNs)
    ensures var acc := Accumulated(m, cap, cs);
            Unclamped(acc, Subtracted(m, cs, cap, c.dtNs), Worth(m, c)) == Sum(m, Window(cs + [c], cap)) >= 0.0
  {
    assert forall x :: x in cs ==> x in cs + [c];
    assert c in cs + [c];
    SteadyRun(m, cap, cs, dtNs);
    WindowSlides(m, cs, cap, c);
    if |cs| >= cap { assert Newest(cs, cap)[0] in cs; }
    SumSign(m, Window(cs + [c], cap));
  }

  /** `n` pushes of one watt, 10000 ns apart. */
  function OneWatt(n: nat): seq<Charge> {
    seq(n, i requires 0 <= i < n => Charge(Row(10_000 * (i + 1), 1.0, 0.0), 10_000.0))
  }

  /** A nanosecond is a billionth of a second. */
  lemma JoulesAre(p: real, dtNs: real)
    ensures Joules(p, dtNs) == p * dtNs / 1_000_000_000.0
  {
    assert p * (dtNs * 0.000_000_001) == (p * dtNs) * 0.000_000_001;
  }

  lemma {:induction false} SumOfWatts(m: Libm, cs: seq<Charge>)
    requires IsSqrt(m) && forall c :: c in cs ==> c.row.vI == 1.0 && c.row.qI == 0.0 && c.dtNs == 10_000.0
    ensures Sum(m, cs) == 0.000_01 * |cs| as real
  {
    if cs != [] {
      var front, last := cs[..|cs| - 1], cs[|cs| - 1];
      assert cs == front + [last] && last in cs;
      SumOfWatts(m, front);
      SqrtOfSquare(m, 1.0 * 1.0 + 0.0 * 0.0, 1.0);
    }
  }

  /** One watt over 10000 ns is 0.00001 J: after n pushes there are n of them in the accumulator, and never more than
      the tracker holds. */
  lemma WattsAddUp(m: Libm, cap: nat, n: nat)
    requires IsSqrt(m) && cap > 0
    ensures Accumulated(m, cap, OneWatt(n)) == 0.000_01 * (if n < cap then n else cap) as real
  {
    SteadyRun(m, cap, OneWatt(n), 10_000.0);
    SumOfWatts(m, Window(OneWatt(n), cap));
  }

  /** A failing input for every capacity: a full window of one watt each, then one more sample that comes
      20000 ns after the last. */
  lemma SkippedSampleDrifts(m: Libm, cap: nat)
    requires IsSqrt(m) && cap > 0
    ensures var late := Charge(Row(10_000 * cap + 20_000, 1.0, 0.0), 20_000.0);
            !Exact(m, Accumulated(m, cap, OneWatt(cap) + [late]), cap, OneWatt(cap) + [late])
  {
    var cs, late := OneWatt(cap), Charge(Row(10_000 * cap + 20_000, 1.0, 0.0), 20_000.0);
    SteadyRun(m, cap, cs, 10_000.0);
    SqrtOfSquare(m, 1.0 * 1.0 + 0.0 * 0.0, 1.0);
    assert Newest(cs, cap)[0] == cs[0];
    assert Window(cs + [late], cap)[cap - 1] == late;
    EvictionExactIff(m, cs, cap, late);
    assert (cs + [late])[..cap] == cs;
  }

  class EnergyTracker {
    const lib: Libm
    const capacity: posnat
    const rows: array<Row>
    var idx: nat
    var full: bool
    var accJ: real
    ghost var hist: seq<Row>
    ghost var charges: seq<Charge>

    ghost predicate Valid()
      reads this, rows
    {
      && Stored() && |charges| == |hist| && (forall k :: 0 <= k < |hist| ==> charges[k].row == hist[k])
      && accJ == Accumulated(lib, capacity, charges)
    }

    /** The ring holds the newest rows, and cells never written hold none. */
    ghost predicate Stored()
      reads this`idx, this`full, this`hist, rows
    {
      && capacity > 0 && rows.Length == capacity
      && Holds(rows[..], idx, full, hist)
      && (forall i :: |hist| <= i < capacity ==> rows[i] == NO_ROW)
    }

    constructor (lib: Libm, n: nat)
      requires n > 0
      ensures Valid() && hist == [] && charges == [] && accJ == 0.0 && capacity == n && this.lib == lib && fresh(rows)
    {
      this.lib := lib;
      capacity := n;
      rows := new Row[n](_ => NO_ROW);
      idx, full, accJ, hist, charges := 0, false, 0.0, [], [];
      new;
      Empty(rows[..]);
    }

    /** What the slot about to be written still accounts for, at the step of the push. */
    lemma EvictedIs(dtNs: real)
      requires Valid()
      ensures idx < rows.Length
      ensures (if rows[idx].tsNs > 0 then Joules(Power(lib, rows[idx]), dtNs) else 0.0) ==
              Subtracted(lib, charges, capacity, dtNs)
    {
      if full {
        Oldest(rows[..], idx, full, hist);
      } else {
        Rotation(rows[..], idx, full, hist);
      }
    }

    /** The arithmetic of a push. */
    method Account(tsNs: nat, vI: real, qI: real, dtNs: real)
      requires Valid()
      modifies this`accJ
      ensures accJ == Next(lib, old(accJ), charges, capacity, Charge(Row(tsNs, vI, qI), dtNs)) && Stored()
      ensures hist == old(hist) && charges == old(charges)
    {
      EvictedIs(dtNs);
      var instPow := Hypot(lib, vI, qI);
      var addJ := Joules(instPow, dtNs);
      var prev := rows[idx];
      if prev.tsNs > 0 {
        var oldPow := Hypot(lib, prev.vI, prev.qI);
        var subJ := Joules(oldPow, dtNs);
        accJ := accJ - subJ;
      }
      accJ := accJ + addJ;
      if accJ < 0.0 {
        accJ := 0.0;
      }
    }

    method Store(r: Row)
      requires Stored()
      modifies this`idx, this`full, this`hist, rows
      ensures Stored() && hist == old(hist) + [r] && charges == old(charges) && accJ == old(accJ)
    {
      RingWindow.Push(rows[..], idx, full, hist, r);
      if |hist| < capacity { Rotation(rows[..], idx, full, hist); }
      rows[idx] := r;
      idx := (idx + 1) % capacity;
      if idx == 0 {
        full := true;
      }
      hist := hist + [r];
    }

    /** The accumulator stays that of the run; from the windowed sum it goes to the windowed sum exactly
        when the push is harmless. */
    method Push(tsNs: nat, vI: real, qI: real, dtNs: real)
      requires Valid()
      modifies this, rows
      ensures Valid() && hist == old(hist) + [Row(tsNs, vI, qI)]
      ensures charges == old(charges) + [Charge(Row(tsNs, vI, qI), dtNs)]
      ensures IsSqrt(lib) && Forward(charges) && old(Exact(lib, accJ, capacity, charges)) ==>
                (Exact(lib, accJ, capacity, charges) <==> Harmless(lib, old(charges), capacity, Charge(Row(tsNs, vI, qI), dtNs)))
    {
      ghost var c := Charge(Row(tsNs, vI, qI), dtNs);
      PushAccumulates(lib, capacity, charges, c);
      Account(tsNs, vI, qI, dtNs);
      Store(Row(tsNs, vI, qI));
      charges := charges + [c];
    }
  }
}
