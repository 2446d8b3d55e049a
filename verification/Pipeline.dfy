/** One channel end to end: phasors in, matrix rows, alarms and bond-strength events out, with the
    newest events of each kind kept in a ring. */
module Pipeline {
  import opened Basics
  import opened RingWindow
  import opened PhasorMath
  import opened Models
  import opened Impedance
  import Matrix
  import MP = MeyerPredictor

  datatype PullEvent = PullEvent(channelId: string, prediction: MP.Prediction, eventId: nat)

  datatype PhasorFrame = PhasorFrame(seqNo: nat, timestampNs: nat, voltage: Phasor, current: Phasor,
                                     impedance: ImpedancePoint)

  /** The stamp of a sample, and what the phasor stage made of it, if its windows were full. */
  datatype Measured = Measured(seqNo: nat, timestampNs: nat, phasors: Option<(Phasor, Phasor)>)

  /** The predictions below the redline, in order. */
  function Redlined(preds: seq<MP.Prediction>): seq<MP.Prediction> {
    if preds == [] then []
    else
      var front := Redlined(preds[..|preds| - 1]);
      if preds[|preds| - 1].belowRedline then front + [preds[|preds| - 1]] else front
  }

  lemma RedlinedAppend(preds: seq<MP.Prediction>, p: MP.Prediction)
    ensures Redlined(preds + [p]) == Redlined(preds) + if p.belowRedline then [p] else []
  {
    assert (preds + [p])[..|preds + [p]| - 1] == preds;
  }

  lemma {:induction false} RedlinedCount(preds: seq<MP.Prediction>)
    ensures |Redlined(preds)| == MP.CountBelow(preds)
  {
    if preds != [] { RedlinedCount(preds[..|preds| - 1]); }
  }

  /** The events of these predictions, numbered upwards and ending at `last`. */
  ghost predicate EventsOf(events: seq<PullEvent>, preds: seq<MP.Prediction>, channelId: string, last: nat) {
    && |events| == |preds| <= last
    && forall k :: 0 <= k < |events| ==> events[k] == PullEvent(channelId, preds[k], last - |events| + k + 1)
  }

  lemma EventsAppend(events: seq<PullEvent>, preds: seq<MP.Prediction>, channelId: string, last: nat, p: MP.Prediction)
    requires EventsOf(events, preds, channelId, last)
    ensures EventsOf(events + [PullEvent(channelId, p, last + 1)], preds + [p], channelId, last + 1)
  {
  }

  /** One more prediction: one more event exactly if it is below the redline. */
  lemma EventsAfter(events: seq<PullEvent>, preds: seq<MP.Prediction>, channelId: string, last: nat, p: Option<MP.Prediction>)
    requires EventsOf(events, Redlined(preds), channelId, last)
    ensures p.None? ==> EventsOf(events, Redlined(preds + []), channelId, last)
    ensures p.Some? ==>
              if p.value.belowRedline
              then EventsOf(events + [PullEvent(channelId, p.value, last + 1)], Redlined(preds + [p.value]), channelId, last + 1)
              else EventsOf(events, Redlined(preds + [p.value]), channelId, last)
  {
    assert preds + [] == preds;
    if p.Some? {
      RedlinedAppend(preds, p.value);
      EventsAppend(events, Redlined(preds), channelId, last, p.value);
    }
  }

  // ---- what the samples amount to -----------------------------------------------------------------

  /** A sample the matrix divides: its phasors are ready and its current is large enough. */
  predicate Divisible(m: Measured) { m.phasors.Some? && CurrentSq(m.phasors.value.1) >= MIN_CURRENT_SQ }

  /** The quotients behind a run of samples. */
  function Quotients(raws: seq<Complex>, samples: seq<Measured>): seq<Complex> {
    if samples == [] then raws
    else RawsAfter(Quotients(raws, samples[..|samples| - 1]), samples[|samples| - 1])
  }

  function RawsAfter(raws: seq<Complex>, m: Measured): seq<Complex> {
    if Divisible(m) then raws + [Quotient(m.phasors.value.0, m.phasors.value.1)] else raws
  }

  /** The frame of one sample after the quotients `raws`, if the matrix makes a point of it. */
  function Produced(lib: Libm, raws: seq<Complex>, m: Measured): Option<PhasorFrame> {
    if m.phasors.None? then None
    else
      var (v, i) := m.phasors.value;
      var z := Matrix.Solved(lib, raws, m.seqNo, m.timestampNs, v, i);
      if z.None? then None else Some(PhasorFrame(m.seqNo, m.timestampNs, v, i, z.value))
  }

  /** The frames of a run of samples. */
  function FramesFor(lib: Libm, raws: seq<Complex>, samples: seq<Measured>): seq<PhasorFrame> {
    if samples == [] then []
    else
      var front := samples[..|samples| - 1];
      FramesFor(lib, raws, front) + Listed(Produced(lib, Quotients(raws, front), samples[|samples| - 1]))
  }

  lemma SamplesAppend(lib: Libm, raws: seq<Complex>, samples: seq<Measured>, m: Measured)
    ensures Quotients(raws, samples + [m]) == RawsAfter(Quotients(raws, samples), m)
    ensures FramesFor(lib, raws, samples + [m]) == FramesFor(lib, raws, samples) + Listed(Produced(lib, Quotients(raws, samples), m))
  {
    assert (samples + [m])[..|samples + [m]| - 1] == samples;
  }

  /** The impedances of the frames are the usable points of the smoothed quotients, one for one. */
  lemma {:induction false} FramesArePoints(lib: Libm, samples: seq<Measured>)
    ensures var frames, points := FramesFor(lib, [], samples), PointsOf(lib, Quotients([], samples));
            && |frames| == |points|
            && forall k :: 0 <= k < |frames| ==>
                 Complex(frames[k].impedance.resistance, frames[k].impedance.reactance) == points[k]
                 && frames[k].impedance.magnitude == Mag(lib, points[k]) >= MIN_MAGNITUDE
  {
    if samples != [] {
      var front, m := samples[..|samples| - 1], samples[|samples| - 1];
      FramesArePoints(lib, front);
      var raws := Quotients([], front);
      if Divisible(m) {
        Matrix.PointsAppend(lib, raws, Quotient(m.phasors.value.0, m.phasors.value.1), UNSET);
      }
    }
  }

  function RowOf(f: PhasorFrame): Matrix.Row {
    var z := f.impedance;
    Matrix.Row(f.timestampNs, f.seqNo, f.voltage.magnitude, f.current.magnitude, z.resistance, z.reactance, z.magnitude, z.phase)
  }

  function RowsOf(frames: seq<PhasorFrame>): (rows: seq<Matrix.Row>)
    ensures |rows| == |frames|
  {
    seq(|frames|, k requires 0 <= k < |frames| => RowOf(frames[k]))
  }

  lemma RowsOfOne(x: Option<PhasorFrame>)
    ensures RowsOf(Listed(x)) == if x.Some? then [RowOf(x.value)] else []
  {
  }

  lemma RowsAppend(frames: seq<PhasorFrame>, x: Option<PhasorFrame>)
    ensures RowsOf(frames + Listed(x)) == RowsOf(frames) + RowsOf(Listed(x))
  {
  }

  lemma {:induction false} RedlinedBelow(preds: seq<MP.Prediction>)
    ensures forall k :: 0 <= k < |Redlined(preds)| ==> Redlined(preds)[k].belowRedline
  {
    if preds != [] { RedlinedBelow(preds[..|preds| - 1]); }
  }

  method Blank<T>(buf: array<T>, blank: T)
    modifies buf
    ensures forall i :: 0 <= i < buf.Length ==> buf[i] == blank
  {
    for i := 0 to buf.Length
      invariant forall j :: 0 <= j < i ==> buf[j] == blank
    {
      buf[i] := blank;
    }
  }

  /** Copies the newest entries of a ring, oldest first. */
  method Recent<T>(buf: array<T>, head: nat, full: bool, count: int, blank: T, ghost hist: seq<T>) returns (out: array<T>)
    requires Holds(buf[..], head, full, hist)
    ensures var kept := Min(|hist|, buf.Length);
            fresh(out) && out[..] == Newest(hist, if 0 < count <= kept then count else kept)
  {
    CountIs(buf[..], head, full, hist);
    var total := buf.Length;
    if !full {
      total := head;
    }
    var n: nat := total;
    if 0 < count <= total {
      n := count;
    }
    out := new T[n](_ => blank);
    var start := head - n;
    if start < 0 {
      start := start + buf.Length;
    }
    for i := 0 to n
      invariant forall k :: 0 <= k < i ==> out[k] == Newest(hist, n)[k]
    {
      View(buf[..], head, full, hist, n, i);
      out[i] := buf[(start + i) % buf.Length];
    }
  }

  /** The first `n` entries of a buffer are the first of everything produced, as many as it has room for. */
  ghost predicate FirstOf<T>(out: seq<T>, n: nat, all: seq<T>) {
    n == Min(|all|, |out|) && out[..n] == all[..n]
  }

  /** Appends to an output buffer while there is room. */
  method Put<T>(out: array<T>, n: nat, x: Option<T>, ghost all: seq<T>) returns (n': nat)
    requires FirstOf(out[..], n, all)
    modifies out
    ensures FirstOf(out[..], n', all + Listed(x))
  {
    n' := n;
    if x.Some? && n < out.Length {
      out[n] := x.value;
      n' := n + 1;
    }
  }

  /** The three buffers of a batch. */
  method PutAll(frameOut: array<PhasorFrame>, fc: nat, fr: Option<PhasorFrame>, anomOut: array<Matrix.AnomalyEvent>, ac: nat,
                anom: Option<Matrix.AnomalyEvent>, pullOut: array<PullEvent>, pc: nat, pull: Option<PullEvent>,
                ghost frames: seq<PhasorFrame>, ghost anoms: seq<Matrix.AnomalyEvent>, ghost pulls: seq<PullEvent>)
    returns (fc': nat, ac': nat, pc': nat)
    requires FirstOf(frameOut[..], fc, frames) && FirstOf(anomOut[..], ac, anoms) && FirstOf(pullOut[..], pc, pulls)
    modifies frameOut, anomOut, pullOut
    ensures FirstOf(frameOut[..], fc', frames + Listed(fr)) && FirstOf(anomOut[..], ac', anoms + Listed(anom))
    ensures FirstOf(pullOut[..], pc', pulls + Listed(pull))
  {
    fc' := Put(frameOut, fc, fr, frames);
    ac' := Put(anomOut, ac, anom, anoms);
    pc' := Put(pullOut, pc, pull, pulls);
  }

  // ---- alarms and predictions as functions of the frames ------------------------------------------

  function NextWatch(l: Matrix.Limits, w: Matrix.Watch, frame: Option<PhasorFrame>): Matrix.Watch
    requires l.rows > 0
  {
    if frame.Some? then Matrix.Watched(l, w, frame.value.impedance) else w
  }

  function WatchAfter(l: Matrix.Limits, w: Matrix.Watch, frames: seq<PhasorFrame>): Matrix.Watch
    requires l.rows > 0
  {
    if frames == [] then w
    else Matrix.Watched(l, WatchAfter(l, w, frames[..|frames| - 1]), frames[|frames| - 1].impedance)
  }

  function FedFrame(s: MP.Setup, b: MP.Book, f: PhasorFrame): MP.Book {
    MP.Fed(s, b, f.seqNo, f.timestampNs, f.voltage, f.current, f.impedance)
  }

  function NextBook(s: MP.Setup, enabled: bool, b: MP.Book, frame: Option<PhasorFrame>): MP.Book {
    if enabled && frame.Some? then FedFrame(s, b, frame.value) else b
  }

  function BookAfter(s: MP.Setup, enabled: bool, b: MP.Book, frames: seq<PhasorFrame>): MP.Book {
    if !enabled || frames == [] then b
    else FedFrame(s, BookAfter(s, enabled, b, frames[..|frames| - 1]), frames[|frames| - 1])
  }

  lemma WatchStep(l: Matrix.Limits, w: Matrix.Watch, frames: seq<PhasorFrame>, x: Option<PhasorFrame>, w': Matrix.Watch)
    requires l.rows > 0 && w' == NextWatch(l, WatchAfter(l, w, frames), x)
    ensures w' == WatchAfter(l, w, frames + Listed(x))
  {
    if x.None? {
      assert frames + Listed(x) == frames;
    } else {
      assert (frames + Listed(x))[..|frames + Listed(x)| - 1] == frames;
    }
  }

  lemma BookStep(s: MP.Setup, enabled: bool, b: MP.Book, frames: seq<PhasorFrame>, x: Option<PhasorFrame>, b': MP.Book)
    requires b' == NextBook(s, enabled, BookAfter(s, enabled, b, frames), x)
    ensures b' == BookAfter(s, enabled, b, frames + Listed(x))
  {
    if x.None? {
      assert frames + Listed(x) == frames;
    } else {
      assert (frames + Listed(x))[..|frames + Listed(x)| - 1] == frames;
    }
  }

  /** A new prediction below the redline, and no other, is an event with the next number. */
  function NewEvent(channelId: string, before: seq<MP.Prediction>, after: seq<MP.Prediction>, last: nat): Option<PullEvent> {
    if |after| > |before| && after[|after| - 1].belowRedline then Some(PullEvent(channelId, after[|after| - 1], last + 1))
    else None
  }

  /** What the two stages go by. */
  datatype Rules = Rules(limits: Matrix.Limits, setup: MP.Setup, enabled: bool)

  /** Counters, rows and ring histories as a batch begins. */
  datatype Tally = Tally(totalIn: nat, rows: seq<Matrix.Row>, anoms: seq<Matrix.AnomalyEvent>, pulls: seq<PullEvent>, eventSeq: nat)

  /** The samples a batch has been through, the quotients after them, and everything they produced. */
  datatype Output = Output(count: nat, raws: seq<Complex>, frames: seq<PhasorFrame>, watch: Matrix.Watch, book: MP.Book,
                           anoms: seq<Matrix.AnomalyEvent>, pulls: seq<PullEvent>)

  predicate Adds(out: Output, fr: Option<PhasorFrame>, anom: Option<Matrix.AnomalyEvent>, pull: Option<PullEvent>, out': Output) {
    out'.frames == out.frames + Listed(fr) && out'.anoms == out.anoms + Listed(anom) && out'.pulls == out.pulls + Listed(pull)
  }

  predicate Follows(r: Rules, out: Output, m: Measured, out': Output)
    requires r.limits.rows > 0
  {
    var fr := Produced(r.limits.lib, out.raws, m);
    && out'.count == out.count + 1 && out'.raws == RawsAfter(out.raws, m) && out'.frames == out.frames + Listed(fr)
    && out'.watch == NextWatch(r.limits, out.watch, fr) && out'.book == NextBook(r.setup, r.enabled, out.book, fr)
  }

  /** The output is what the samples amount to, after what was there before. */
  ghost predicate Amounts(r: Rules, was: Output, samples: seq<Measured>, out: Output)
    requires r.limits.rows > 0
  {
    && out.count == |samples| && out.raws == Quotients(was.raws, samples)
    && out.frames == FramesFor(r.limits.lib, was.raws, samples)
    && out.watch == WatchAfter(r.limits, was.watch, out.frames) && out.book == BookAfter(r.setup, r.enabled, was.book, out.frames)
  }

  lemma SamplesNext(lib: Libm, raws: seq<Complex>, samples: seq<Measured>, k: nat)
    requires k < |samples|
    ensures Quotients(raws, samples[..k + 1]) == RawsAfter(Quotients(raws, samples[..k]), samples[k])
    ensures FramesFor(lib, raws, samples[..k + 1]) ==
            FramesFor(lib, raws, samples[..k]) + Listed(Produced(lib, Quotients(raws, samples[..k]), samples[k]))
  {
    SamplesAppend(lib, raws, samples[..k], samples[k]);
    assert samples[..k] + [samples[k]] == samples[..k + 1];
  }

  lemma AmountsStep(r: Rules, was: Output, samples: seq<Measured>, k: nat, out: Output, out': Output)
    requires r.limits.rows > 0
    requires k < |samples| && Amounts(r, was, samples[..k], out) && Follows(r, out, samples[k], out')
    ensures Amounts(r, was, samples[..k + 1], out')
  {
    SamplesNext(r.limits.lib, was.raws, samples, k);
    AmountsJoin(r, was, samples[..k + 1], out, out', Produced(r.limits.lib, out.raws, samples[k]));
  }

  lemma AmountsJoin(r: Rules, was: Output, samples: seq<Measured>, out: Output, out': Output, fr: Option<PhasorFrame>)
    requires r.limits.rows > 0
    requires out.watch == WatchAfter(r.limits, was.watch, out.frames) && out.book == BookAfter(r.setup, r.enabled, was.book, out.frames)
    requires out'.count == |samples| && out'.raws == Quotients(was.raws, samples)
    requires out'.frames == out.frames + Listed(fr) == FramesFor(r.limits.lib, was.raws, samples)
    requires out'.watch == NextWatch(r.limits, out.watch, fr) && out'.book == NextBook(r.setup, r.enabled, out.book, fr)
    ensures Amounts(r, was, samples, out')
  {
    WatchStep(r.limits, was.watch, out.frames, fr, out'.watch);
    BookStep(r.setup, r.enabled, was.book, out.frames, fr, out'.book);
  }

  const NO_ANOMALY := Matrix.AnomalyEvent("", 0, 0, 0.0, 0.0, ZERO, ZERO, 0)

  const NO_PREDICTION :=
    MP.Prediction(0, 0, MP.Estimate(0.0, 0.0, 0.0), false, MP.Features(0, 0, 0.0, 0.0, 0.0, 0.0, 0.0, 0.0))

  const NO_PHASOR := Phasor(0.0, 0.0, 0.0, 0.0, 0.0)

  const NO_FRAME := PhasorFrame(0, 0, NO_PHASOR, NO_PHASOR, ImpedancePoint(0, 0.0, 0.0, 0.0, 0.0, 0))

  const NO_PULL := PullEvent("", NO_PREDICTION, 0)

  /** The quotients and rows, the latest frame, the alarms and what they depend on, at some moment. */
  datatype Stage = Stage(raws: seq<Complex>, rows: seq<Matrix.Row>, latest: PhasorFrame, anoms: seq<Matrix.AnomalyEvent>,
                         watch: Matrix.Watch)

  /** The predictor's book and the events, at some moment. */
  datatype Outlook = Outlook(setup: MP.Setup, book: MP.Book, pullHist: seq<PullEvent>, pullEventSeq: nat)

  function OrDefault(n: int, d: nat): nat { if n <= 0 then d else n }

  class Pipeline {
    const channelId: string
    const matrix: Matrix.SpatiotemporalMatrix
    /** Present in either case; without predictions enabled it is never fed. */
    const meyer: MP.MeyerPredictor
    const pullEnabled: bool
    var totalIn: nat
    var totalReady: nat
    var started: bool
    var latestFrame: PhasorFrame
    const anomalies: array<Matrix.AnomalyEvent>
    const maxAnom: nat
    var anomHead: nat
    var anomFull: bool
    const pullEvents: array<PullEvent>
    const maxPull: nat
    var pullHead: nat
    var pullFull: bool
    var pullEventSeq: nat
    var pullReady: bool
    /** Everything put into the two rings since the last reset. */
    ghost var anomHist: seq<Matrix.AnomalyEvent>
    ghost var pullHist: seq<PullEvent>

    ghost predicate Valid()
      reads this, anomalies, pullEvents, matrix, matrix.cells,
            meyer, meyer.Repr
    {
      Apart() && AnomaliesKept() && PullsKept()
    }

    /** The matrix, the predictor, the pipeline and its two rings share no memory. */
    ghost predicate Apart()
      reads meyer`Repr
    {
      var me: object, anoms: object, pulls: object, rows: object, cells: object :=
        this, anomalies, pullEvents, matrix, matrix.cells;
      && me != anoms && me != pulls && me != rows && me != cells
      && anoms != pulls && anoms != rows && anoms != cells && pulls != rows && pulls != cells
      && meyer in meyer.Repr && me !in meyer.Repr && anoms !in meyer.Repr && pulls !in meyer.Repr
      && rows !in meyer.Repr && cells !in meyer.Repr
    }

    /** The anomaly ring has been given the matrix's alarms, all of them. */
    ghost predicate AnomaliesKept()
      reads this`anomHead, this`anomFull, this`anomHist, anomalies, matrix, matrix.cells
    {
      && matrix.Valid() && anomalies.Length == maxAnom
      && Holds(anomalies[..], anomHead, anomFull, anomHist)
      && anomHist == matrix.alarms
    }

    /** The pull ring has been given an event for each prediction below the redline. */
    ghost predicate PullsKept()
      reads this`pullHead, this`pullFull, this`pullHist, this`pullEventSeq, pullEvents,
            meyer, meyer.Repr
    {
      && meyer.Valid() && pullEvents.Length == maxPull
      && Holds(pullEvents[..], pullHead, pullFull, pullHist)
      && (if pullEnabled then EventsOf(pullHist, Redlined(meyer.predictions), channelId, pullEventSeq) else pullHist == [])
    }

    constructor (m: Matrix.SpatiotemporalMatrix, p: MP.MeyerPredictor, channelId: string,
                 maxAnomalies: nat, maxPullEvents: nat, enablePull: bool)
      requires maxAnomalies > 0 && maxPullEvents > 0
      requires m !in p.Repr && m.cells !in p.Repr
      requires m.Valid() && m.alarms == [] && p.Valid() && p.predictions == []
      ensures matrix == m && meyer == p && this.channelId == channelId && pullEnabled == enablePull
      ensures maxAnom == maxAnomalies && maxPull == maxPullEvents && fresh(anomalies) && fresh(pullEvents)
      ensures Valid() && anomHist == [] && pullHist == [] && totalIn == totalReady == pullEventSeq == 0
      ensures unchanged(m) && unchanged(p)
    {
      matrix, meyer := m, p;
      this.channelId, maxAnom, maxPull, pullEnabled := channelId, maxAnomalies, maxPullEvents, enablePull;
      anomalies := new Matrix.AnomalyEvent[maxAnomalies](_ => NO_ANOMALY);
      pullEvents := new PullEvent[maxPullEvents](_ => NO_PULL);
      totalIn, totalReady, started, latestFrame := 0, 0, false, NO_FRAME;
      anomHead, anomFull, pullHead, pullFull, pullEventSeq, pullReady := 0, false, 0, false, 0, false;
      anomHist, pullHist := [], [];
      new;
      Empty(anomalies[..]);
      Empty(pullEvents[..]);
    }

    method KeepAnomaly(e: Matrix.AnomalyEvent)
      requires anomalies.Length == maxAnom && Holds(anomalies[..], anomHead, anomFull, anomHist)
      modifies this`anomHead, this`anomFull, this`anomHist, anomalies
      ensures Holds(anomalies[..], anomHead, anomFull, anomHist) && anomHist == old(anomHist) + [e]
    {
      Push(anomalies[..], anomHead, anomFull, anomHist, e);
      anomalies[anomHead] := e;
      anomHead := (anomHead + 1) % maxAnom;
      if anomHead == 0 {
        anomFull := true;
      }
      anomHist := anomHist + [e];
    }

    method KeepPull(e: PullEvent)
      requires pullEvents.Length == maxPull && Holds(pullEvents[..], pullHead, pullFull, pullHist)
      modifies this`pullHead, this`pullFull, this`pullHist, pullEvents
      ensures Holds(pullEvents[..], pullHead, pullFull, pullHist) && pullHist == old(pullHist) + [e]
    {
      Push(pullEvents[..], pullHead, pullFull, pullHist, e);
      pullEvents[pullHead] := e;
      pullHead := (pullHead + 1) % maxPull;
      if pullHead == 0 {
        pullFull := true;
      }
      pullHist := pullHist + [e];
    }

    /** A row the matrix has just written: the latest frame, and the row's alarm into the ring. */
    method Note(frame: PhasorFrame, anomaly: Option<Matrix.AnomalyEvent>)
      requires Apart() && matrix.Valid() && anomalies.Length == maxAnom && Holds(anomalies[..], anomHead, anomFull, anomHist)
      requires matrix.alarms == anomHist + if anomaly.Some? then [anomaly.value] else []
      modifies this`latestFrame, this`anomHead, this`anomFull, this`anomHist, anomalies
      ensures AnomaliesKept() && latestFrame == frame
      ensures anomHist == old(anomHist) + if anomaly.Some? then [anomaly.value] else []
      ensures PullsUntouched() && unchanged(matrix)
    {
      latestFrame := frame;
      if anomaly.Some? {
        KeepAnomaly(anomaly.value);
      }
    }

    /** The counters of one sample. */
    method CountIn(ready: bool)
      requires Valid()
      modifies this`totalIn, this`totalReady, this`started
      ensures Valid() && totalIn == old(totalIn) + 1 && totalReady == old(totalReady) + if ready then 1 else 0
      ensures started == (old(started) || ready)
    {
      totalIn := totalIn + 1;
      if ready {
        totalReady := totalReady + 1;
        started := true;
      }
    }

    /** The predictor and the pull ring are as they were. */
    twostate predicate PullsUntouched()
      reads this, pullEvents, meyer, meyer.Repr
    {
      && unchanged(`pullHead) && unchanged(`pullFull) && unchanged(`pullHist) && unchanged(`pullEventSeq)
      && unchanged(pullEvents) && unchanged(meyer) && forall o <- meyer.Repr :: unchanged(o)
    }

    /** The matrix takes a sample in. */
    method TakeIn(m: Measured) returns (frame: Option<PhasorFrame>, anomaly: Option<Matrix.AnomalyEvent>)
      requires matrix.Valid() && m.phasors.Some?
      modifies matrix, matrix.cells
      ensures matrix.Valid() && TakenIn(frame, anomaly, m, old(Now()))
    {
      var v, i := m.phasors.value.0, m.phasors.value.1;
      var zp, anom, ok := matrix.AppendRow(m.seqNo, m.timestampNs, v, i);
      anomaly := anom;
      frame := if ok then Some(PhasorFrame(m.seqNo, m.timestampNs, v, i, zp)) else None;
      RowsOfOne(frame);
      if ok { matrix.HasWatched(old(matrix.Watching()), zp); }
    }

    /** It has no access to anything else. */
    method TakeInAlone(m: Measured) returns (frame: Option<PhasorFrame>, anomaly: Option<Matrix.AnomalyEvent>)
      requires Apart() && matrix.Valid() && m.phasors.Some?
      modifies matrix, matrix.cells
      ensures matrix.Valid() && TakenIn(frame, anomaly, m, old(Now()))
      ensures PullsUntouched() && unchanged(this) && unchanged(anomalies)
    {
      frame, anomaly := TakeIn(m);
    }

    /** The matrix stage: one row, the latest frame, and the row's alarm into the ring. */
    method Enter(m: Measured) returns (frame: Option<PhasorFrame>, anomaly: Option<Matrix.AnomalyEvent>)
      requires Apart() && AnomaliesKept() && m.phasors.Some?
      modifies this`anomHead, this`anomFull, this`anomHist, this`latestFrame, anomalies, matrix, matrix.cells
      ensures AnomaliesKept() && Entered(frame, anomaly, m, old(Now())) && PullsUntouched()
    {
      frame, anomaly := TakeInAlone(m);
      if frame.Some? {
        Note(frame.value, anomaly);
      }
    }

    /** The matrix stage leaves the pull ring and the predictor alone. */
    method AppendRow(m: Measured) returns (frame: Option<PhasorFrame>, anomaly: Option<Matrix.AnomalyEvent>)
      requires Valid() && m.phasors.Some?
      modifies this`anomHead, this`anomFull, this`anomHist, this`latestFrame, anomalies, matrix, matrix.cells
      ensures Valid() && Entered(frame, anomaly, m, old(Now()))
      ensures totalIn == old(totalIn) && totalReady == old(totalReady) && started == old(started)
      ensures Ahead() == old(Ahead()) && meyer.Repr == old(meyer.Repr)
    {
      frame, anomaly := Enter(m);
    }

    /** Where the matrix stage stands. */
    ghost function Now(): Stage
      reads this`latestFrame, this`anomHist, matrix
    {
      Stage(matrix.raws, matrix.hist, latestFrame, anomHist, matrix.Watching())
    }

    /** The matrix has taken a sample in: a frame exactly when it makes a point of it, and then its row; an alarm
        exactly when one is due for that point. */
    ghost predicate TakenIn(frame: Option<PhasorFrame>, anomaly: Option<Matrix.AnomalyEvent>, m: Measured, was: Stage)
      requires matrix.rows > 0
      reads matrix
    {
      && frame == Produced(matrix.lib, was.raws, m) && matrix.raws == RawsAfter(was.raws, m)
      && matrix.hist == was.rows + RowsOf(Listed(frame))
      && matrix.Watching() == NextWatch(matrix.Posted(), was.watch, frame)
      && matrix.alarms == was.watch.alarms + Listed(anomaly)
    }

    /** The matrix stage has been through one sample: the frame has also become the latest one, and the alarm has
        its place in the ring. */
    ghost predicate Entered(frame: Option<PhasorFrame>, anomaly: Option<Matrix.AnomalyEvent>, m: Measured, was: Stage)
      requires matrix.rows > 0
      reads this`latestFrame, this`anomHist, matrix
    {
      && TakenIn(frame, anomaly, m, was)
      && latestFrame == (if frame.Some? then frame.value else was.latest) && anomHist == was.anoms + Listed(anomaly)
    }

    /** A prediction just made becomes an event when it is below the redline. */
    method Announce(pred: Option<MP.Prediction>, ghost preds: seq<MP.Prediction>) returns (pull: Option<PullEvent>)
      requires Apart() && meyer.Valid() && pullEnabled && pullEvents.Length == maxPull
      requires Holds(pullEvents[..], pullHead, pullFull, pullHist)
      requires EventsOf(pullHist, Redlined(preds), channelId, pullEventSeq)
      requires meyer.predictions == preds + if pred.Some? then [pred.value] else []
      modifies this`pullHead, this`pullFull, this`pullHist, this`pullEventSeq, this`pullReady, pullEvents
      ensures PullsKept() && pull == NewEvent(channelId, preds, meyer.predictions, old(pullEventSeq))
      ensures pullHist == old(pullHist) + Listed(pull) && pullEventSeq == old(pullEventSeq) + |Listed(pull)|
      ensures unchanged(meyer) && unchanged(meyer.softBuf)
    {
      EventsAfter(pullHist, preds, channelId, pullEventSeq, pred);
      pull := None;
      if pred.Some? && pred.value.belowRedline {
        pullReady := true;
        pullEventSeq := pullEventSeq + 1;
        var evt := PullEvent(channelId, pred.value, pullEventSeq);
        KeepPull(evt);
        pull := Some(evt);
      }
    }

    /** The matrix, the anomaly ring, the latest frame and the counters are as they were. */
    twostate predicate AnomaliesUntouched()
      reads this, anomalies, matrix, matrix.cells
    {
      && unchanged(`anomHead) && unchanged(`anomFull) && unchanged(`anomHist) && unchanged(`latestFrame)
      && unchanged(anomalies) && unchanged(matrix) && unchanged(matrix.cells)
      && unchanged(`totalIn) && unchanged(`totalReady) && unchanged(`started)
    }

    /** Nothing of the matrix stage is involved. */
    method AnnounceAlone(pred: Option<MP.Prediction>, ghost preds: seq<MP.Prediction>) returns (pull: Option<PullEvent>)
      requires Apart() && meyer.Valid() && pullEnabled && pullEvents.Length == maxPull
      requires Holds(pullEvents[..], pullHead, pullFull, pullHist)
      requires EventsOf(pullHist, Redlined(preds), channelId, pullEventSeq)
      requires meyer.predictions == preds + if pred.Some? then [pred.value] else []
      modifies this`pullHead, this`pullFull, this`pullHist, this`pullEventSeq, this`pullReady, pullEvents
      ensures PullsKept() && pull == NewEvent(channelId, preds, meyer.predictions, old(pullEventSeq))
      ensures pullHist == old(pullHist) + Listed(pull) && pullEventSeq == old(pullEventSeq) + |Listed(pull)|
      ensures unchanged(meyer) && unchanged(meyer.softBuf) && AnomaliesUntouched()
    {
      pull := Announce(pred, preds);
    }

    /** The predictor takes a frame in, without access to anything else. */
    method Feed(f: PhasorFrame) returns (pred: Option<MP.Prediction>)
      requires Apart() && meyer.Valid()
      modifies meyer, meyer.Repr
      ensures meyer.Valid() && meyer.Repr == old(meyer.Repr) && meyer.predictions == old(meyer.predictions) + Listed(pred)
      ensures meyer.Fixed() == old(meyer.Fixed())
      ensures meyer.Written() == MP.Fed(meyer.Fixed(), old(meyer.Written()), f.seqNo, f.timestampNs, f.voltage, f.current, f.impedance)
      ensures AnomaliesUntouched() && unchanged(this) && unchanged(pullEvents)
    {
      pred := meyer.PushPhasor(f.seqNo, f.timestampNs, f.voltage, f.current, f.impedance);
    }

    /** The predictor takes a frame in. */
    method Predict(f: PhasorFrame) returns (pull: Option<PullEvent>)
      requires Apart() && PullsKept() && pullEnabled
      modifies this`pullHead, this`pullFull, this`pullHist, this`pullEventSeq, this`pullReady, pullEvents, meyer, meyer.Repr
      ensures Apart() && PullsKept() && meyer.Repr == old(meyer.Repr)
      ensures Assessed(Some(f), pull, old(Ahead())) && AnomaliesUntouched()
      ensures meyer.Written() == MP.Fed(meyer.Fixed(), old(meyer.Written()), f.seqNo, f.timestampNs, f.voltage, f.current, f.impedance)
    {
      ghost var preds := meyer.predictions;
      var pred := Feed(f);
      pull := AnnounceAlone(pred, preds);
    }

    /** The predictor stage leaves what the matrix stage did alone. */
    method PredictAfter(f: PhasorFrame) returns (pull: Option<PullEvent>)
      requires Valid() && pullEnabled
      modifies this`pullHead, this`pullFull, this`pullHist, this`pullEventSeq, this`pullReady, pullEvents, meyer, meyer.Repr
      ensures Valid() && meyer.Repr == old(meyer.Repr) && Assessed(Some(f), pull, old(Ahead()))
      ensures Now() == old(Now())
      ensures totalIn == old(totalIn) && totalReady == old(totalReady) && started == old(started)
    {
      pull := Predict(f);
    }

    /** Where the predictor stage stands. */
    ghost function Ahead(): Outlook
      reads this`pullHist, this`pullEventSeq, meyer, meyer.softBuf
    {
      Outlook(meyer.Fixed(), meyer.Written(), pullHist, pullEventSeq)
    }

    /** The predictor stage has been through one sample: fed exactly with what led to a frame, if it is enabled, and
        an event exactly for a new prediction below the redline. */
    ghost predicate Assessed(frame: Option<PhasorFrame>, pull: Option<PullEvent>, was: Outlook)
      reads this`pullHist, this`pullEventSeq, meyer, meyer.softBuf
    {
      && meyer.Fixed() == was.setup && meyer.Written() == NextBook(was.setup, pullEnabled, was.book, frame)
      && pull == NewEvent(channelId, was.book.predictions, meyer.predictions, was.pullEventSeq)
      && pullHist == was.pullHist + Listed(pull) && pullEventSeq == was.pullEventSeq + |Listed(pull)|
    }

    /** One sample. A frame comes out exactly when the matrix makes a point of it, and then its row is written; an
        alarm exactly when one is due for that row; an event exactly when the frame led to a prediction and that
        is below the redline. */
    method Process(m: Measured)
      returns (frame: Option<PhasorFrame>, anomaly: Option<Matrix.AnomalyEvent>, pull: Option<PullEvent>)
      requires Valid()
      modifies this, anomalies, pullEvents, matrix, matrix.cells, meyer, meyer.Repr
      ensures Valid() && meyer.Repr == old(meyer.Repr) && Entered(frame, anomaly, m, old(Now()))
      ensures totalIn == old(totalIn) + 1 && totalReady == old(totalReady) + if m.phasors.Some? then 1 else 0
      ensures started == (old(started) || m.phasors.Some?)
      ensures Assessed(frame, pull, old(Ahead()))
    {
      frame, anomaly, pull := None, None, None;
      CountIn(m.phasors.Some?);
      if m.phasors.None? {
        return;
      }
      frame, anomaly, pull := ProcessReady(m);
    }

    /** A sample whose phasors are ready: the matrix stage and, for a frame, the predictor stage. */
    method ProcessReady(m: Measured)
      returns (frame: Option<PhasorFrame>, anomaly: Option<Matrix.AnomalyEvent>, pull: Option<PullEvent>)
      requires Valid() && m.phasors.Some?
      modifies this`anomHead, this`anomFull, this`anomHist, this`latestFrame, this`pullHead, this`pullFull, this`pullHist,
               this`pullEventSeq, this`pullReady, anomalies, pullEvents, matrix, matrix.cells, meyer, meyer.Repr
      ensures Valid() && meyer.Repr == old(meyer.Repr) && Entered(frame, anomaly, m, old(Now()))
      ensures Assessed(frame, pull, old(Ahead()))
      ensures totalIn == old(totalIn) && totalReady == old(totalReady) && started == old(started)
    {
      frame, anomaly := AppendRow(m);
      pull := None;
      if frame.Some? && pullEnabled {
        pull := PredictAfter(frame.value);
      }
    }

    /** The two counters agree with the rings, and what a reader gets from either is numbered without gaps. */
    lemma Aligned()
      requires Valid()
      ensures |anomHist| == matrix.alarmCount
      ensures forall k :: 0 <= k < |anomHist| ==> anomHist[k].alarmId == k + 1
      ensures pullEnabled ==> |pullHist| == meyer.redlineHits
      ensures pullEnabled ==> forall k :: 0 <= k < |pullHist| ==> pullHist[k].eventId == pullEventSeq - |pullHist| + k + 1
      ensures pullEnabled ==> forall k :: 0 <= k < |pullHist| ==> pullHist[k].prediction.belowRedline
    {
      if pullEnabled {
        RedlinedCount(meyer.predictions);
        RedlinedBelow(meyer.predictions);
      }
    }

    /** Everything starts over but the event number, so later events are numbered above all earlier ones. */
    method Reset()
      requires Valid()
      modifies this, anomalies, pullEvents, matrix, matrix.cells, meyer, meyer.Repr
      ensures Valid() && anomHist == [] && pullHist == [] && totalIn == totalReady == 0 && !started && !pullReady
      ensures pullEventSeq == old(pullEventSeq) && matrix.hist == [] && matrix.raws == [] && fresh(meyer.Repr - {meyer})
      ensures meyer.Written() == MP.EMPTY_BOOK
    {
      ResetAnomalies();
      ResetPulls();
      ResetTotals();
    }

    method ResetTotals()
      requires Valid()
      modifies this`totalIn, this`totalReady, this`started, this`pullReady
      ensures Valid() && totalIn == totalReady == 0 && !started && !pullReady
    {
      totalIn, totalReady, started, pullReady := 0, 0, false, false;
    }

    method ResetAnomalies()
      requires Valid()
      modifies this`anomHead, this`anomFull, this`anomHist, anomalies, matrix, matrix.cells
      ensures Valid() && anomHist == [] && matrix.hist == [] && matrix.raws == []
    {
      ResetMatrix();
    }

    method ResetPulls()
      requires Valid()
      modifies this`pullHead, this`pullFull, this`pullHist, pullEvents, meyer, meyer.Repr
      ensures Valid() && pullHist == [] && fresh(meyer.Repr - {meyer}) && meyer.Written() == MP.EMPTY_BOOK
    {
      ResetMeyer();
    }

    method ResetMatrix()
      requires Apart() && AnomaliesKept()
      modifies this`anomHead, this`anomFull, this`anomHist, anomalies, matrix, matrix.cells
      ensures AnomaliesKept() && anomHist == [] && matrix.hist == [] && matrix.raws == []
    {
      Blank(anomalies, NO_ANOMALY);
      matrix.Reset();
      ClearAnomalies();
    }

    method ClearAnomalies()
      requires matrix.Valid() && matrix.alarms == [] && anomalies.Length == maxAnom > 0
      modifies this`anomHead, this`anomFull, this`anomHist
      ensures AnomaliesKept() && anomHist == []
    {
      Empty(anomalies[..]);
      anomHead, anomFull, anomHist := 0, false, [];
    }

    method ResetMeyer()
      requires Apart() && PullsKept()
      modifies this`pullHead, this`pullFull, this`pullHist, pullEvents, meyer, meyer.Repr
      ensures PullsKept() && pullHist == [] && fresh(meyer.Repr - {meyer}) && meyer.Written() == MP.EMPTY_BOOK
    {
      Blank(pullEvents, NO_PULL);
      meyer.Reset(NO_PREDICTION);
      ClearPulls();
    }

    method ClearPulls()
      requires meyer.Valid() && meyer.predictions == [] && pullEvents.Length == maxPull > 0
      modifies this`pullHead, this`pullFull, this`pullHist
      ensures PullsKept() && pullHist == []
    {
      Empty(pullEvents[..]);
      pullHead, pullFull, pullHist := 0, false, [];
    }

    /** The newest `count` anomalies in order, or all that are kept when that is not a possible number. */
    method RecentAnomalies(count: int) returns (out: array<Matrix.AnomalyEvent>)
      requires Valid()
      ensures var kept := Min(|anomHist|, maxAnom);
              fresh(out) && out[..] == Newest(anomHist, if 0 < count <= kept then count else kept)
    {
      out := Recent(anomalies, anomHead, anomFull, count, NO_ANOMALY, anomHist);
    }

    method RecentPullEvents(count: int) returns (out: array<PullEvent>)
      requires Valid()
      ensures var kept := Min(|pullHist|, maxPull);
              fresh(out) && out[..] == Newest(pullHist, if 0 < count <= kept then count else kept)
    {
      out := Recent(pullEvents, pullHead, pullFull, count, NO_PULL, pullHist);
    }

    /** Not part of the pipeline's own memory. */
    ghost predicate Outside(o: object)
      reads meyer`Repr
    {
      o != this && o != anomalies && o != pullEvents && o != matrix && o != matrix.cells && o !in meyer.Repr
    }

    /** What the two stages go by. */
    ghost function Going(): Rules
      reads meyer
    {
      Rules(matrix.Posted(), meyer.Fixed(), pullEnabled)
    }

    /** Nothing produced yet. */
    ghost function Start(): Output
      reads matrix, meyer, meyer.softBuf
    {
      Output(0, matrix.raws, [], matrix.Watching(), meyer.Written(), [], [])
    }

    /** Fills the three buffers, each as far as it has room, with the samples' frames, alarms and events in
        order; the matrix, the rings and the counters take in everything. All of it is a function of the samples
        and of what was there before: the frames of the quotients, the alarms and the predictions of the frames,
        and the events of the predictions below the redline. */
    method ProcessBatch(samples: seq<Measured>, frameOut: array<PhasorFrame>, anomOut: array<Matrix.AnomalyEvent>,
                        pullOut: array<PullEvent>)
      returns (frameCount: nat, anomCount: nat, pullCount: nat, ghost out: Output)
      requires Valid() && Outside(frameOut) && Outside(anomOut) && Outside(pullOut)
      modifies this, anomalies, pullEvents, matrix, matrix.cells, meyer, meyer.Repr, frameOut, anomOut, pullOut
      ensures Valid() && meyer.Repr == old(meyer.Repr) && totalIn == old(totalIn) + |samples|
      ensures Amounts(old(Going()), old(Start()), samples, out)
      ensures FirstOf(frameOut[..], frameCount, out.frames) && matrix.hist == old(matrix.hist) + RowsOf(out.frames)
      ensures FirstOf(anomOut[..], anomCount, out.anoms) && anomHist == old(anomHist) + out.anoms
      ensures FirstOf(pullOut[..], pullCount, out.pulls) && pullHist == old(pullHist) + out.pulls
      ensures pullEventSeq == old(pullEventSeq) + |out.pulls|
      ensures out.watch.alarms == old(matrix.alarms) + out.anoms
      ensures if pullEnabled
              then EventsOf(old(pullHist) + out.pulls, Redlined(out.book.predictions), channelId, old(pullEventSeq) + |out.pulls|)
              else out.pulls == []
    {
      frameCount, anomCount, pullCount := 0, 0, 0;
      ghost var base := Tally(totalIn, matrix.hist, anomHist, pullHist, pullEventSeq);
      ghost var rules, start, repr := Going(), Start(), meyer.Repr;
      out := start;
      for k := 0 to |samples|
        invariant Valid() && meyer.Repr == repr && Since(base, rules, out)
        invariant FirstOf(frameOut[..], frameCount, out.frames)
        invariant FirstOf(anomOut[..], anomCount, out.anoms) && FirstOf(pullOut[..], pullCount, out.pulls)
        invariant Amounts(rules, start, samples[..k], out)
      {
        ghost var was := out;
        frameCount, anomCount, pullCount, out :=
          ProcessInto(samples[k], frameOut, frameCount, anomOut, anomCount, pullOut, pullCount, base, rules, was);
        AmountsStep(rules, start, samples, k, was, out);
      }
      assert samples[..|samples|] == samples;
    }

    /** What a batch has led to since it began. */
    ghost predicate Since(base: Tally, rules: Rules, out: Output)
      reads this`totalIn, this`anomHist, this`pullHist, this`pullEventSeq, matrix, meyer, meyer.softBuf
    {
      && totalIn == base.totalIn + out.count && matrix.raws == out.raws
      && matrix.hist == base.rows + RowsOf(out.frames)
      && Going() == rules && matrix.Watching() == out.watch && meyer.Written() == out.book
      && anomHist == base.anoms + out.anoms && pullHist == base.pulls + out.pulls
      && pullEventSeq == base.eventSeq + |out.pulls|
    }

    /** One turn of the batch loop. */
    method ProcessInto(m: Measured, frameOut: array<PhasorFrame>, fc: nat, anomOut: array<Matrix.AnomalyEvent>, ac: nat,
                       pullOut: array<PullEvent>, pc: nat, ghost base: Tally, ghost rules: Rules, ghost out: Output)
      returns (fc': nat, ac': nat, pc': nat, ghost out': Output)
      requires Valid() && Outside(frameOut) && Outside(anomOut) && Outside(pullOut) && Since(base, rules, out)
      requires FirstOf(frameOut[..], fc, out.frames) && FirstOf(anomOut[..], ac, out.anoms) && FirstOf(pullOut[..], pc, out.pulls)
      modifies this, anomalies, pullEvents, matrix, matrix.cells, meyer, meyer.Repr, frameOut, anomOut, pullOut
      ensures Valid() && meyer.Repr == old(meyer.Repr) && Since(base, rules, out')
      ensures FirstOf(frameOut[..], fc', out'.frames) && FirstOf(anomOut[..], ac', out'.anoms) && FirstOf(pullOut[..], pc', out'.pulls)
      ensures rules.limits.rows > 0 && Follows(rules, out, m, out')
    {
      var fr, anom, pull;
      fr, anom, pull, out' := ProcessCounted(m, base, rules, out);
      fc', ac', pc' := Deliver(frameOut, fc, fr, anomOut, ac, anom, pullOut, pc, pull, base, rules, out, out');
    }

    /** Writing the output buffers leaves the pipeline alone. */
    method Deliver(frameOut: array<PhasorFrame>, fc: nat, fr: Option<PhasorFrame>, anomOut: array<Matrix.AnomalyEvent>, ac: nat,
                   anom: Option<Matrix.AnomalyEvent>, pullOut: array<PullEvent>, pc: nat, pull: Option<PullEvent>,
                   ghost base: Tally, ghost rules: Rules, ghost out: Output, ghost out': Output)
      returns (fc': nat, ac': nat, pc': nat)
      requires Valid() && Outside(frameOut) && Outside(anomOut) && Outside(pullOut)
      requires Since(base, rules, out') && Adds(out, fr, anom, pull, out')
      requires FirstOf(frameOut[..], fc, out.frames) && FirstOf(anomOut[..], ac, out.anoms) && FirstOf(pullOut[..], pc, out.pulls)
      modifies frameOut, anomOut, pullOut
      ensures Valid() && Since(base, rules, out')
      ensures FirstOf(frameOut[..], fc', out'.frames) && FirstOf(anomOut[..], ac', out'.anoms) && FirstOf(pullOut[..], pc', out'.pulls)
    {
      fc', ac', pc' := PutAll(frameOut, fc, fr, anomOut, ac, anom, pullOut, pc, pull, out.frames, out.anoms, out.pulls);
    }

    method ProcessCounted(m: Measured, ghost base: Tally, ghost rules: Rules, ghost out: Output)
      returns (fr: Option<PhasorFrame>, anom: Option<Matrix.AnomalyEvent>, pull: Option<PullEvent>, ghost out': Output)
      requires Valid() && Since(base, rules, out)
      modifies this, anomalies, pullEvents, matrix, matrix.cells, meyer, meyer.Repr
      ensures Valid() && meyer.Repr == old(meyer.Repr) && Since(base, rules, out')
      ensures Adds(out, fr, anom, pull, out') && rules.limits.rows > 0 && Follows(rules, out, m, out')
    {
      fr, anom, pull := Process(m);
      out' := Output(out.count + 1, RawsAfter(out.raws, m), out.frames + Listed(fr), matrix.Watching(), meyer.Written(),
                     out.anoms + Listed(anom), out.pulls + Listed(pull));
      RowsAppend(out.frames, fr);
      Reassociate(base.rows, RowsOf(out.frames), RowsOf(Listed(fr)));
      Reassociate(base.anoms, out.anoms, Listed(anom));
      Reassociate(base.pulls, out.pulls, Listed(pull));
    }
  }

  lemma Reassociate<T>(a: seq<T>, b: seq<T>, c: seq<T>)
    ensures a + b + c == a + (b + c)
  {
  }

  /** Everything a pipeline writes to. */
  ghost function Memory(p: Pipeline): set<object>
    reads p.meyer`Repr
  {
    {p, p.anomalies, p.pullEvents, p.matrix, p.matrix.cells, p.meyer} + p.meyer.Repr
  }

  /** `NewPipeline` but for its phasor stage: defaults filled in, matrix and predictor built, both rings empty. */
  method NewPipeline(lib: Libm, pi: real, solve: (MP.Config, MP.Features) -> MP.Estimate, channelId: string, matrixRows: int,
                     maxAnomalies: int, maxPullEvents: int, enablePull: bool, pullRedlineG: real, targetHz: real)
    returns (p: Pipeline)
    requires pi > 0.0
    ensures p.Valid() && p.anomHist == [] && p.pullHist == [] && p.totalIn == p.totalReady == p.pullEventSeq == 0
    ensures p.matrix.hist == [] && p.matrix.raws == [] && p.matrix.recordedBefore == 0 && p.meyer.Written() == MP.EMPTY_BOOK
    ensures p.matrix.rows == (if matrixRows <= 0 then 2048 else matrixRows) && p.matrix.zJumpThreshold == 0.15
    ensures p.matrix.phaseThreshold == 12.0 * pi / 180.0 && p.maxAnom == (if maxAnomalies <= 0 then 1024 else maxAnomalies)
    ensures p.maxPull == (if maxPullEvents <= 0 then 1024 else maxPullEvents) && p.channelId == channelId && p.pullEnabled == enablePull
    ensures p.meyer.cfg.redlineGrams == (if pullRedlineG <= 0.0 then 5.0 else pullRedlineG)
    ensures p.meyer.cfg.bondingFreqHz == (if targetHz <= 0.0 then 40_000.0 else targetHz)
    ensures fresh(p) && fresh(p.anomalies) && fresh(p.pullEvents) && fresh(p.matrix) && fresh(p.matrix.cells)
    ensures fresh(p.meyer) && fresh(p.meyer.Repr)
  {
    var cfg := MP.Config(0.0, 0.0, 0.0, 0.0, 0.0, pullRedlineG, targetHz, 0, 0);
    var predictor := new MP.MeyerPredictor(lib, solve, cfg, NO_PREDICTION);
    var matrix := new Matrix.SpatiotemporalMatrix(lib, pi, matrixRows, channelId);
    p := new Pipeline(matrix, predictor, channelId, OrDefault(maxAnomalies, 1024), OrDefault(maxPullEvents, 1024), enablePull);
  }
}
