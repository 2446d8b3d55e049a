/** The three loops of the gateway as one transition system: capture into a frame ring, decode into a
    sample ring, signal processing out of it. A step is one operation on a ring, one atomic counter
    update, or one purely local move; the loops interleave in any order. */
module Gateway {
  import opened Basics
  import opened Ber
  import opened SvDecoder
  import SvFrame

  datatype RawBytes = RawBytes(payload: bytes, length: nat, rxTimeNs: nat)

  type Frame = f: RawBytes | f.length <= |f.payload| witness RawBytes([], 0, 0)

  datatype Verdict = ParseError | Samples(samples: seq<WaveSample>)

  /** The decoder, as far as the loops look at it: any function of the frame. */
  type Decode = Frame -> Verdict

  /** The decoder they are started with. */
  function FullDecoder(d: Decoder): Decode {
    (f: Frame) =>
      match DecodeOf(d, f.payload, f.length, f.rxTimeNs)
      case Err(_) => ParseError
      case Ok(r) => Samples(r.samples)
  }

  const BATCH: nat := 64

  datatype Config = Config(decode: Decode, frameCap: nat, sampleCap: nat)

  /** Where each loop is. A `Refused` state has just seen its ring refuse an element. */
  datatype CapturePc =
    | Reading
    | Offering(batch: seq<Option<Frame>>, next: nat)
    | Refused(batch: seq<Option<Frame>>, next: nat, counted: bool)

  datatype DecodePc =
    | Gathering(frames: seq<Frame>)
    | Decoding(frames: seq<Frame>, at: nat, total: nat)
    | SampleRefused(frames: seq<Frame>, at: nat, total: nat)

  datatype DspPc = Collecting(msgs: seq<seq<WaveSample>>) | Processing(msgs: seq<seq<WaveSample>>)

  datatype Stats = Stats(framesRx: nat, samplesRx: nat, parseErrors: nat, framesDropped: nat, ringEnqFails: nat)

  /** What happened so far, in order: frames offered to the ring, frames decoded, frames whose samples were
      accepted by the sample ring, messages handed to the pipeline; empty batch entries and refused
      messages are only counted. */
  datatype Log = Log(captured: seq<Frame>, decoded: seq<Frame>, kept: seq<Frame>, done: seq<seq<WaveSample>>,
                     processed: seq<WaveSample>, nils: nat, refused: nat)

  datatype System = System(capture: CapturePc, frameRing: seq<Frame>, decode: DecodePc, sampleRing: seq<seq<WaveSample>>,
                           dsp: DspPc, stats: Stats, log: Log)

  const START := System(Reading, [], Gathering([]), [], Collecting([]), Stats(0, 0, 0, 0, 0), Log([], [], [], [], [], 0, 0))

  /** A ring may refuse an element even when it is not full, and may seem empty when it is not: its slot
      may be held by a peer. */
  datatype Action =
    | ReadBatch(batch: seq<Option<Frame>>)
    | SkipNil
    | OfferFrame(accepted: bool)
    | CountRefusal
    | CountDrop
    | EndBatch
    | TakeFrame
    | StopTaking
    | CountParseError
    | DecodeEmpty
    | OfferSamples(accepted: bool)
    | CountSampleRefusal
    | AddSamples
    | TakeMessage
    | StopCollecting
    | ProcessBatch

  function Flat(msgs: seq<seq<WaveSample>>): seq<WaveSample> {
    if msgs == [] then [] else Flat(msgs[..|msgs| - 1]) + msgs[|msgs| - 1]
  }

  function SamplesIn(d: Decode, f: Frame): seq<WaveSample> {
    match d(f)
    case ParseError => []
    case Samples(s) => s
  }

  predicate AtEntry(c: CapturePc) { c.Offering? && c.next < |c.batch| }

  predicate AtFrame(c: DecodePc) { c.Decoding? && c.at < |c.frames| }

  predicate Enabled(cfg: Config, s: System, a: Action) {
    match a
    case ReadBatch(batch) => s.capture.Reading? && batch != []
    case SkipNil => AtEntry(s.capture) && s.capture.batch[s.capture.next].None?
    case OfferFrame(accepted) =>
      AtEntry(s.capture) && s.capture.batch[s.capture.next].Some? && (accepted ==> |s.frameRing| < cfg.frameCap)
    case CountRefusal => s.capture.Refused? && !s.capture.counted
    case CountDrop => s.capture.Refused? && s.capture.counted
    case EndBatch => s.capture.Offering? && s.capture.next >= |s.capture.batch|
    case TakeFrame => s.decode.Gathering? && |s.decode.frames| < BATCH && s.frameRing != []
    case StopTaking => s.decode.Gathering?
    case CountParseError => AtFrame(s.decode) && cfg.decode(s.decode.frames[s.decode.at]).ParseError?
    case DecodeEmpty => AtFrame(s.decode) && cfg.decode(s.decode.frames[s.decode.at]) == Samples([])
    case OfferSamples(accepted) =>
      && AtFrame(s.decode) && cfg.decode(s.decode.frames[s.decode.at]).Samples?
      && SamplesIn(cfg.decode, s.decode.frames[s.decode.at]) != [] && (accepted ==> |s.sampleRing| < cfg.sampleCap)
    case CountSampleRefusal => s.decode.SampleRefused? && s.decode.at < |s.decode.frames|
    case AddSamples => s.decode.Decoding? && s.decode.at >= |s.decode.frames|
    case TakeMessage => s.dsp.Collecting? && |s.dsp.msgs| < BATCH && s.sampleRing != []
    case StopCollecting => s.dsp.Collecting?
    case ProcessBatch => s.dsp.Processing?
  }

  function CaptureStep(s: System, a: Action): System
    requires s.capture.Offering? || s.capture.Refused? || a.ReadBatch?
    requires a.SkipNil? || a.OfferFrame? ==> AtEntry(s.capture)
    requires a.OfferFrame? ==> s.capture.batch[s.capture.next].Some?
    requires a.CountRefusal? || a.CountDrop? ==> s.capture.Refused?
  {
    match a
    case ReadBatch(batch) =>
      s.(capture := Offering(batch, 0), stats := s.stats.(framesRx := s.stats.framesRx + |batch|))
    case SkipNil =>
      s.(capture := Offering(s.capture.batch, s.capture.next + 1), log := s.log.(nils := s.log.nils + 1))
    case OfferFrame(accepted) =>
      var f := s.capture.batch[s.capture.next].value;
      var t := s.(log := s.log.(captured := s.log.captured + [f]));
      if accepted then t.(capture := Offering(s.capture.batch, s.capture.next + 1), frameRing := s.frameRing + [f])
      else t.(capture := Refused(s.capture.batch, s.capture.next, false))
    case CountRefusal =>
      s.(capture := Refused(s.capture.batch, s.capture.next, true),
         stats := s.stats.(ringEnqFails := s.stats.ringEnqFails + 1))
    case CountDrop =>
      s.(capture := Offering(s.capture.batch, s.capture.next + 1),
         stats := s.stats.(framesDropped := s.stats.framesDropped + 1))
    case _ => s.(capture := Reading)
  }

  function DecodeStep(cfg: Config, s: System, a: Action): System
    requires Enabled(cfg, s, a)
  {
    match a
    case TakeFrame => s.(decode := Gathering(s.decode.frames + [s.frameRing[0]]), frameRing := s.frameRing[1..])
    case StopTaking => if s.decode.frames == [] then s else s.(decode := Decoding(s.decode.frames, 0, 0))
    case CountParseError =>
      s.(decode := Decoding(s.decode.frames, s.decode.at + 1, s.decode.total),
         stats := s.stats.(parseErrors := s.stats.parseErrors + 1))
    case DecodeEmpty =>
      s.(decode := Decoding(s.decode.frames, s.decode.at + 1, s.decode.total),
         log := s.log.(decoded := s.log.decoded + [s.decode.frames[s.decode.at]]))
    case OfferSamples(accepted) =>
      var f := s.decode.frames[s.decode.at];
      var msg := SamplesIn(cfg.decode, f);
      var log := s.log.(decoded := s.log.decoded + [f]);
      if accepted then
        s.(decode := Decoding(s.decode.frames, s.decode.at + 1, s.decode.total + |msg|),
           sampleRing := s.sampleRing + [msg], log := log.(kept := log.kept + [f]))
      else s.(decode := SampleRefused(s.decode.frames, s.decode.at, s.decode.total), log := log.(refused := log.refused + 1))
    case CountSampleRefusal =>
      s.(decode := Decoding(s.decode.frames, s.decode.at + 1,
                            s.decode.total + |SamplesIn(cfg.decode, s.decode.frames[s.decode.at])|),
         stats := s.stats.(ringEnqFails := s.stats.ringEnqFails + 1))
    case AddSamples =>
      s.(decode := Gathering([]), stats := s.stats.(samplesRx := s.stats.samplesRx + s.decode.total))
    case _ => s
  }

  function DspStep(cfg: Config, s: System, a: Action): System
    requires Enabled(cfg, s, a)
  {
    match a
    case TakeMessage => s.(dsp := Collecting(s.dsp.msgs + [s.sampleRing[0]]), sampleRing := s.sampleRing[1..])
    case StopCollecting => if s.dsp.msgs == [] then s else s.(dsp := Processing(s.dsp.msgs))
    case ProcessBatch =>
      s.(dsp := Collecting([]), log := s.log.(done := s.log.done + s.dsp.msgs, processed := s.log.processed + Flat(s.dsp.msgs)))
    case _ => s
  }

  predicate Captures(a: Action) {
    a.ReadBatch? || a.SkipNil? || a.OfferFrame? || a.CountRefusal? || a.CountDrop? || a.EndBatch?
  }

  predicate Processes(a: Action) { a.TakeMessage? || a.StopCollecting? || a.ProcessBatch? }

  function Step(cfg: Config, s: System, a: Action): System
    requires Enabled(cfg, s, a)
  {
    if Captures(a) then CaptureStep(s, a) else if Processes(a) then DspStep(cfg, s, a) else DecodeStep(cfg, s, a)
  }

  // ---- invariants -----------------------------------------------------------------------------

  /** Frames taken from the ring and not yet decoded. */
  function Pending(c: DecodePc): seq<Frame> {
    match c
    case Gathering(frames) => frames
    case Decoding(frames, at, _) => if at <= |frames| then frames[at..] else []
    case SampleRefused(frames, at, _) => if at < |frames| then frames[at + 1..] else []
  }

  /** Entries of the captured batch not yet looked at. */
  function Unread(c: CapturePc): int {
    match c
    case Reading => 0
    case Offering(batch, next) => |batch| - next
    case Refused(batch, next, _) => |batch| - next - 1
  }

  function Bool(b: bool): nat { if b then 1 else 0 }

  /** Samples decoded in this round and not yet added to the counter. */
  function Uncounted(d: Decode, c: DecodePc): nat {
    match c
    case Gathering(_) => 0
    case Decoding(_, _, total) => total
    case SampleRefused(frames, at, total) => if at < |frames| then total + |SamplesIn(d, frames[at])| else total
  }

  function SampleCount(d: Decode, frames: seq<Frame>): nat {
    if frames == [] then 0 else SampleCount(d, frames[..|frames| - 1]) + |SamplesIn(d, frames[|frames| - 1])|
  }

  /** How many of the frames gave samples at all. */
  function Speaking(d: Decode, frames: seq<Frame>): nat {
    if frames == [] then 0
    else Speaking(d, frames[..|frames| - 1]) + Bool(SamplesIn(d, frames[|frames| - 1]) != [])
  }

  predicate Placed(s: System) {
    && (s.capture.Offering? ==> s.capture.next <= |s.capture.batch|)
    && (s.capture.Refused? ==> s.capture.next < |s.capture.batch|)
    && (s.decode.Decoding? ==> s.decode.at <= |s.decode.frames|)
    && (s.decode.SampleRefused? ==> s.decode.at < |s.decode.frames|)
  }

  /** Every frame is somewhere, and every counter is a count of frames or messages, give or take the
      updates under way. */
  predicate Conserved(d: Decode, s: System) {
    && |s.log.captured| == s.stats.framesDropped + Bool(s.capture.Refused?) + |s.frameRing| + |Pending(s.decode)|
                           + s.stats.parseErrors + |s.log.decoded|
    && s.stats.framesRx == |s.log.captured| + s.log.nils + Unread(s.capture)
    && s.stats.ringEnqFails + Bool(s.decode.SampleRefused?) ==
       s.stats.framesDropped + Bool(s.capture.Refused? && s.capture.counted) + s.log.refused
  }

  predicate Tallied(d: Decode, s: System) {
    && s.stats.samplesRx + Uncounted(d, s.decode) == SampleCount(d, s.log.decoded)
    && Speaking(d, s.log.decoded) == |s.log.kept| + s.log.refused
  }

  lemma CaptureConserves(cfg: Config, s: System, a: Action)
    requires Placed(s) && Conserved(cfg.decode, s) && Enabled(cfg, s, a) && Captures(a)
    ensures Placed(Step(cfg, s, a)) && Conserved(cfg.decode, Step(cfg, s, a))
  {
  }

  lemma DecodeConserves(cfg: Config, s: System, a: Action)
    requires Placed(s) && Conserved(cfg.decode, s) && Enabled(cfg, s, a) && !Captures(a) && !Processes(a)
    ensures Placed(Step(cfg, s, a)) && Conserved(cfg.decode, Step(cfg, s, a))
  {
  }

  lemma ProcessConserves(cfg: Config, s: System, a: Action)
    requires Placed(s) && Conserved(cfg.decode, s) && Enabled(cfg, s, a) && Processes(a)
    ensures Placed(Step(cfg, s, a)) && Conserved(cfg.decode, Step(cfg, s, a))
  {
  }

  lemma SampleCountAppend(d: Decode, frames: seq<Frame>, f: Frame)
    ensures SampleCount(d, frames + [f]) == SampleCount(d, frames) + |SamplesIn(d, f)|
    ensures Speaking(d, frames + [f]) == Speaking(d, frames) + Bool(SamplesIn(d, f) != [])
  {
    assert (frames + [f])[..|frames + [f]| - 1] == frames;
  }

  lemma OfferTallies(cfg: Config, s: System, a: Action)
    requires Placed(s) && Tallied(cfg.decode, s) && Enabled(cfg, s, a) && (a.OfferSamples? || a.DecodeEmpty?)
    ensures Tallied(cfg.decode, DecodeStep(cfg, s, a))
  {
    SampleCountAppend(cfg.decode, s.log.decoded, s.decode.frames[s.decode.at]);
  }

  lemma DecodeTallies(cfg: Config, s: System, a: Action)
    requires Placed(s) && Tallied(cfg.decode, s) && Enabled(cfg, s, a) && !Captures(a) && !Processes(a)
    ensures Tallied(cfg.decode, DecodeStep(cfg, s, a))
  {
    if a.OfferSamples? || a.DecodeEmpty? { OfferTallies(cfg, s, a); }
  }

  lemma OtherTallies(cfg: Config, s: System, a: Action)
    requires Tallied(cfg.decode, s) && Enabled(cfg, s, a) && (Captures(a) || Processes(a))
    ensures Tallied(cfg.decode, Step(cfg, s, a))
  {
  }

  // ---- order ----------------------------------------------------------------------------------

  /** The first sequence is the second with some elements left out. */
  predicate Subseq(x: seq<Frame>, y: seq<Frame>) {
    if x == [] then true
    else if y == [] then false
    else Subseq(x, y[..|y| - 1]) || (x[|x| - 1] == y[|y| - 1] && Subseq(x[..|x| - 1], y[..|y| - 1]))
  }

  lemma {:induction false} SubseqSelf(x: seq<Frame>)
    ensures Subseq(x, x)
  {
    if x != [] { SubseqSelf(x[..|x| - 1]); }
  }

  lemma SubseqAppend(x: seq<Frame>, y: seq<Frame>, f: Frame)
    requires Subseq(x, y)
    ensures Subseq(x + [f], y + [f]) && Subseq(x, y + [f])
  {
    assert (y + [f])[..|y + [f]| - 1] == y;
    assert (x + [f])[..|x + [f]| - 1] == x;
  }

  lemma {:induction false} SubseqTrans(x: seq<Frame>, y: seq<Frame>, z: seq<Frame>)
    requires Subseq(x, y) && Subseq(y, z)
    ensures Subseq(x, z)
    decreases |y| + |z|
  {
    if x != [] {
      var y0, z0 := y[..|y| - 1], z[..|z| - 1];
      if Subseq(y, z0) {
        SubseqTrans(x, y, z0);
      } else if Subseq(x, y0) {
        SubseqTrans(x, y0, z0);
      } else {
        SubseqTrans(x[..|x| - 1], y0, z0);
      }
    }
  }

  lemma {:induction false} SubseqConcat(x: seq<Frame>, y: seq<Frame>, w: seq<Frame>)
    requires Subseq(x, y)
    ensures Subseq(x + w, y + w)
  {
    if w == [] {
      assert x + w == x && y + w == y;
    } else {
      var w0, f := w[..|w| - 1], w[|w| - 1];
      SubseqConcat(x, y, w0);
      SubseqAppend(x + w0, y + w0, f);
      assert x + w == (x + w0) + [f] && y + w == (y + w0) + [f];
    }
  }

  /** Leaving one element out of the middle. */
  lemma SubseqDrop(x: seq<Frame>, f: Frame, w: seq<Frame>)
    ensures Subseq(x + w, x + [f] + w)
  {
    SubseqSelf(x);
    SubseqAppend(x, x, f);
    SubseqConcat(x, x + [f], w);
  }

  /** Everything decoded, then everything taken, then everything in the ring. */
  function Line(s: System): seq<Frame> { s.log.decoded + Pending(s.decode) + s.frameRing }

  predicate Ordered(s: System) { Subseq(Line(s), s.log.captured) && Subseq(s.log.kept, s.log.decoded) }

  lemma CaptureOrders(cfg: Config, s: System, a: Action)
    requires Ordered(s) && Enabled(cfg, s, a) && Captures(a)
    ensures Ordered(CaptureStep(s, a))
  {
    if a.OfferFrame? {
      var f := s.capture.batch[s.capture.next].value;
      SubseqAppend(Line(s), s.log.captured, f);
      if a.accepted { assert Line(CaptureStep(s, a)) == Line(s) + [f]; }
    }
  }

  lemma TakeOrders(cfg: Config, s: System)
    requires Ordered(s) && Enabled(cfg, s, TakeFrame)
    ensures Ordered(DecodeStep(cfg, s, TakeFrame))
  {
    assert Line(DecodeStep(cfg, s, TakeFrame)) == Line(s);
  }

  lemma StopOrders(cfg: Config, s: System, a: Action)
    requires Ordered(s) && Enabled(cfg, s, a) && (a.StopTaking? || a.AddSamples? || a.CountSampleRefusal?)
    ensures Ordered(DecodeStep(cfg, s, a))
  {
    assert Line(DecodeStep(cfg, s, a)) == Line(s);
  }

  lemma ErrorOrders(cfg: Config, s: System)
    requires Ordered(s) && Enabled(cfg, s, CountParseError)
    ensures Ordered(DecodeStep(cfg, s, CountParseError))
  {
    var t := DecodeStep(cfg, s, CountParseError);
    var f, rest := s.decode.frames[s.decode.at], Pending(t.decode) + s.frameRing;
    assert Pending(s.decode) == [f] + Pending(t.decode);
    assert Line(s) == s.log.decoded + [f] + rest && Line(t) == s.log.decoded + rest;
    SubseqDrop(s.log.decoded, f, rest);
    SubseqTrans(Line(t), Line(s), s.log.captured);
  }

  lemma Regroup(x: seq<Frame>, f: Frame, y: seq<Frame>, w: seq<Frame>)
    ensures (x + [f]) + y + w == x + ([f] + y) + w
  {
  }

  lemma DecodedMoves(cfg: Config, s: System, a: Action)
    requires Enabled(cfg, s, a) && (a.DecodeEmpty? || a.OfferSamples?)
    ensures var t := DecodeStep(cfg, s, a);
            && t.log.decoded == s.log.decoded + [s.decode.frames[s.decode.at]] && t.frameRing == s.frameRing
            && Pending(t.decode) == s.decode.frames[s.decode.at + 1..]
  {
  }

  lemma SameLine(s: System, t: System)
    requires AtFrame(s.decode) && t.frameRing == s.frameRing
    requires t.log.decoded == s.log.decoded + [s.decode.frames[s.decode.at]]
    requires Pending(t.decode) == s.decode.frames[s.decode.at + 1..]
    ensures Line(t) == Line(s)
  {
    var f, rest := s.decode.frames[s.decode.at], s.decode.frames[s.decode.at + 1..];
    assert Pending(s.decode) == [f] + rest;
    Regroup(s.log.decoded, f, rest, s.frameRing);
  }

  lemma DecodedLine(cfg: Config, s: System, a: Action)
    requires Enabled(cfg, s, a) && (a.DecodeEmpty? || a.OfferSamples?)
    ensures Line(DecodeStep(cfg, s, a)) == Line(s)
  {
    DecodedMoves(cfg, s, a);
    SameLine(s, DecodeStep(cfg, s, a));
  }

  lemma DecodedOrders(cfg: Config, s: System, a: Action)
    requires Ordered(s) && Enabled(cfg, s, a) && (a.DecodeEmpty? || a.OfferSamples?)
    ensures Ordered(DecodeStep(cfg, s, a))
  {
    DecodedLine(cfg, s, a);
    SubseqAppend(s.log.kept, s.log.decoded, s.decode.frames[s.decode.at]);
  }

  lemma OrdersStep(cfg: Config, s: System, a: Action)
    requires Ordered(s) && Enabled(cfg, s, a)
    ensures Ordered(Step(cfg, s, a))
  {
    if Captures(a) {
      CaptureOrders(cfg, s, a);
    } else if Processes(a) {
      assert Line(DspStep(cfg, s, a)) == Line(s);
    } else if a.TakeFrame? {
      TakeOrders(cfg, s);
    } else if a.CountParseError? {
      ErrorOrders(cfg, s);
    } else if a.DecodeEmpty? || a.OfferSamples? {
      DecodedOrders(cfg, s, a);
    } else {
      StopOrders(cfg, s, a);
    }
  }

  // ---- what reaches the pipeline --------------------------------------------------------------

  function Messages(d: Decode, frames: seq<Frame>): seq<seq<WaveSample>> {
    if frames == [] then [] else Messages(d, frames[..|frames| - 1]) + [SamplesIn(d, frames[|frames| - 1])]
  }

  /** The kept frames' samples are, in order, what was processed, what is being collected, and what waits. */
  predicate Delivered(d: Decode, s: System) {
    && Messages(d, s.log.kept) == s.log.done + s.dsp.msgs + s.sampleRing
    && s.log.processed == Flat(s.log.done)
  }

  lemma MessagesAppend(d: Decode, frames: seq<Frame>, f: Frame)
    ensures Messages(d, frames + [f]) == Messages(d, frames) + [SamplesIn(d, f)]
  {
    assert (frames + [f])[..|frames + [f]| - 1] == frames;
  }

  lemma {:induction false} FlatAppend(x: seq<seq<WaveSample>>, y: seq<seq<WaveSample>>)
    ensures Flat(x + y) == Flat(x) + Flat(y)
  {
    if y == [] {
      assert x + y == x;
    } else {
      FlatAppend(x, y[..|y| - 1]);
      assert (x + y)[..|x + y| - 1] == x + y[..|y| - 1];
    }
  }

  lemma OfferDelivers(cfg: Config, s: System)
    requires Delivered(cfg.decode, s) && Enabled(cfg, s, OfferSamples(true))
    ensures Delivered(cfg.decode, DecodeStep(cfg, s, OfferSamples(true)))
  {
    MessagesAppend(cfg.decode, s.log.kept, s.decode.frames[s.decode.at]);
  }

  lemma TakeDelivers(cfg: Config, s: System)
    requires Delivered(cfg.decode, s) && Enabled(cfg, s, TakeMessage)
    ensures Delivered(cfg.decode, DspStep(cfg, s, TakeMessage))
  {
    assert [s.sampleRing[0]] + s.sampleRing[1..] == s.sampleRing;
    assert s.log.done + s.dsp.msgs + s.sampleRing == s.log.done + (s.dsp.msgs + [s.sampleRing[0]]) + s.sampleRing[1..];
  }

  lemma ProcessDelivers(cfg: Config, s: System, a: Action)
    requires Delivered(cfg.decode, s) && Enabled(cfg, s, a) && Processes(a)
    ensures Delivered(cfg.decode, DspStep(cfg, s, a))
  {
    if a.TakeMessage? {
      TakeDelivers(cfg, s);
    } else if a.ProcessBatch? {
      FlatAppend(s.log.done, s.dsp.msgs);
    }
  }

  lemma OtherDelivers(cfg: Config, s: System, a: Action)
    requires Delivered(cfg.decode, s) && Enabled(cfg, s, a) && !Processes(a) && a != OfferSamples(true)
    ensures Delivered(cfg.decode, Step(cfg, s, a))
  {
  }

  // ---- every run ------------------------------------------------------------------------------

  predicate Bounded(cfg: Config, s: System) {
    && |s.frameRing| <= cfg.frameCap && |s.sampleRing| <= cfg.sampleCap
    && (s.decode.Gathering? ==> |s.decode.frames| <= 64) && |s.dsp.msgs| <= 64
  }

  lemma BoundedStep(cfg: Config, s: System, a: Action)
    requires Bounded(cfg, s) && Enabled(cfg, s, a)
    ensures Bounded(cfg, Step(cfg, s, a))
  {
  }

  predicate Inv(cfg: Config, s: System) {
    && Placed(s) && Conserved(cfg.decode, s) && Tallied(cfg.decode, s) && Ordered(s) && Delivered(cfg.decode, s)
    && Bounded(cfg, s)
  }

  lemma CaptureInv(cfg: Config, s: System, a: Action)
    requires Inv(cfg, s) && Enabled(cfg, s, a) && Captures(a)
    ensures Inv(cfg, Step(cfg, s, a))
  {
    OrdersStep(cfg, s, a);
    BoundedStep(cfg, s, a);
    CaptureConserves(cfg, s, a);
    OtherTallies(cfg, s, a);
    OtherDelivers(cfg, s, a);
  }

  lemma ProcessInv(cfg: Config, s: System, a: Action)
    requires Inv(cfg, s) && Enabled(cfg, s, a) && Processes(a)
    ensures Inv(cfg, Step(cfg, s, a))
  {
    OrdersStep(cfg, s, a);
    BoundedStep(cfg, s, a);
    ProcessConserves(cfg, s, a);
    OtherTallies(cfg, s, a);
    ProcessDelivers(cfg, s, a);
  }

  lemma DecodeDelivers(cfg: Config, s: System, a: Action)
    requires Delivered(cfg.decode, s) && Enabled(cfg, s, a) && !Captures(a) && !Processes(a)
    ensures Delivered(cfg.decode, Step(cfg, s, a))
  {
    if a == OfferSamples(true) { OfferDelivers(cfg, s); } else { OtherDelivers(cfg, s, a); }
  }

  lemma DecodeInv(cfg: Config, s: System, a: Action)
    requires Inv(cfg, s) && Enabled(cfg, s, a) && !Captures(a) && !Processes(a)
    ensures Inv(cfg, Step(cfg, s, a))
  {
    OrdersStep(cfg, s, a);
    BoundedStep(cfg, s, a);
    DecodeConserves(cfg, s, a);
    DecodeTallies(cfg, s, a);
    DecodeDelivers(cfg, s, a);
  }

  lemma StepInv(cfg: Config, s: System, a: Action)
    requires Inv(cfg, s) && Enabled(cfg, s, a)
    ensures Inv(cfg, Step(cfg, s, a))
  {
    if Captures(a) { CaptureInv(cfg, s, a); } else if Processes(a) { ProcessInv(cfg, s, a); } else { DecodeInv(cfg, s, a); }
  }

  /** The states some schedule of the three loops leads to. */
  predicate Run(cfg: Config, s: System, actions: seq<Action>, t: System)
    decreases |actions|
  {
    if actions == [] then s == t
    else Enabled(cfg, s, actions[0]) && Run(cfg, Step(cfg, s, actions[0]), actions[1..], t)
  }

  lemma {:induction false} RunInv(cfg: Config, s: System, actions: seq<Action>, t: System)
    requires Inv(cfg, s) && Run(cfg, s, actions, t)
    ensures Inv(cfg, t)
    decreases |actions|
  {
    if actions != [] {
      StepInv(cfg, s, actions[0]);
      RunInv(cfg, Step(cfg, s, actions[0]), actions[1..], t);
    }
  }

  /** Conservation under every schedule: each captured frame was dropped, is in the ring, is in the batch,
      failed to parse, or was decoded; each refused enqueue is a dropped frame or a dropped message. */
  lemma Conservation(cfg: Config, actions: seq<Action>, t: System)
    requires Run(cfg, START, actions, t)
    ensures |t.log.captured| == t.stats.framesDropped + Bool(t.capture.Refused?) + |t.frameRing| + |Pending(t.decode)|
                                + t.stats.parseErrors + |t.log.decoded|
    ensures t.stats.ringEnqFails + Bool(t.decode.SampleRefused?) ==
            t.stats.framesDropped + Bool(t.capture.Refused? && t.capture.counted)
            + (Speaking(cfg.decode, t.log.decoded) - |t.log.kept|)
    ensures t.stats.samplesRx + Uncounted(cfg.decode, t.decode) == SampleCount(cfg.decode, t.log.decoded)
  {
    RunInv(cfg, START, actions, t);
  }

  /** With both loops between updates the counters are exact. */
  lemma QuietConservation(cfg: Config, actions: seq<Action>, t: System)
    requires Run(cfg, START, actions, t) && t.capture.Reading? && t.decode == Gathering([])
    ensures t.stats.framesRx == |t.log.captured| + t.log.nils
    ensures |t.log.captured| == t.stats.framesDropped + |t.frameRing| + t.stats.parseErrors + |t.log.decoded|
    ensures t.stats.ringEnqFails == t.stats.framesDropped + (Speaking(cfg.decode, t.log.decoded) - |t.log.kept|)
    ensures t.stats.samplesRx == SampleCount(cfg.decode, t.log.decoded)
  {
    RunInv(cfg, START, actions, t);
  }

  lemma DoneAreKept(d: Decode, s: System)
    requires Delivered(d, s)
    ensures |s.log.done| <= |s.log.kept| && Messages(d, s.log.kept[..|s.log.done|]) == s.log.done
  {
    MessagesLength(d, s.log.kept);
    MessagesPrefix(d, s.log.kept, |s.log.done|);
    assert (s.log.done + s.dsp.msgs + s.sampleRing)[..|s.log.done|] == s.log.done;
  }

  lemma DecodedAreCaptured(s: System)
    requires Ordered(s)
    ensures Subseq(s.log.decoded, s.log.captured)
  {
    assert Line(s)[..|s.log.decoded|] == s.log.decoded;
    PrefixSubseq(Line(s), |s.log.decoded|);
    SubseqTrans(s.log.decoded, Line(s), s.log.captured);
  }

  /** What the pipeline was given is, sample for sample, the decoding of frames taken from the captured ones
      in capture order, none twice. */
  lemma ProcessedInOrder(cfg: Config, actions: seq<Action>, t: System) returns (used: seq<Frame>)
    requires Run(cfg, START, actions, t)
    ensures Subseq(used, t.log.decoded) && Subseq(t.log.decoded, t.log.captured)
    ensures t.log.processed == Flat(Messages(cfg.decode, used))
  {
    RunInv(cfg, START, actions, t);
    DoneAreKept(cfg.decode, t);
    used := t.log.kept[..|t.log.done|];
    PrefixSubseq(t.log.kept, |t.log.done|);
    SubseqTrans(used, t.log.kept, t.log.decoded);
    DecodedAreCaptured(t);
  }

  lemma {:induction false} MessagesLength(d: Decode, frames: seq<Frame>)
    ensures |Messages(d, frames)| == |frames|
  {
    if frames != [] { MessagesLength(d, frames[..|frames| - 1]); }
  }

  lemma {:induction false} MessagesPrefix(d: Decode, frames: seq<Frame>, n: nat)
    requires n <= |frames|
    ensures |Messages(d, frames)| == |frames| && Messages(d, frames[..n]) == Messages(d, frames)[..n]
  {
    MessagesLength(d, frames);
    if n < |frames| {
      MessagesPrefix(d, frames[..|frames| - 1], n);
      assert frames[..|frames| - 1][..n] == frames[..n];
    } else {
      assert frames[..n] == frames;
    }
  }

  lemma {:induction false} PrefixSubseq(x: seq<Frame>, n: nat)
    requires n <= |x|
    ensures Subseq(x[..n], x)
  {
    if n == |x| {
      assert x[..n] == x;
      SubseqSelf(x);
    } else {
      PrefixSubseq(x[..|x| - 1], n);
      assert x[..|x| - 1][..n] == x[..n];
    }
  }

  /** A captured frame of the simulator with at most 8186 samples is never a parse error: what it adds to the
      processed samples are the raw pairs it was built from, scaled, numbered and stamped. */
  lemma BuiltFrameSpeaks(d: Decoder, smpcnt: nat, raws: seq<SvFrame.RawSample>, rxNs: nat)
    requires smpcnt < WORD32 && |raws| <= SvFrame.MAX_SAMPLES && SvFrame.Int32Samples(raws)
    ensures var payload := SvFrame.FrameBytes(smpcnt, raws);
            var f := RawBytes(payload, |payload|, rxNs);
            && FullDecoder(d)(f).Samples?
            && SvFrame.Recovers(d, smpcnt, rxNs, raws, SamplesIn(FullDecoder(d), f))
  {
    SvFrame.RoundTrip(d, smpcnt, raws, rxNs);
  }
}
