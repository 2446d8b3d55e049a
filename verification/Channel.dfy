/** A channel from its samples on: the phasor stage in front of the impedance pipeline. */
module Channel {
  import opened Basics
  import opened PhasorMath
  import opened SlidingDft
  import DP = DualPhasor
  import P = Pipeline
  import Matrix
  import MP = MeyerPredictor

  /** One sample of both waves. */
  datatype Sample = Sample(seqNo: nat, timestampNs: nat, voltage: real, current: real)

  datatype Config = Config(channelId: string, windowSize: int, targetHz: real, sampleHz: real, matrixRows: int,
                           maxAnomalies: int, maxPullEvents: int, enablePull: bool, pullRedlineG: real)

  /** The memory of the phasor stage. */
  ghost function Front(phasor: DP.DualPhasor): set<object> {
    {phasor, phasor.voltage, phasor.voltage.sampleBuf, phasor.voltage.weightedCos, phasor.voltage.weightedSin,
     phasor.current, phasor.current.sampleBuf, phasor.current.weightedCos, phasor.current.weightedSin}
  }

  class Channel {
    const phasor: DP.DualPhasor
    const pipeline: P.Pipeline

    ghost predicate Valid()
      reads Front(phasor), pipeline.meyer, P.Memory(pipeline)
    {
      phasor.Valid() && pipeline.Valid() && Front(phasor) !! P.Memory(pipeline)
    }

    constructor (phasor: DP.DualPhasor, pipeline: P.Pipeline)
      requires phasor.Valid() && pipeline.Valid() && Front(phasor) !! P.Memory(pipeline)
      ensures Valid() && this.phasor == phasor && this.pipeline == pipeline
    {
      this.phasor, this.pipeline := phasor, pipeline;
    }

    /** What the phasor stage makes of the newest sample: phasors from the N-th sample on. */
    ghost predicate Measures(m: P.Measured, s: Sample)
      reads phasor, phasor.voltage, phasor.current
    {
      && m.seqNo == s.seqNo && m.timestampNs == s.timestampNs
      && (m.phasors.Some? <==> |phasor.voltage.hist| >= phasor.voltage.windowSize)
      && (m.phasors.Some? ==>
            && phasor.voltage.Shows(m.phasors.value.0, phasor.trackedFreq)
            && phasor.current.Shows(m.phasors.value.1, phasor.trackedFreq))
    }

    /** The phasor stage leaves the pipeline alone. */
    method Measure(s: Sample) returns (m: P.Measured)
      requires Valid()
      modifies phasor, phasor.voltage, phasor.voltage.sampleBuf, phasor.current, phasor.current.sampleBuf
      ensures Valid() && Measures(m, s) && unchanged(pipeline) && unchanged(pipeline.matrix) && unchanged(pipeline.meyer)
      ensures phasor.voltage.hist == old(phasor.voltage.hist) + [s.voltage]
      ensures phasor.current.hist == old(phasor.current.hist) + [s.current]
    {
      var phasors := phasor.ProcessSample(s.voltage, s.current, s.timestampNs);
      m := P.Measured(s.seqNo, s.timestampNs, phasors);
    }

    /** The phasor stage is as it was, and its memory still its own. */
    twostate predicate Untouched()
      reads Front(phasor), pipeline.meyer`Repr
    {
      && Front(phasor) !! P.Memory(pipeline)
      && unchanged(phasor) && unchanged(phasor.voltage) && unchanged(phasor.current)
      && unchanged(phasor.voltage.sampleBuf) && unchanged(phasor.voltage.weightedCos) && unchanged(phasor.voltage.weightedSin)
      && unchanged(phasor.current.sampleBuf) && unchanged(phasor.current.weightedCos) && unchanged(phasor.current.weightedSin)
    }

    /** The pipeline takes a measurement in, without access to the phasor stage. */
    method Run(m: P.Measured)
      returns (frame: Option<P.PhasorFrame>, anomaly: Option<Matrix.AnomalyEvent>, pull: Option<P.PullEvent>)
      requires pipeline.Valid() && Front(phasor) !! P.Memory(pipeline)
      modifies pipeline, pipeline.anomalies, pipeline.pullEvents, pipeline.matrix, pipeline.matrix.cells,
               pipeline.meyer, pipeline.meyer.Repr
      ensures Untouched() && pipeline.Valid()
      ensures pipeline.Entered(frame, anomaly, m, old(pipeline.Now()))
      ensures pipeline.Assessed(frame, pull, old(pipeline.Ahead()))
    {
      frame, anomaly, pull := pipeline.Process(m);
    }

    /** What the phasor stage measured still stands after the pipeline's turn. */
    method Feed(m: P.Measured, s: Sample)
      returns (frame: Option<P.PhasorFrame>, anomaly: Option<Matrix.AnomalyEvent>, pull: Option<P.PullEvent>)
      requires Valid() && Measures(m, s)
      modifies pipeline, pipeline.anomalies, pipeline.pullEvents, pipeline.matrix, pipeline.matrix.cells,
               pipeline.meyer, pipeline.meyer.Repr
      ensures Valid() && Measures(m, s)
      ensures pipeline.Entered(frame, anomaly, m, old(pipeline.Now()))
      ensures pipeline.Assessed(frame, pull, old(pipeline.Ahead()))
      ensures phasor.voltage.hist == old(phasor.voltage.hist) && phasor.current.hist == old(phasor.current.hist)
    {
      frame, anomaly, pull := Run(m);
    }

    /** A sample in: both windows move by it, and the frame, alarm and event are those of what they now measure. */
    method Process(s: Sample)
      returns (frame: Option<P.PhasorFrame>, anomaly: Option<Matrix.AnomalyEvent>, pull: Option<P.PullEvent>, ghost m: P.Measured)
      requires Valid()
      modifies Front(phasor), P.Memory(pipeline)
      ensures Valid() && Measures(m, s)
      ensures phasor.voltage.hist == old(phasor.voltage.hist) + [s.voltage]
      ensures phasor.current.hist == old(phasor.current.hist) + [s.current]
      ensures pipeline.Entered(frame, anomaly, m, old(pipeline.Now()))
      ensures pipeline.Assessed(frame, pull, old(pipeline.Ahead()))
    {
      var measured := Measure(s);
      frame, anomaly, pull := Feed(measured, s);
      m := measured;
    }

    /** Both windows and everything behind them start over. */
    method Reset()
      requires Valid()
      modifies Front(phasor), P.Memory(pipeline)
      ensures Valid() && phasor.voltage.hist == [] && phasor.current.hist == []
      ensures pipeline.anomHist == [] && pipeline.pullHist == [] && pipeline.matrix.hist == [] && pipeline.matrix.raws == []
      ensures pipeline.totalIn == 0 && pipeline.meyer.Written() == MP.EMPTY_BOOK
      ensures pipeline.pullEventSeq == old(pipeline.pullEventSeq)
    {
      ResetFront();
      ResetBack();
    }

    method ResetFront()
      requires Valid()
      modifies phasor, phasor.voltage, phasor.voltage.sampleBuf, phasor.current, phasor.current.sampleBuf
      ensures Valid() && phasor.voltage.hist == [] && phasor.current.hist == [] && unchanged(pipeline)
    {
      phasor.Reset();
    }

    method Renew()
      requires pipeline.Valid() && Front(phasor) !! P.Memory(pipeline)
      modifies pipeline, pipeline.anomalies, pipeline.pullEvents, pipeline.matrix, pipeline.matrix.cells,
               pipeline.meyer, pipeline.meyer.Repr
      ensures pipeline.Valid() && Untouched()
      ensures pipeline.anomHist == [] && pipeline.pullHist == [] && pipeline.matrix.hist == [] && pipeline.matrix.raws == []
      ensures pipeline.totalIn == 0 && pipeline.meyer.Written() == MP.EMPTY_BOOK
      ensures pipeline.pullEventSeq == old(pipeline.pullEventSeq)
    {
      pipeline.Reset();
    }

    method ResetBack()
      requires Valid()
      modifies pipeline, pipeline.anomalies, pipeline.pullEvents, pipeline.matrix, pipeline.matrix.cells,
               pipeline.meyer, pipeline.meyer.Repr
      ensures Valid() && phasor.voltage.hist == old(phasor.voltage.hist) && phasor.current.hist == old(phasor.current.hist)
      ensures pipeline.anomHist == [] && pipeline.pullHist == [] && pipeline.matrix.hist == [] && pipeline.matrix.raws == []
      ensures pipeline.totalIn == 0 && pipeline.meyer.Written() == MP.EMPTY_BOOK
      ensures pipeline.pullEventSeq == old(pipeline.pullEventSeq)
    {
      Renew();
    }
  }

  /** What the configuration makes of the pipeline. */
  ghost predicate Configured(p: P.Pipeline, cfg: Config)
    reads p, p.matrix, p.meyer, p.meyer.softBuf
  {
    && p.anomHist == [] && p.pullHist == [] && p.matrix.raws == [] && p.totalIn == 0 && p.meyer.Written() == MP.EMPTY_BOOK
    && p.matrix.rows == (if cfg.matrixRows <= 0 then 2048 else cfg.matrixRows)
    && p.maxAnom == (if cfg.maxAnomalies <= 0 then 1024 else cfg.maxAnomalies)
    && p.maxPull == (if cfg.maxPullEvents <= 0 then 1024 else cfg.maxPullEvents)
    && p.pullEnabled == cfg.enablePull && p.channelId == cfg.channelId
    && p.meyer.cfg.redlineGrams == (if cfg.pullRedlineG <= 0.0 then 5.0 else cfg.pullRedlineG)
    && p.meyer.cfg.bondingFreqHz == (if cfg.targetHz <= 0.0 then 40_000.0 else cfg.targetHz)
  }

  /** A new pipeline shares no memory with the phasor stage in front of it. */
  method Behind(phasor: DP.DualPhasor, lib: Libm, pi: real, solve: (MP.Config, MP.Features) -> MP.Estimate, cfg: Config)
    returns (pipeline: P.Pipeline)
    requires pi > 0.0
    ensures pipeline.Valid() && Configured(pipeline, cfg) && Front(phasor) !! P.Memory(pipeline)
  {
    ghost var front := Front(phasor);
    assert forall o <- front :: allocated(o);
    pipeline := P.NewPipeline(lib, pi, solve, cfg.channelId, cfg.matrixRows, cfg.maxAnomalies, cfg.maxPullEvents,
                              cfg.enablePull, cfg.pullRedlineG, cfg.targetHz);
  }

  /** `NewPipeline`: the phasor stage and everything behind it, each with its defaults. */
  method NewChannel(lib: Libm, pi: real, turn: Turns, solve: (MP.Config, MP.Features) -> MP.Estimate, cfg: Config)
    returns (c: Channel)
    requires pi > 0.0
    ensures c.Valid() && Configured(c.pipeline, cfg)
    ensures c.phasor.sampleIdx == 0 && c.phasor.trackedFreq == (if cfg.targetHz <= 0.0 then 40_000.0 else cfg.targetHz)
    ensures c.phasor.Alike(lib, cfg.windowSize, cfg.targetHz, cfg.sampleHz, turn, c.phasor.voltage)
    ensures c.phasor.Alike(lib, cfg.windowSize, cfg.targetHz, cfg.sampleHz, turn, c.phasor.current)
  {
    var phasor := new DP.DualPhasor(lib, cfg.windowSize, Target(cfg.targetHz), cfg.sampleHz, turn);
    var pipeline := Behind(phasor, lib, pi, solve, cfg);
    c := new Channel(phasor, pipeline);
  }
}
