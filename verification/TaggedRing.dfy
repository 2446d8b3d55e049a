/**
 The lock-free queue as an interleaving transition system. Every step is one atomic load,
 one compare-and-swap, one plain access to a cell's value or one atomic store; any number of
 threads may run, each with its own program counter and a `pos` that may be stale.
 Tickets are unbounded; atomics are sequentially consistent.
 */
module TaggedRing {
  import opened Slots

  type Tid = nat

  datatype Cell<T> = Cell(sequence: nat, value: T)

  datatype Taken<T> = Nothing | Taken(ticket: nat, value: T)

  /** Where a thread is, named by what it does next. */
  datatype Pc<T> =
    | Idle
    | EnqLoadPos(val: T)
    | EnqLoadSeq(val: T, pos: nat)
    | EnqCas(val: T, pos: nat)
    | EnqWrite(val: T, pos: nat)
    | EnqStore(val: T, pos: nat)
    | EnqReturn(ok: bool)
    | DeqLoadPos
    | DeqLoadSeq(pos: nat)
    | DeqCas(pos: nat)
    | DeqRead(pos: nat)
    | DeqZero(pos: nat, val: T)
    | DeqStore(pos: nat, val: T)
    | DeqReturn(got: Taken<T>)

  datatype Claim<T> = Claim(producer: Tid, value: T)

  /** The shared ring and the threads, followed by history variables no step ever tests:
      the claim made with each enqueue ticket, who is between claiming a ticket and
      publishing its cell, what each producer's calls have returned true for, and what each
      dequeue ticket returned. */
  datatype System<T> = System(
    zero: T,
    cells: seq<Cell<T>>,
    enqPos: nat,
    deqPos: nat,
    threads: map<Tid, Pc<T>>,
    history: seq<Claim<T>>,
    writers: map<nat, Tid>,
    readers: map<nat, Tid>,
    accepted: map<Tid, seq<T>>,
    delivered: map<nat, T>
  )

  datatype Action<T> = InvokeEnq(tid: Tid, val: T) | InvokeDeq(tid: Tid) | Run(tid: Tid)

  predicate AtRest<T>(pc: Pc<T>) { pc.Idle? || pc.EnqReturn? || pc.DeqReturn? }

  predicate Enabled<T>(s: System<T>, a: Action<T>) {
    && |s.cells| >= 2
    && a.tid in s.threads
    && (a.Run? <==> !AtRest(s.threads[a.tid]))
  }

  function At<T>(s: System<T>, ticket: nat): Cell<T>
    requires |s.cells| > 0
  {
    s.cells[Slot(ticket, |s.cells|)]
  }

  function Go<T>(s: System<T>, t: Tid, pc: Pc<T>): System<T> {
    s.(threads := s.threads[t := pc])
  }

  function Accepted<T>(s: System<T>, t: Tid): seq<T> {
    if t in s.accepted then s.accepted[t] else []
  }

  function Apply<T>(s: System<T>, a: Action<T>): System<T>
    requires Enabled(s, a)
  {
    match a
    case InvokeEnq(t, v) => Go(s, t, EnqLoadPos(v))
    case InvokeDeq(t) => Go(s, t, DeqLoadPos)
    case Run(t) => Step(s, t)
  }

  function Step<T>(s: System<T>, t: Tid): System<T>
    requires Enabled(s, Run(t))
  {
    match s.threads[t]
    case EnqLoadPos(v) => Go(s, t, EnqLoadSeq(v, s.enqPos))
    case EnqLoadSeq(v, pos) =>
      var seqNo := At(s, pos).sequence;
      Go(s, t, if seqNo == pos then EnqCas(v, pos) else if seqNo < pos then EnqReturn(false) else EnqLoadPos(v))
    case EnqCas(v, pos) =>
      if s.enqPos == pos then
        Go(s, t, EnqWrite(v, pos)).(enqPos := pos + 1, history := s.history + [Claim(t, v)], writers := s.writers[pos := t])
      else
        Go(s, t, EnqLoadSeq(v, pos))
    case EnqWrite(v, pos) =>
      Go(s, t, EnqStore(v, pos)).(cells := s.cells[Slot(pos, |s.cells|) := At(s, pos).(value := v)])
    case EnqStore(v, pos) =>
      Go(s, t, EnqReturn(true)).(
        cells := s.cells[Slot(pos, |s.cells|) := At(s, pos).(sequence := pos + 1)],
        writers := s.writers - {pos},
        accepted := s.accepted[t := Accepted(s, t) + [v]])
    case DeqLoadPos => Go(s, t, DeqLoadSeq(s.deqPos))
    case DeqLoadSeq(pos) =>
      var seqNo := At(s, pos).sequence;
      Go(s, t, if seqNo == pos + 1 then DeqCas(pos) else if seqNo < pos + 1 then DeqReturn(Nothing) else DeqLoadPos)
    case DeqCas(pos) =>
      if s.deqPos == pos then
        Go(s, t, DeqRead(pos)).(deqPos := pos + 1, readers := s.readers[pos := t])
      else
        Go(s, t, DeqLoadSeq(pos))
    case DeqRead(pos) => Go(s, t, DeqZero(pos, At(s, pos).value))
    case DeqZero(pos, v) =>
      Go(s, t, DeqStore(pos, v)).(cells := s.cells[Slot(pos, |s.cells|) := At(s, pos).(value := s.zero)])
    case DeqStore(pos, v) =>
      Go(s, t, DeqReturn(Taken(pos, v))).(
        cells := s.cells[Slot(pos, |s.cells|) := At(s, pos).(sequence := pos + |s.cells|)],
        readers := s.readers - {pos},
        delivered := s.delivered[pos := v])
    case _ => s
  }

  /** `NewTagged`: cell i carries sequence i and the zero value; every thread is idle. */
  ghost predicate Init<T>(s: System<T>) {
    && |s.cells| >= 2
    && (forall i :: 0 <= i < |s.cells| ==> s.cells[i] == Cell(i, s.zero))
    && s.enqPos == 0 == s.deqPos
    && (forall t :: t in s.threads ==> s.threads[t] == Idle)
    && s.history == [] && s.writers == map[] && s.readers == map[]
    && s.accepted == map[] && s.delivered == map[]
  }

  // ---- the invariant -----------------------------------------------------------------------

  /** The state of the one window ticket `k` in [deqPos, deqPos + cap) that owns its cell. */
  ghost predicate CellOk<T>(s: System<T>, k: nat) {
    && |s.cells| >= 2 && |s.history| == s.enqPos
    && var c, cap := At(s, k), |s.cells|;
    if k < s.enqPos then
      if k in s.writers then c.sequence == k
      else c.sequence == k + 1 && c.value == s.history[k].value
    else if k >= cap && k - cap in s.readers then c.sequence == k - cap + 1
    else c.sequence == k && c.value == s.zero
  }

  predicate Writing<T>(pc: Pc<T>, k: nat) { (pc.EnqWrite? || pc.EnqStore?) && pc.pos == k }

  predicate Reading<T>(pc: Pc<T>, k: nat) { (pc.DeqRead? || pc.DeqZero? || pc.DeqStore?) && pc.pos == k }

  /** A claimed enqueue ticket that is not yet published has exactly one thread writing it. */
  ghost predicate WriterOk<T>(s: System<T>, k: nat) {
    k in s.writers ==>
      s.deqPos <= k < s.enqPos && s.writers[k] in s.threads && Writing(s.threads[s.writers[k]], k)
  }

  /** A claimed dequeue ticket whose cell is not yet released has exactly one thread reading it. */
  ghost predicate ReaderOk<T>(s: System<T>, k: nat) {
    k in s.readers ==>
      && k < s.deqPos && s.enqPos <= k + |s.cells|
      && s.readers[k] in s.threads && Reading(s.threads[s.readers[k]], k)
  }

  ghost predicate MayWrite<T>(s: System<T>, t: Tid, pos: nat, v: T) {
    pos in s.writers && s.writers[pos] == t && pos < s.enqPos == |s.history| && s.history[pos] == Claim(t, v)
  }

  ghost predicate MayRead<T>(s: System<T>, t: Tid, pos: nat) {
    pos in s.readers && s.readers[pos] == t && pos < s.enqPos
  }

  /** What a thread may rely on at each program point, with `pos` possibly stale. */
  ghost predicate ThreadOk<T>(s: System<T>, t: Tid) {
    && |s.cells| >= 2 && |s.history| == s.enqPos
    && (t in s.threads ==>
      match s.threads[t]
      case EnqLoadSeq(_, pos) => pos <= s.enqPos
      case EnqCas(_, pos) => pos <= s.enqPos && At(s, pos).sequence >= pos
      case EnqWrite(v, pos) => MayWrite(s, t, pos, v)
      case EnqStore(v, pos) => MayWrite(s, t, pos, v) && At(s, pos).value == v
      case DeqLoadSeq(pos) => pos <= s.deqPos
      case DeqCas(pos) => pos <= s.deqPos && At(s, pos).sequence >= pos + 1
      case DeqRead(pos) => MayRead(s, t, pos) && At(s, pos).value == s.history[pos].value
      case DeqZero(pos, v) => MayRead(s, t, pos) && v == s.history[pos].value
      case DeqStore(pos, v) => MayRead(s, t, pos) && v == s.history[pos].value && At(s, pos).value == s.zero
      case DeqReturn(Taken(pos, v)) => pos in s.delivered && s.delivered[pos] == v
      case _ => true)
  }

  /** A dequeue ticket delivers once it is claimed and released, and then the value claimed with it. */
  ghost predicate DeliveredOk<T>(s: System<T>, k: nat) {
    && |s.history| == s.enqPos
    && (k in s.delivered <==> k < s.deqPos && k !in s.readers)
    && (k in s.delivered ==> k < s.enqPos && s.delivered[k] == s.history[k].value)
  }

  predicate Window<T>(s: System<T>, k: nat) { s.deqPos <= k < s.deqPos + |s.cells| }

  predicate Positions<T>(s: System<T>) {
    |s.cells| >= 2 && s.deqPos <= s.enqPos <= s.deqPos + |s.cells| && |s.history| == s.enqPos
  }

  ghost predicate Inv<T>(s: System<T>) {
    && Positions(s)
    && (forall k: nat {:trigger WriterOk(s, k)} :: WriterOk(s, k))
    && (forall k: nat {:trigger ReaderOk(s, k)} :: ReaderOk(s, k))
    && (forall k: nat {:trigger CellOk(s, k)} :: Window(s, k) ==> CellOk(s, k))
    && (forall t: Tid {:trigger ThreadOk(s, t)} :: ThreadOk(s, t))
    && (forall k: nat {:trigger DeliveredOk(s, k)} :: DeliveredOk(s, k))
  }
}
