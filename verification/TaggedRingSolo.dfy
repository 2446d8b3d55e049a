/** A call run without interruption: it returns after at most six steps, and its answer is decided
    by the state it started in, other threads being wherever they were left. */
module TaggedRingSolo {
  import opened Slots
  import opened TaggedRing
  import opened TaggedRingProof
  import opened TaggedRingTheorems

  /** Room at the back: not full, and the last dequeuer of the cell has released it. */
  predicate CanEnqueue<T>(s: System<T>)
    requires Positions(s)
  {
    |Queue(s)| < |s.cells| && !(s.enqPos >= |s.cells| && s.enqPos - |s.cells| in s.readers)
  }

  /** Something at the front: not empty, and its enqueuer has published it. */
  predicate CanDequeue<T>(s: System<T>)
    requires Positions(s)
  {
    Queue(s) != [] && s.deqPos !in s.writers
  }

  /** The fraction of a solo run's state that its answer depends on. */
  predicate OnlyMoved<T(==)>(s0: System<T>, s: System<T>, t: Tid) {
    && |s.cells| == |s0.cells|
    && t in s0.threads && t in s.threads
    && s0.threads.Keys == s.threads.Keys
    && (forall u :: u in s.threads && u != t ==> s.threads[u] == s0.threads[u])
  }

  ghost predicate SoloEnq<T>(s0: System<T>, s: System<T>, t: Tid, v: T) {
    && Positions(s0) && Inv(s) && OnlyMoved(s0, s, t)
    && s.readers == s0.readers && s.deqPos == s0.deqPos
    && match s.threads[t]
       case EnqLoadPos(w) => w == v && s.enqPos == s0.enqPos && Queue(s) == Queue(s0)
       case EnqLoadSeq(w, pos) => w == v && s.enqPos == s0.enqPos == pos && Queue(s) == Queue(s0)
       case EnqCas(w, pos) => w == v && s.enqPos == s0.enqPos == pos && Queue(s) == Queue(s0) && CanEnqueue(s0)
       case EnqWrite(w, _) => w == v && Queue(s) == Queue(s0) + [v] && CanEnqueue(s0)
       case EnqStore(w, _) => w == v && Queue(s) == Queue(s0) + [v] && CanEnqueue(s0)
       case EnqReturn(ok) => ok == CanEnqueue(s0) && Queue(s) == Queue(s0) + if ok then [v] else []
       case _ => false
  }

  ghost predicate SoloDeq<T>(s0: System<T>, s: System<T>, t: Tid) {
    && Positions(s0) && Inv(s) && OnlyMoved(s0, s, t)
    && s.writers == s0.writers && s.enqPos == s0.enqPos && s.history == s0.history
    && match s.threads[t]
       case DeqLoadPos => s.deqPos == s0.deqPos
       case DeqLoadSeq(pos) => s.deqPos == s0.deqPos == pos
       case DeqCas(pos) => s.deqPos == s0.deqPos == pos && CanDequeue(s0)
       case DeqRead(pos) => s0.deqPos == pos && s.deqPos == pos + 1 && CanDequeue(s0)
       case DeqZero(pos, _) => s0.deqPos == pos && s.deqPos == pos + 1 && CanDequeue(s0)
       case DeqStore(pos, _) => s0.deqPos == pos && s.deqPos == pos + 1 && CanDequeue(s0)
       case DeqReturn(Taken(pos, v)) => CanDequeue(s0) && pos == s0.deqPos && v == Queue(s0)[0] && s.deqPos == pos + 1
       case DeqReturn(Nothing) => !CanDequeue(s0) && s.deqPos == s0.deqPos
       case _ => false
  }

  /** Steps left on the uninterrupted path. */
  function Remaining<T>(pc: Pc<T>): nat {
    match pc
    case EnqLoadPos(_) => 5
    case EnqLoadSeq(_, _) => 4
    case EnqCas(_, _) => 3
    case EnqWrite(_, _) => 2
    case EnqStore(_, _) => 1
    case DeqLoadPos => 6
    case DeqLoadSeq(_) => 5
    case DeqCas(_) => 4
    case DeqRead(_) => 3
    case DeqZero(_, _) => 2
    case DeqStore(_, _) => 1
    case _ => 0
  }

  /** The sequences a thread finds at the current positions. */
  lemma CurrentSequences<T>(s: System<T>)
    requires Inv(s)
    ensures CanEnqueue(s) ==> At(s, s.enqPos).sequence == s.enqPos
    ensures !CanEnqueue(s) ==> At(s, s.enqPos).sequence < s.enqPos
    ensures CanDequeue(s) ==> At(s, s.deqPos).sequence == s.deqPos + 1
    ensures !CanDequeue(s) ==> At(s, s.deqPos).sequence < s.deqPos + 1
  {
    assert CellOk(s, s.deqPos);
    if Window(s, s.enqPos) { assert CellOk(s, s.enqPos); } else { LapSlot(s.deqPos, |s.cells|); }
    assert WriterOk(s, s.deqPos);
  }

  lemma SoloEnqStep<T>(s0: System<T>, s: System<T>, t: Tid, v: T)
    requires SoloEnq(s0, s, t, v) && !AtRest(s.threads[t])
    ensures SoloEnq(s0, Step(s, t), t, v) && Remaining(Step(s, t).threads[t]) < Remaining(s.threads[t])
  {
    StepInv(s, Run(t));
    StepRefines(s, Run(t));
    CurrentSequences(s);
    var pc := s.threads[t];
    if Claiming(pc) {
      SoloEnqCas(s0, s, t, v);
    } else if Storing(pc) {
      SoloEnqStore(s0, s, t, v);
    } else {
      LocalEffect(s, Run(t));
      SoloEnqLoad(s0, s, t, v);
    }
  }

  lemma SoloEnqLoad<T>(s0: System<T>, s: System<T>, t: Tid, v: T)
    requires SoloEnq(s0, s, t, v) && (s.threads[t].EnqLoadPos? || s.threads[t].EnqLoadSeq?)
    requires Inv(Step(s, t)) && Queue(Step(s, t)) == Queue(s)
    requires CanEnqueue(s) ==> At(s, s.enqPos).sequence == s.enqPos
    requires !CanEnqueue(s) ==> At(s, s.enqPos).sequence < s.enqPos
    ensures SoloEnq(s0, Step(s, t), t, v) && Remaining(Step(s, t).threads[t]) < Remaining(s.threads[t])
  {
    assert CanEnqueue(s) == CanEnqueue(s0);
  }

  lemma SoloEnqCas<T>(s0: System<T>, s: System<T>, t: Tid, v: T)
    requires SoloEnq(s0, s, t, v) && s.threads[t].EnqCas?
    requires Inv(Step(s, t)) && FifoStep(|s.cells|, Queue(s), EventOf(s, Run(t)), Queue(Step(s, t)))
    ensures SoloEnq(s0, Step(s, t), t, v) && Remaining(Step(s, t).threads[t]) < Remaining(s.threads[t])
  {
  }

  lemma SoloEnqStore<T>(s0: System<T>, s: System<T>, t: Tid, v: T)
    requires SoloEnq(s0, s, t, v) && (s.threads[t].EnqWrite? || s.threads[t].EnqStore?)
    requires Inv(Step(s, t)) && Queue(Step(s, t)) == Queue(s)
    ensures SoloEnq(s0, Step(s, t), t, v) && Remaining(Step(s, t).threads[t]) < Remaining(s.threads[t])
  {
  }

  lemma SoloDeqStep<T>(s0: System<T>, s: System<T>, t: Tid)
    requires SoloDeq(s0, s, t) && !AtRest(s.threads[t])
    ensures SoloDeq(s0, Step(s, t), t) && Remaining(Step(s, t).threads[t]) < Remaining(s.threads[t])
  {
    StepInv(s, Run(t));
    CurrentSequences(s);
    var pc := s.threads[t];
    if Claiming(pc) {
      SoloDeqCas(s0, s, t);
    } else if Storing(pc) {
      SoloDeqStore(s0, s, t);
    } else {
      SoloDeqLoad(s0, s, t);
    }
  }

  lemma SoloDeqLoad<T>(s0: System<T>, s: System<T>, t: Tid)
    requires SoloDeq(s0, s, t) && (s.threads[t].DeqLoadPos? || s.threads[t].DeqLoadSeq? || s.threads[t].DeqRead?)
    requires Inv(Step(s, t))
    requires CanDequeue(s) ==> At(s, s.deqPos).sequence == s.deqPos + 1
    requires !CanDequeue(s) ==> At(s, s.deqPos).sequence < s.deqPos + 1
    ensures SoloDeq(s0, Step(s, t), t) && Remaining(Step(s, t).threads[t]) < Remaining(s.threads[t])
  {
    assert s.deqPos == s0.deqPos ==> CanDequeue(s) == CanDequeue(s0);
  }

  lemma SoloDeqCas<T>(s0: System<T>, s: System<T>, t: Tid)
    requires SoloDeq(s0, s, t) && s.threads[t].DeqCas?
    requires Inv(Step(s, t))
    ensures SoloDeq(s0, Step(s, t), t) && Remaining(Step(s, t).threads[t]) < Remaining(s.threads[t])
  {
  }

  lemma SoloDeqStore<T>(s0: System<T>, s: System<T>, t: Tid)
    requires SoloDeq(s0, s, t) && (s.threads[t].DeqZero? || s.threads[t].DeqStore?)
    requires Inv(Step(s, t))
    ensures SoloDeq(s0, Step(s, t), t) && Remaining(Step(s, t).threads[t]) < Remaining(s.threads[t])
  {
    assert ThreadOk(s, t);
  }
}
