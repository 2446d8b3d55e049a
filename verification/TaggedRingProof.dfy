/** Every step of every thread keeps the invariant of the queue. The proof is pointwise: one
    lemma for each conjunct and each kind of step, all about a single ticket or thread. */
module TaggedRingProof {
  import opened Slots
  import opened TaggedRing

  lemma InitInv<T>(s: System<T>)
    requires Init(s)
    ensures Inv(s)
  {
    forall k: nat | Window(s, k)
      ensures CellOk(s, k)
    {
    }
  }

  /** A ticket already behind `deqPos` finds a sequence beyond it. */
  lemma {:induction false} StaleSequence<T>(s: System<T>, pos: nat)
    requires Inv(s) && pos < s.deqPos
    ensures At(s, pos).sequence >= pos + 1
    decreases s.deqPos - pos
  {
    var cap := |s.cells|;
    LapSlot(pos, cap);
    if pos + cap < s.deqPos {
      StaleSequence(s, pos + cap);
    } else {
      assert CellOk(s, pos + cap);
    }
  }

  /** A sequence of `pos` or more, seen while `pos` is still unclaimed, means the cell is free. */
  lemma ClaimableCell<T>(s: System<T>, pos: nat)
    requires Inv(s) && s.enqPos == pos && At(s, pos).sequence >= pos
    ensures pos < s.deqPos + |s.cells| && At(s, pos) == Cell(pos, s.zero)
    ensures pos >= |s.cells| ==> pos - |s.cells| !in s.readers
  {
    LapSlot(s.deqPos, |s.cells|);
    assert CellOk(s, s.deqPos);
    assert pos < s.deqPos + |s.cells| ==> CellOk(s, pos);
  }

  /** A sequence beyond `pos`, seen while `pos` is the next to dequeue, means the cell is full. */
  lemma TakeableCell<T>(s: System<T>, pos: nat)
    requires Inv(s) && s.deqPos == pos && At(s, pos).sequence >= pos + 1
    ensures pos < s.enqPos && pos !in s.writers && At(s, pos) == Cell(pos + 1, s.history[pos].value)
  {
    assert CellOk(s, pos);
  }

  predicate Storing<T>(pc: Pc<T>) { pc.EnqWrite? || pc.EnqStore? || pc.DeqZero? || pc.DeqStore? }

  /** A store to the cell of `pos`, which is also the cell of `q`, leaves the cells of the
      tickets less than a lap from `q` alone; other steps change no cell. */
  lemma StepAt<T>(s: System<T>, t: Tid, q: nat, k: nat)
    requires Enabled(s, Run(t))
    ensures var s', pc := Step(s, t), s.threads[t];
            && |s'.cells| == |s.cells|
            && (!Storing(pc) ==> At(s', k) == At(s, k))
            && (Storing(pc) && Slot(q, |s.cells|) == Slot(pc.pos, |s.cells|) && k != q && k < q + |s.cells| && q < k + |s.cells|
                ==> At(s', k) == At(s, k))
  {
    if k < q < k + |s.cells| { SlotNext(k, q, |s.cells|); }
    if q < k < q + |s.cells| { SlotNext(q, k, |s.cells|); }
  }

  lemma CellEnqCas<T>(s: System<T>, t: Tid, k: nat)
    requires Inv(s) && Enabled(s, Run(t)) && s.threads[t].EnqCas? && Window(Step(s, t), k)
    ensures CellOk(Step(s, t), k)
  {
    assert ThreadOk(s, t) && CellOk(s, k);
    if s.enqPos == s.threads[t].pos { ClaimableCell(s, s.enqPos); }
  }

  lemma CellDeqCas<T>(s: System<T>, t: Tid, k: nat)
    requires Inv(s) && Enabled(s, Run(t)) && s.threads[t].DeqCas? && Window(Step(s, t), k)
    ensures CellOk(Step(s, t), k)
  {
    assert ThreadOk(s, t);
    if s.deqPos == s.threads[t].pos { TakeableCell(s, s.deqPos); }
    if Window(s, k) { assert CellOk(s, k); } else { LapSlot(s.deqPos, |s.cells|); }
  }

  lemma CellEnqWrite<T>(s: System<T>, t: Tid, k: nat)
    requires Inv(s) && Enabled(s, Run(t)) && (s.threads[t].EnqWrite? || s.threads[t].EnqStore?) && Window(Step(s, t), k)
    ensures CellOk(Step(s, t), k)
  {
    assert ThreadOk(s, t) && CellOk(s, k) && WriterOk(s, s.threads[t].pos);
    StepAt(s, t, s.threads[t].pos, k);
  }

  lemma CellDeqZero<T>(s: System<T>, t: Tid, k: nat)
    requires Inv(s) && Enabled(s, Run(t)) && (s.threads[t].DeqZero? || s.threads[t].DeqStore?) && Window(Step(s, t), k)
    ensures CellOk(Step(s, t), k)
  {
    assert ThreadOk(s, t) && CellOk(s, k) && ReaderOk(s, s.threads[t].pos);
    LapSlot(s.threads[t].pos, |s.cells|);
    StepAt(s, t, s.threads[t].pos + |s.cells|, k);
  }

  predicate Claiming<T>(pc: Pc<T>) { pc.EnqCas? || pc.DeqCas? }

  predicate LocalAction<T>(s: System<T>, a: Action<T>) {
    Enabled(s, a) && (a.Run? ==> !Storing(s.threads[a.tid]) && !Claiming(s.threads[a.tid]))
  }

  /** Loads, reads and calls change nothing but the program counter of their own thread. */
  lemma LocalEffect<T>(s: System<T>, a: Action<T>)
    requires LocalAction(s, a)
    ensures var s' := Apply(s, a);
            s' == s.(threads := s'.threads) && s'.threads == s.threads[a.tid := s'.threads[a.tid]]
  {
  }

  /** Stores leave the positions and the claims alone. */
  lemma StoreEffect<T>(s: System<T>, t: Tid)
    requires Enabled(s, Run(t)) && Storing(s.threads[t])
    ensures var s' := Step(s, t);
            && |s'.cells| == |s.cells| && s'.zero == s.zero && s'.threads == s.threads[t := s'.threads[t]]
            && s'.enqPos == s.enqPos && s'.deqPos == s.deqPos && s'.history == s.history
  {
    if s.threads[t].EnqWrite? || s.threads[t].EnqStore? { EnqStoreEffect(s, t); } else { DeqStoreEffect(s, t); }
  }

  lemma EnqStoreEffect<T>(s: System<T>, t: Tid)
    requires Enabled(s, Run(t)) && (s.threads[t].EnqWrite? || s.threads[t].EnqStore?)
    ensures var s' := Step(s, t);
            && |s'.cells| == |s.cells| && s'.zero == s.zero && s'.threads == s.threads[t := s'.threads[t]]
            && s'.enqPos == s.enqPos && s'.deqPos == s.deqPos && s'.history == s.history
  {
  }

  lemma DeqStoreEffect<T>(s: System<T>, t: Tid)
    requires Enabled(s, Run(t)) && (s.threads[t].DeqZero? || s.threads[t].DeqStore?)
    ensures var s' := Step(s, t);
            && |s'.cells| == |s.cells| && s'.zero == s.zero && s'.threads == s.threads[t := s'.threads[t]]
            && s'.enqPos == s.enqPos && s'.deqPos == s.deqPos && s'.history == s.history
  {
  }

  lemma CellLocal<T>(s: System<T>, a: Action<T>, k: nat)
    requires Inv(s) && LocalAction(s, a) && Window(Apply(s, a), k)
    ensures CellOk(Apply(s, a), k)
  {
    LocalEffect(s, a);
    assert CellOk(s, k);
  }

  lemma CellStep<T>(s: System<T>, a: Action<T>, k: nat)
    requires Inv(s) && Enabled(s, a) && Window(Apply(s, a), k)
    ensures CellOk(Apply(s, a), k)
  {
    if LocalAction(s, a) {
      CellLocal(s, a, k);
    } else if s.threads[a.tid].EnqCas? {
      CellEnqCas(s, a.tid, k);
    } else if s.threads[a.tid].DeqCas? {
      CellDeqCas(s, a.tid, k);
    } else if s.threads[a.tid].EnqWrite? || s.threads[a.tid].EnqStore? {
      CellEnqWrite(s, a.tid, k);
    } else {
      CellDeqZero(s, a.tid, k);
    }
  }

  lemma OwnersLocal<T>(s: System<T>, a: Action<T>, k: nat)
    requires Inv(s) && LocalAction(s, a)
    ensures WriterOk(Apply(s, a), k) && ReaderOk(Apply(s, a), k)
  {
    LocalEffect(s, a);
    assert ThreadOk(s, a.tid) && WriterOk(s, k) && ReaderOk(s, k);
  }

  lemma OwnersEnqCas<T>(s: System<T>, t: Tid, k: nat)
    requires Inv(s) && Enabled(s, Run(t)) && s.threads[t].EnqCas?
    ensures WriterOk(Step(s, t), k) && ReaderOk(Step(s, t), k)
  {
    assert ThreadOk(s, t) && WriterOk(s, k) && ReaderOk(s, k);
    if s.enqPos == s.threads[t].pos { ClaimableCell(s, s.enqPos); }
  }

  lemma OwnersDeqCas<T>(s: System<T>, t: Tid, k: nat)
    requires Inv(s) && Enabled(s, Run(t)) && s.threads[t].DeqCas?
    ensures WriterOk(Step(s, t), k) && ReaderOk(Step(s, t), k)
  {
    assert ThreadOk(s, t) && WriterOk(s, k) && ReaderOk(s, k);
    if s.deqPos == s.threads[t].pos { TakeableCell(s, s.deqPos); }
  }

  lemma OwnersEnqWrite<T>(s: System<T>, t: Tid, k: nat)
    requires Inv(s) && Enabled(s, Run(t)) && (s.threads[t].EnqWrite? || s.threads[t].EnqStore?)
    ensures WriterOk(Step(s, t), k) && ReaderOk(Step(s, t), k)
  {
    assert ThreadOk(s, t) && WriterOk(s, k) && ReaderOk(s, k);
  }

  lemma OwnersDeqZero<T>(s: System<T>, t: Tid, k: nat)
    requires Inv(s) && Enabled(s, Run(t)) && (s.threads[t].DeqZero? || s.threads[t].DeqStore?)
    ensures WriterOk(Step(s, t), k) && ReaderOk(Step(s, t), k)
  {
    assert ThreadOk(s, t) && WriterOk(s, k) && ReaderOk(s, k);
  }

  lemma OwnersStep<T>(s: System<T>, a: Action<T>, k: nat)
    requires Inv(s) && Enabled(s, a)
    ensures WriterOk(Apply(s, a), k) && ReaderOk(Apply(s, a), k)
  {
    if LocalAction(s, a) {
      OwnersLocal(s, a, k);
    } else if s.threads[a.tid].EnqCas? {
      OwnersEnqCas(s, a.tid, k);
    } else if s.threads[a.tid].DeqCas? {
      OwnersDeqCas(s, a.tid, k);
    } else if s.threads[a.tid].EnqWrite? || s.threads[a.tid].EnqStore? {
      OwnersEnqWrite(s, a.tid, k);
    } else {
      OwnersDeqZero(s, a.tid, k);
    }
  }

  lemma DeliveredLocal<T>(s: System<T>, a: Action<T>, k: nat)
    requires Inv(s) && LocalAction(s, a)
    ensures DeliveredOk(Apply(s, a), k)
  {
    LocalEffect(s, a);
    assert DeliveredOk(s, k);
  }

  lemma DeliveredClaim<T>(s: System<T>, t: Tid, k: nat)
    requires Inv(s) && Enabled(s, Run(t)) && (s.threads[t].EnqCas? || s.threads[t].DeqCas?)
    ensures DeliveredOk(Step(s, t), k)
  {
    assert ThreadOk(s, t) && DeliveredOk(s, k);
  }

  lemma DeliveredEnq<T>(s: System<T>, t: Tid, k: nat)
    requires Inv(s) && Enabled(s, Run(t)) && (s.threads[t].EnqWrite? || s.threads[t].EnqStore?)
    ensures DeliveredOk(Step(s, t), k)
  {
    assert ThreadOk(s, t) && DeliveredOk(s, k);
  }

  lemma DeliveredDeq<T>(s: System<T>, t: Tid, k: nat)
    requires Inv(s) && Enabled(s, Run(t)) && (s.threads[t].DeqZero? || s.threads[t].DeqStore?)
    ensures DeliveredOk(Step(s, t), k)
  {
    assert ThreadOk(s, t) && DeliveredOk(s, k);
    assert ReaderOk(s, s.threads[t].pos);
  }

  lemma DeliveredStep<T>(s: System<T>, a: Action<T>, k: nat)
    requires Inv(s) && Enabled(s, a)
    ensures DeliveredOk(Apply(s, a), k)
  {
    if LocalAction(s, a) {
      DeliveredLocal(s, a, k);
    } else if s.threads[a.tid].EnqCas? || s.threads[a.tid].DeqCas? {
      DeliveredClaim(s, a.tid, k);
    } else if s.threads[a.tid].EnqWrite? || s.threads[a.tid].EnqStore? {
      DeliveredEnq(s, a.tid, k);
    } else {
      DeliveredDeq(s, a.tid, k);
    }
  }

  /** Sequences never go back. */
  lemma SequenceEnq<T>(s: System<T>, t: Tid, k: nat)
    requires Inv(s) && Enabled(s, Run(t)) && s.threads[t].EnqStore?
    ensures At(Step(s, t), k).sequence >= At(s, k).sequence
  {
    var pos := s.threads[t].pos;
    assert ThreadOk(s, t) && WriterOk(s, pos) && CellOk(s, pos);
  }

  lemma SequenceDeq<T>(s: System<T>, t: Tid, k: nat)
    requires Inv(s) && Enabled(s, Run(t)) && s.threads[t].DeqStore?
    ensures At(Step(s, t), k).sequence >= At(s, k).sequence
  {
    var pos := s.threads[t].pos;
    LapSlot(pos, |s.cells|);
    assert ThreadOk(s, t) && ReaderOk(s, pos) && CellOk(s, pos + |s.cells|);
  }

  predicate Owns<T>(pc: Pc<T>, k: nat) { Writing(pc, k) || Reading(pc, k) }

  /** Two threads that own tickets own different cells. */
  lemma OwnersApart<T>(s: System<T>, t: Tid, u: Tid, k: nat, l: nat)
    requires Inv(s) && t in s.threads && u in s.threads && t != u
    requires Owns(s.threads[t], k) && Owns(s.threads[u], l)
    ensures k != l && Slot(k, |s.cells|) != Slot(l, |s.cells|)
  {
    assert ThreadOk(s, t) && ThreadOk(s, u);
    assert WriterOk(s, k) && ReaderOk(s, k) && WriterOk(s, l) && ReaderOk(s, l);
    if k < l { SlotNext(k, l, |s.cells|); }
    if l < k { SlotNext(l, k, |s.cells|); }
  }

  /** What any step does to what others see: positions, sequences and histories only grow. */
  ghost predicate Advances<T>(s: System<T>, s': System<T>)
    requires |s.cells| >= 2
  {
    && |s'.cells| == |s.cells| && s'.zero == s.zero
    && s.enqPos <= s'.enqPos == |s'.history|
    && s.deqPos <= s'.deqPos
    && s.history <= s'.history
    && s'.threads.Keys == s.threads.Keys
  }

  lemma AdvancesClaim<T>(s: System<T>, t: Tid)
    requires Inv(s) && Enabled(s, Run(t)) && Claiming(s.threads[t])
    ensures Advances(s, Step(s, t))
  {
  }

  lemma AdvancesStore<T>(s: System<T>, t: Tid)
    requires Inv(s) && Enabled(s, Run(t)) && Storing(s.threads[t])
    ensures Advances(s, Step(s, t))
  {
    StoreEffect(s, t);
  }

  ghost predicate Untouched<T>(s: System<T>, s': System<T>, k: nat)
    requires |s'.cells| == |s.cells| >= 2
  {
    && At(s', k) == At(s, k)
    && (k in s.writers ==> k in s'.writers && s'.writers[k] == s.writers[k])
    && (k in s.readers ==> k in s'.readers && s'.readers[k] == s.readers[k])
  }

  lemma UntouchedClaim<T>(s: System<T>, t: Tid, u: Tid, k: nat)
    requires Inv(s) && Enabled(s, Run(t)) && Claiming(s.threads[t])
    requires u in s.threads && u != t && Owns(s.threads[u], k)
    ensures Untouched(s, Step(s, t), k)
  {
    assert ThreadOk(s, t) && ThreadOk(s, u) && WriterOk(s, k) && ReaderOk(s, k);
  }

  lemma UntouchedStore<T>(s: System<T>, t: Tid, u: Tid, k: nat)
    requires Inv(s) && Enabled(s, Run(t)) && Storing(s.threads[t])
    requires u in s.threads && u != t && Owns(s.threads[u], k)
    ensures Untouched(s, Step(s, t), k)
  {
    OwnersApart(s, t, u, s.threads[t].pos, k);
  }

  /** What a step of another thread may change, as far as a bystander `u` can tell. */
  ghost predicate Spares<T>(s: System<T>, s': System<T>, u: Tid)
    requires |s.cells| >= 2 && u in s.threads
  {
    var pc := s.threads[u];
    && Advances(s, s') && u in s'.threads && s'.threads[u] == pc
    && (pc.EnqCas? || pc.DeqCas? ==> At(s', pc.pos).sequence >= At(s, pc.pos).sequence)
    && (pc.EnqWrite? || pc.EnqStore? || pc.DeqRead? || pc.DeqZero? || pc.DeqStore? ==> Untouched(s, s', pc.pos))
    && (pc.DeqReturn? && pc.got.Taken? && pc.got.ticket in s.delivered ==>
          pc.got.ticket in s'.delivered && s'.delivered[pc.got.ticket] == s.delivered[pc.got.ticket])
  }

  lemma SparesClaim<T>(s: System<T>, t: Tid, u: Tid)
    requires Inv(s) && Enabled(s, Run(t)) && Claiming(s.threads[t]) && u in s.threads && u != t
    ensures Spares(s, Step(s, t), u)
  {
    var pc := s.threads[u];
    AdvancesClaim(s, t);
    if pc.EnqWrite? || pc.EnqStore? || pc.DeqRead? || pc.DeqZero? || pc.DeqStore? {
      UntouchedClaim(s, t, u, pc.pos);
    }
  }

  lemma SparesEnqStore<T>(s: System<T>, t: Tid, u: Tid)
    requires Inv(s) && Enabled(s, Run(t)) && (s.threads[t].EnqWrite? || s.threads[t].EnqStore?) && u in s.threads && u != t
    ensures Spares(s, Step(s, t), u)
  {
    var pc := s.threads[u];
    AdvancesStore(s, t);
    if pc.EnqWrite? || pc.EnqStore? || pc.DeqRead? || pc.DeqZero? || pc.DeqStore? {
      UntouchedStore(s, t, u, pc.pos);
    } else if (pc.EnqCas? || pc.DeqCas?) && s.threads[t].EnqStore? {
      SequenceEnq(s, t, pc.pos);
    }
  }

  lemma SparesDeqStore<T>(s: System<T>, t: Tid, u: Tid)
    requires Inv(s) && Enabled(s, Run(t)) && (s.threads[t].DeqZero? || s.threads[t].DeqStore?) && u in s.threads && u != t
    ensures Spares(s, Step(s, t), u)
  {
    var pc := s.threads[u];
    AdvancesStore(s, t);
    if pc.EnqWrite? || pc.EnqStore? || pc.DeqRead? || pc.DeqZero? || pc.DeqStore? {
      UntouchedStore(s, t, u, pc.pos);
    } else if (pc.EnqCas? || pc.DeqCas?) && s.threads[t].DeqStore? {
      SequenceDeq(s, t, pc.pos);
    } else if pc.DeqReturn? && pc.got.Taken? {
      assert DeliveredOk(s, pc.got.ticket) && ThreadOk(s, t);
    }
  }

  /** What `u` relies on survives a step that spares it. */
  lemma Bystander<T>(s: System<T>, s': System<T>, u: Tid)
    requires |s.cells| >= 2 && u in s.threads && ThreadOk(s, u) && Spares(s, s', u)
    ensures ThreadOk(s', u)
  {
  }

  lemma BystanderStep<T>(s: System<T>, t: Tid, u: Tid)
    requires Inv(s) && Enabled(s, Run(t)) && !LocalAction(s, Run(t)) && u in s.threads && u != t
    ensures ThreadOk(Step(s, t), u)
  {
    if Claiming(s.threads[t]) {
      SparesClaim(s, t, u);
    } else if s.threads[t].EnqWrite? || s.threads[t].EnqStore? {
      SparesEnqStore(s, t, u);
    } else {
      SparesDeqStore(s, t, u);
    }
    assert ThreadOk(s, u);
    Bystander(s, Step(s, t), u);
  }

  lemma OwnLoad<T>(s: System<T>, t: Tid)
    requires Inv(s) && Enabled(s, Run(t)) && (s.threads[t].EnqLoadPos? || s.threads[t].EnqLoadSeq? || s.threads[t].DeqLoadPos?)
    ensures ThreadOk(Step(s, t), t)
  {
    assert ThreadOk(s, t);
  }

  lemma OwnDeqLoad<T>(s: System<T>, t: Tid)
    requires Inv(s) && Enabled(s, Run(t)) && (s.threads[t].DeqLoadSeq? || s.threads[t].DeqRead?)
    ensures ThreadOk(Step(s, t), t)
  {
    assert ThreadOk(s, t);
  }

  lemma OwnEnqCas<T>(s: System<T>, t: Tid)
    requires Inv(s) && Enabled(s, Run(t)) && s.threads[t].EnqCas?
    ensures ThreadOk(Step(s, t), t)
  {
    assert ThreadOk(s, t);
  }

  lemma OwnDeqCas<T>(s: System<T>, t: Tid)
    requires Inv(s) && Enabled(s, Run(t)) && s.threads[t].DeqCas?
    ensures ThreadOk(Step(s, t), t)
  {
    assert ThreadOk(s, t);
    if s.threads[t].pos == s.deqPos { TakeableCell(s, s.deqPos); }
  }

  lemma OwnEnqStore<T>(s: System<T>, t: Tid)
    requires Inv(s) && Enabled(s, Run(t)) && (s.threads[t].EnqWrite? || s.threads[t].EnqStore?)
    ensures ThreadOk(Step(s, t), t)
  {
    assert ThreadOk(s, t);
  }

  lemma OwnDeqStore<T>(s: System<T>, t: Tid)
    requires Inv(s) && Enabled(s, Run(t)) && (s.threads[t].DeqZero? || s.threads[t].DeqStore?)
    ensures ThreadOk(Step(s, t), t)
  {
    assert ThreadOk(s, t);
  }

  lemma OwnStep<T>(s: System<T>, t: Tid)
    requires Inv(s) && Enabled(s, Run(t))
    ensures ThreadOk(Step(s, t), t)
  {
    var pc := s.threads[t];
    if pc.EnqLoadPos? || pc.EnqLoadSeq? || pc.DeqLoadPos? {
      OwnLoad(s, t);
    } else if pc.DeqLoadSeq? || pc.DeqRead? {
      OwnDeqLoad(s, t);
    } else if pc.EnqCas? {
      OwnEnqCas(s, t);
    } else if pc.DeqCas? {
      OwnDeqCas(s, t);
    } else if pc.EnqWrite? || pc.EnqStore? {
      OwnEnqStore(s, t);
    } else {
      OwnDeqStore(s, t);
    }
  }

  lemma ThreadStep<T>(s: System<T>, a: Action<T>, u: Tid)
    requires Inv(s) && Enabled(s, a)
    ensures ThreadOk(Apply(s, a), u)
  {
    if a.Run? && u == a.tid {
      OwnStep(s, u);
    } else if LocalAction(s, a) {
      ThreadLocal(s, a, u);
    } else if u in s.threads {
      BystanderStep(s, a.tid, u);
    } else {
      ThreadAbsent(s, a, u);
    }
  }

  lemma ThreadLocal<T>(s: System<T>, a: Action<T>, u: Tid)
    requires Inv(s) && LocalAction(s, a) && !(a.Run? && u == a.tid)
    ensures ThreadOk(Apply(s, a), u)
  {
    LocalEffect(s, a);
    assert ThreadOk(s, u);
  }

  lemma ThreadAbsent<T>(s: System<T>, a: Action<T>, u: Tid)
    requires Inv(s) && Enabled(s, a) && !LocalAction(s, a) && u !in s.threads
    ensures ThreadOk(Apply(s, a), u)
  {
    if Claiming(s.threads[a.tid]) { AdvancesClaim(s, a.tid); } else { AdvancesStore(s, a.tid); }
  }

  lemma PositionsClaim<T>(s: System<T>, t: Tid)
    requires Inv(s) && Enabled(s, Run(t)) && (s.threads[t].EnqCas? || s.threads[t].DeqCas?)
    ensures Positions(Step(s, t))
  {
    assert ThreadOk(s, t);
    var pos := s.threads[t].pos;
    if s.threads[t].EnqCas? && s.enqPos == pos { ClaimableCell(s, pos); }
    if s.threads[t].DeqCas? && s.deqPos == pos { TakeableCell(s, pos); }
  }

  lemma PositionsStep<T>(s: System<T>, a: Action<T>)
    requires Inv(s) && Enabled(s, a)
    ensures Positions(Apply(s, a))
  {
    if LocalAction(s, a) {
      LocalEffect(s, a);
    } else if Claiming(s.threads[a.tid]) {
      PositionsClaim(s, a.tid);
    } else {
      PositionsStore(s, a.tid);
    }
  }

  lemma PositionsStore<T>(s: System<T>, t: Tid)
    requires Inv(s) && Enabled(s, Run(t)) && Storing(s.threads[t])
    ensures Positions(Step(s, t))
  {
    StoreEffect(s, t);
  }

  lemma StepInv<T>(s: System<T>, a: Action<T>)
    requires Inv(s) && Enabled(s, a)
    ensures Inv(Apply(s, a))
  {
    var s' := Apply(s, a);
    PositionsStep(s, a);
    forall k: nat ensures WriterOk(s', k) && ReaderOk(s', k) { OwnersStep(s, a, k); }
    forall k: nat ensures DeliveredOk(s', k) { DeliveredStep(s, a, k); }
    forall u: Tid ensures ThreadOk(s', u) { ThreadStep(s, a, u); }
    forall k: nat | Window(s', k) ensures CellOk(s', k) { CellStep(s, a, k); }
  }
}
