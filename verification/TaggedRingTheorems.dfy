/** What the queue guarantees over every interleaving. */
module TaggedRingTheorems {
  import opened Slots
  import opened TaggedRing
  import opened TaggedRingProof

  // ---- runs ----------------------------------------------------------------------------------

  predicate Schedule<T>(s: System<T>, acts: seq<Action<T>>)
    decreases |acts|
  {
    acts == [] || (Enabled(s, acts[0]) && Schedule(Apply(s, acts[0]), acts[1..]))
  }

  function Exec<T>(s: System<T>, acts: seq<Action<T>>): System<T>
    requires Schedule(s, acts)
    decreases |acts|
  {
    if acts == [] then s else Exec(Apply(s, acts[0]), acts[1..])
  }

  lemma {:induction false} ExecInv<T>(s: System<T>, acts: seq<Action<T>>)
    requires Inv(s) && Schedule(s, acts)
    ensures Inv(Exec(s, acts))
    decreases |acts|
  {
    if acts != [] {
      StepInv(s, acts[0]);
      ExecInv(Apply(s, acts[0]), acts[1..]);
    }
  }

  /** The invariant holds after every run of any number of threads. */
  lemma Reachable<T>(s: System<T>, acts: seq<Action<T>>)
    requires Init(s) && Schedule(s, acts)
    ensures Inv(Exec(s, acts))
  {
    InitInv(s);
    ExecInv(s, acts);
  }

  // ---- refinement of a bounded FIFO ------------------------------------------------------------

  function Values<T>(cs: seq<Claim<T>>): (vs: seq<T>)
    ensures |vs| == |cs|
    ensures forall i :: 0 <= i < |cs| ==> vs[i] == cs[i].value
  {
    seq(|cs|, i requires 0 <= i < |cs| => cs[i].value)
  }

  /** The abstract queue: what the tickets between the two positions were claimed with. */
  function Queue<T>(s: System<T>): seq<T>
    requires Positions(s)
  {
    Values(s.history)[s.deqPos..s.enqPos]
  }

  datatype Event<T> = Silent | Put(val: T) | Take

  function EventOf<T>(s: System<T>, a: Action<T>): Event<T>
    requires Enabled(s, a)
  {
    if !a.Run? then Silent
    else match s.threads[a.tid]
      case EnqCas(v, pos) => if s.enqPos == pos then Put(v) else Silent
      case DeqCas(pos) => if s.deqPos == pos then Take else Silent
      case _ => Silent
  }

  /** The abstract machine: a FIFO of at most `cap` elements. */
  predicate FifoStep<T(==)>(cap: nat, q: seq<T>, e: Event<T>, q': seq<T>) {
    match e
    case Silent => q' == q
    case Put(v) => |q| < cap && q' == q + [v]
    case Take => q != [] && q' == q[1..]
  }

  /** Forward simulation: each step is silent, an append below capacity, or a removal of the head;
      and the ticket a removal claims was claimed for enqueue with the head's value. */
  lemma StepRefines<T>(s: System<T>, a: Action<T>)
    requires Inv(s) && Enabled(s, a)
    ensures Positions(Apply(s, a)) && |Queue(s)| <= |s.cells| == |Apply(s, a).cells|
    ensures FifoStep(|s.cells|, Queue(s), EventOf(s, a), Queue(Apply(s, a)))
    ensures EventOf(s, a).Take? ==>
      s.threads[a.tid].pos < s.enqPos && Queue(s)[0] == s.history[s.threads[a.tid].pos].value == At(s, s.deqPos).value
  {
    PositionsStep(s, a);
    assert ThreadOk(s, a.tid);
    if LocalAction(s, a) {
      LocalEffect(s, a);
    } else if Claiming(s.threads[a.tid]) {
      ClaimRefines(s, a.tid);
    } else {
      StoreRefines(s, a.tid);
    }
  }

  lemma ClaimRefines<T>(s: System<T>, t: Tid)
    requires Inv(s) && Enabled(s, Run(t)) && Claiming(s.threads[t]) && Positions(Step(s, t))
    ensures |Step(s, t).cells| == |s.cells|
    ensures FifoStep(|s.cells|, Queue(s), EventOf(s, Run(t)), Queue(Step(s, t)))
    ensures EventOf(s, Run(t)).Take? ==>
      s.threads[t].pos < s.enqPos && Queue(s)[0] == s.history[s.threads[t].pos].value == At(s, s.deqPos).value
  {
    var s' := Step(s, t);
    assert ThreadOk(s, t);
    if EventOf(s, Run(t)).Put? {
      ClaimableCell(s, s.enqPos);
      assert Values(s'.history) == Values(s.history) + [s.threads[t].val];
    } else if EventOf(s, Run(t)).Take? {
      TakeableCell(s, s.deqPos);
    }
  }

  lemma StoreRefines<T>(s: System<T>, t: Tid)
    requires Inv(s) && Enabled(s, Run(t)) && Storing(s.threads[t]) && Positions(Step(s, t))
    ensures |Step(s, t).cells| == |s.cells| && Queue(Step(s, t)) == Queue(s)
  {
    StoreEffect(s, t);
  }

  function Events<T>(s: System<T>, acts: seq<Action<T>>): seq<Event<T>>
    requires Schedule(s, acts)
    decreases |acts|
  {
    if acts == [] then [] else [EventOf(s, acts[0])] + Events(Apply(s, acts[0]), acts[1..])
  }

  /** Running the abstract FIFO; an event it does not allow has no result. */
  ghost predicate FifoRun<T>(cap: nat, q: seq<T>, es: seq<Event<T>>, q': seq<T>)
    decreases |es|
  {
    if es == [] then q' == q
    else match es[0]
      case Silent => FifoRun(cap, q, es[1..], q')
      case Put(v) => |q| < cap && FifoRun(cap, q + [v], es[1..], q')
      case Take => q != [] && FifoRun(cap, q[1..], es[1..], q')
  }

  lemma {:induction false} Simulation<T>(s: System<T>, acts: seq<Action<T>>)
    requires Inv(s) && Schedule(s, acts)
    ensures Inv(Exec(s, acts)) && FifoRun(|s.cells|, Queue(s), Events(s, acts), Queue(Exec(s, acts)))
    decreases |acts|
  {
    if acts != [] {
      StepInv(s, acts[0]);
      StepRefines(s, acts[0]);
      Simulation(Apply(s, acts[0]), acts[1..]);
      var es := Events(s, acts);
      assert es[1..] == Events(Apply(s, acts[0]), acts[1..]);
    }
  }

  // ---- nothing lost, duplicated or reordered -----------------------------------------------------

  /** With no dequeuer in flight, what was delivered in ticket order, followed by the queue, is
      everything ever accepted, in the order of the claims. */
  lemma DeliveredThenQueued<T>(s: System<T>)
    requires Inv(s) && s.readers == map[]
    ensures forall k: nat :: k in s.delivered <==> k < s.deqPos
    ensures seq(s.deqPos, k requires 0 <= k < s.deqPos && k in s.delivered => s.delivered[k]) + Queue(s) == Values(s.history)
  {
    forall k: nat
      ensures k in s.delivered <==> k < s.deqPos
      ensures k in s.delivered ==> s.delivered[k] == Values(s.history)[k]
    {
      assert DeliveredOk(s, k);
    }
  }

  ghost predicate WriterInFlight<T>(s: System<T>, k: nat) {
    exists t :: t in s.threads && Writing(s.threads[t], k)
  }

  ghost predicate ReaderInFlight<T>(s: System<T>, k: nat) {
    exists t :: t in s.threads && Reading(s.threads[t], k)
  }

  /** Some thread is between its dequeue CAS on ticket `k` and the release of the cell, and no other is. */
  ghost predicate InOneReadersHands<T>(s: System<T>, k: nat) {
    && (exists t :: t in s.threads && Reading(s.threads[t], k))
    && (forall t, u :: t in s.threads && u in s.threads && Reading(s.threads[t], k) && Reading(s.threads[u], k) ==> t == u)
  }

  /** Every accepted value is in exactly one of three places: still queued at its turn, delivered as it was
      claimed, or in exactly one reader's hands. */
  lemma ValueAccounted<T>(s: System<T>, k: nat)
    requires Inv(s) && k < s.enqPos
    ensures k >= s.deqPos ==>
      Queue(s)[k - s.deqPos] == s.history[k].value && k !in s.delivered && !ReaderInFlight(s, k)
    ensures k < s.deqPos ==> (k in s.delivered <==> !InOneReadersHands(s, k))
    ensures k in s.delivered ==> s.delivered[k] == s.history[k].value && !ReaderInFlight(s, k)
  {
    assert DeliveredOk(s, k) && ReaderOk(s, k);
    InFlight(s, k);
    forall t, u | t in s.threads && u in s.threads && Reading(s.threads[t], k) && Reading(s.threads[u], k)
      ensures t == u
    {
      assert ThreadOk(s, t) && ThreadOk(s, u);
    }
  }

  /** A ticket delivers once: the step that returns a value returns it for a new ticket, and it is
      the value that ticket was claimed with. */
  lemma DeliversOnce<T>(s: System<T>, t: Tid)
    requires Inv(s) && Enabled(s, Run(t)) && s.threads[t].DeqStore?
    ensures var pc := s.threads[t];
            && Step(s, t).threads[t] == DeqReturn(Taken(pc.pos, pc.val))
            && pc.pos !in s.delivered && Step(s, t).delivered == s.delivered[pc.pos := pc.val]
            && pc.pos < |s.history| && pc.val == s.history[pc.pos].value
  {
    assert ThreadOk(s, t) && DeliveredOk(s, s.threads[t].pos);
  }

  function Project<T>(cs: seq<Claim<T>>, t: Tid): seq<T> {
    if cs == [] then []
    else Project(cs[..|cs| - 1], t) + (if cs[|cs| - 1].producer == t then [cs[|cs| - 1].value] else [])
  }

  /** What `t` holds a ticket for but has not yet published. */
  function Unpublished<T>(s: System<T>, t: Tid): seq<T> {
    if t in s.threads && (s.threads[t].EnqWrite? || s.threads[t].EnqStore?) then [s.threads[t].val] else []
  }

  /** The claims of `t`, in queue order, are the values its calls have returned true for, in call
      order, and then the one it is publishing. */
  ghost predicate ProducerOk<T>(s: System<T>, t: Tid) {
    Project(s.history, t) == Accepted(s, t) + Unpublished(s, t)
  }

  lemma ProducerStep<T>(s: System<T>, a: Action<T>, t: Tid)
    requires Inv(s) && Enabled(s, a) && ProducerOk(s, t)
    ensures ProducerOk(Apply(s, a), t)
  {
    if LocalAction(s, a) {
      LocalEffect(s, a);
      ProducerLocal(s, a, t);
    } else if Claiming(s.threads[a.tid]) {
      ProducerClaim(s, a.tid, t);
    } else {
      ProducerStore(s, a.tid, t);
    }
  }

  lemma ProducerLocal<T>(s: System<T>, a: Action<T>, t: Tid)
    requires LocalAction(s, a)
    ensures Unpublished(Apply(s, a), t) == Unpublished(s, t)
  {
    LocalEffect(s, a);
    LocalTarget(s, a);
  }

  lemma LocalTarget<T>(s: System<T>, a: Action<T>)
    requires LocalAction(s, a)
    ensures !Storing(s.threads[a.tid]) && a.tid in Apply(s, a).threads
    ensures var pc := Apply(s, a).threads[a.tid]; !pc.EnqWrite? && !pc.EnqStore?
  {
  }

  lemma ProducerClaim<T>(s: System<T>, u: Tid, t: Tid)
    requires Inv(s) && Enabled(s, Run(u)) && Claiming(s.threads[u]) && ProducerOk(s, t)
    ensures ProducerOk(Step(s, u), t)
  {
    if s.threads[u].EnqCas? && s.enqPos == s.threads[u].pos {
      ProducerEnqueues(s, u, t);
    } else {
      ClaimSparesProducers(s, u);
    }
  }

  lemma ProducerEnqueues<T>(s: System<T>, u: Tid, t: Tid)
    requires Inv(s) && Enabled(s, Run(u)) && s.threads[u].EnqCas? && s.enqPos == s.threads[u].pos && ProducerOk(s, t)
    ensures ProducerOk(Step(s, u), t)
  {
    var s', claim := Step(s, u), Claim(u, s.threads[u].val);
    assert s'.history == s.history + [claim] && s'.accepted == s.accepted;
    assert s'.history[..|s'.history| - 1] == s.history;
    assert Project(s'.history, t) == Project(s.history, t) + (if u == t then [claim.value] else []);
  }

  lemma ClaimSparesProducers<T>(s: System<T>, u: Tid)
    requires Enabled(s, Run(u)) && Claiming(s.threads[u]) && !(s.threads[u].EnqCas? && s.enqPos == s.threads[u].pos)
    ensures Step(s, u).history == s.history && Step(s, u).accepted == s.accepted
    ensures forall t :: Unpublished(Step(s, u), t) == Unpublished(s, t)
  {
  }

  lemma ProducerStore<T>(s: System<T>, u: Tid, t: Tid)
    requires Inv(s) && Enabled(s, Run(u)) && Storing(s.threads[u]) && ProducerOk(s, t)
    ensures ProducerOk(Step(s, u), t)
  {
    StoreKeepsClaims(s, u, t);
  }

  lemma StoreKeepsClaims<T>(s: System<T>, u: Tid, t: Tid)
    requires Enabled(s, Run(u)) && Storing(s.threads[u])
    ensures Step(s, u).history == s.history
    ensures Accepted(Step(s, u), t) + Unpublished(Step(s, u), t) == Accepted(s, t) + Unpublished(s, t)
  {
    StoreEffect(s, u);
    if s.threads[u].EnqStore? {
      PublishEffect(s, u, t);
    } else {
      WriteEffect(s, u, t);
    }
  }

  lemma PublishEffect<T>(s: System<T>, u: Tid, t: Tid)
    requires Enabled(s, Run(u)) && s.threads[u].EnqStore?
    ensures Accepted(Step(s, u), t) + Unpublished(Step(s, u), t) == Accepted(s, t) + Unpublished(s, t)
  {
  }

  lemma WriteEffect<T>(s: System<T>, u: Tid, t: Tid)
    requires Enabled(s, Run(u)) && (s.threads[u].EnqWrite? || s.threads[u].DeqZero? || s.threads[u].DeqStore?)
    ensures Accepted(Step(s, u), t) == Accepted(s, t) && Unpublished(Step(s, u), t) == Unpublished(s, t)
  {
  }

  lemma {:induction false} ProducerExec<T>(s: System<T>, acts: seq<Action<T>>, t: Tid)
    requires Inv(s) && Schedule(s, acts) && ProducerOk(s, t)
    ensures ProducerOk(Exec(s, acts), t)
    decreases |acts|
  {
    if acts != [] {
      StepInv(s, acts[0]);
      ProducerStep(s, acts[0], t);
      ProducerExec(Apply(s, acts[0]), acts[1..], t);
    }
  }

  /** Per-producer order, after every run. */
  lemma ProducerOrder<T>(s: System<T>, acts: seq<Action<T>>, t: Tid)
    requires Init(s) && Schedule(s, acts)
    ensures Project(Exec(s, acts).history, t) == Accepted(Exec(s, acts), t) + Unpublished(Exec(s, acts), t)
  {
    InitInv(s);
    ProducerExec(s, acts, t);
  }

  // ---- no races on the plain accesses --------------------------------------------------------------

  /** The cell whose plain value field the thread's next step writes, reads or zeroes. */
  predicate Accesses<T>(s: System<T>, t: Tid, cell: nat)
    requires |s.cells| > 0
  {
    && t in s.threads
    && (s.threads[t].EnqWrite? || s.threads[t].DeqRead? || s.threads[t].DeqZero?)
    && Slot(s.threads[t].pos, |s.cells|) == cell
  }

  lemma NoRace<T>(s: System<T>, t: Tid, u: Tid, cell: nat)
    requires Inv(s) && t != u && Accesses(s, t, cell)
    ensures !Accesses(s, u, cell)
  {
    if Accesses(s, u, cell) {
      assert Owns(s.threads[t], s.threads[t].pos) && Owns(s.threads[u], s.threads[u].pos);
      OwnersApart(s, t, u, s.threads[t].pos, s.threads[u].pos);
    }
  }

  // ---- sequences, failures, spinning -----------------------------------------------------------------

  lemma InFlight<T>(s: System<T>, k: nat)
    requires Inv(s)
    ensures WriterInFlight(s, k) <==> k in s.writers
    ensures ReaderInFlight(s, k) <==> k in s.readers
  {
    assert WriterOk(s, k) && ReaderOk(s, k);
    forall t | t in s.threads && (Writing(s.threads[t], k) || Reading(s.threads[t], k))
      ensures Writing(s.threads[t], k) ==> k in s.writers
      ensures Reading(s.threads[t], k) ==> k in s.readers
    {
      assert ThreadOk(s, t);
    }
  }

  /** A cell's sequence is fixed by the window ticket that maps to it and by who is in flight. */
  lemma CellSequence<T>(s: System<T>, k: nat)
    requires Inv(s) && Window(s, k)
    ensures At(s, k).sequence ==
      if k < s.enqPos then (if WriterInFlight(s, k) then k else k + 1)
      else if k >= |s.cells| && ReaderInFlight(s, k - |s.cells|) then k - |s.cells| + 1
      else k
  {
    assert CellOk(s, k);
    InFlight(s, k);
    if k >= |s.cells| { InFlight(s, k - |s.cells|); }
  }

  /** When an enqueue that has loaded `pos`, however long ago, is about to fail: exactly when `pos`
      is the current position and the ring is full or the cell's last dequeuer is in flight. */
  lemma EnqFailsIff<T>(s: System<T>, t: Tid)
    requires Inv(s) && Enabled(s, Run(t)) && s.threads[t].EnqLoadSeq?
    ensures var pos := s.threads[t].pos;
            Step(s, t).threads[t] == EnqReturn(false) <==>
              && pos == s.enqPos
              && (|Queue(s)| == |s.cells| || (pos >= |s.cells| && ReaderInFlight(s, pos - |s.cells|)))
  {
    var pos, cap := s.threads[t].pos, |s.cells|;
    assert ThreadOk(s, t);
    if pos < s.deqPos {
      StaleSequence(s, pos);
    } else if pos < s.deqPos + cap {
      CellSequence(s, pos);
    } else {
      LapSlot(s.deqPos, cap);
      CellSequence(s, s.deqPos);
    }
  }

  /** Likewise a dequeue fails exactly when `pos` is current and the ring is empty or the head's
      enqueuer is in flight. */
  lemma DeqFailsIff<T>(s: System<T>, t: Tid)
    requires Inv(s) && Enabled(s, Run(t)) && s.threads[t].DeqLoadSeq?
    ensures var pos := s.threads[t].pos;
            Step(s, t).threads[t] == DeqReturn(Nothing) <==>
              pos == s.deqPos && (Queue(s) == [] || WriterInFlight(s, pos))
  {
    var pos := s.threads[t].pos;
    assert ThreadOk(s, t);
    if pos < s.deqPos {
      StaleSequence(s, pos);
    } else {
      CellSequence(s, pos);
      if s.enqPos == s.deqPos { InFlight(s, pos); assert WriterOk(s, pos); }
    }
  }

  ghost predicate OthersAtRest<T>(s: System<T>, t: Tid) {
    forall u :: u in s.threads && u != t ==> AtRest(s.threads[u])
  }

  /** With every other thread at rest, false means exactly full, and exactly empty. */
  lemma QuietFailures<T>(s: System<T>, t: Tid)
    requires Inv(s) && Enabled(s, Run(t)) && OthersAtRest(s, t)
    ensures s.threads[t].EnqLoadSeq? && s.threads[t].pos == s.enqPos ==>
      (Step(s, t).threads[t] == EnqReturn(false) <==> |Queue(s)| == |s.cells|)
    ensures s.threads[t].DeqLoadSeq? && s.threads[t].pos == s.deqPos ==>
      (Step(s, t).threads[t] == DeqReturn(Nothing) <==> Queue(s) == [])
  {
    if s.threads[t].EnqLoadSeq? { EnqFailsIff(s, t); }
    if s.threads[t].DeqLoadSeq? { DeqFailsIff(s, t); }
  }

  /** The retry loop keeps its `pos` after a failed CAS, so the queue is not lock-free: run alone, an
      enqueuer loads the sequence, fails the CAS and is back in the very same state exactly when
      its ticket was won by a thread that has not yet published it. */
  lemma EnqSpinsIff<T>(s: System<T>, t: Tid)
    requires Inv(s) && Enabled(s, Run(t)) && s.threads[t].EnqLoadSeq?
    ensures (Enabled(Step(s, t), Run(t)) && Step(Step(s, t), t) == s) <==> WriterInFlight(s, s.threads[t].pos)
  {
    InFlight(s, s.threads[t].pos);
    if s.threads[t].pos in s.writers {
      EnqSpins(s, t);
    } else {
      EnqMovesOn(s, t);
    }
  }

  lemma EnqSpins<T>(s: System<T>, t: Tid)
    requires Inv(s) && Enabled(s, Run(t)) && s.threads[t].EnqLoadSeq? && s.threads[t].pos in s.writers
    ensures Enabled(Step(s, t), Run(t)) && Step(Step(s, t), t) == s
  {
    var pos, s1 := s.threads[t].pos, Step(s, t);
    assert WriterOk(s, pos) && CellOk(s, pos);
    assert s1.threads[t] == EnqCas(s.threads[t].val, pos);
    assert s1.threads[t := s.threads[t]] == s.threads;
  }

  lemma EnqMovesOn<T>(s: System<T>, t: Tid)
    requires Inv(s) && Enabled(s, Run(t)) && s.threads[t].EnqLoadSeq? && s.threads[t].pos !in s.writers
    ensures !(Enabled(Step(s, t), Run(t)) && Step(Step(s, t), t) == s)
  {
    var pos, s1 := s.threads[t].pos, Step(s, t);
    assert ThreadOk(s, t);
    if pos < s.deqPos {
      StaleSequence(s, pos);
    } else if Window(s, pos) {
      assert CellOk(s, pos);
    } else {
      LapSlot(s.deqPos, |s.cells|);
      assert CellOk(s, s.deqPos);
    }
    if s1.threads[t].EnqCas? {
      assert Step(s1, t).enqPos == s.enqPos + 1;
    } else if s1.threads[t].EnqLoadPos? {
      assert Step(s1, t).threads[t].pos == s.enqPos;
    }
  }

  /** The dequeue loop keeps its `pos` in the same way, and spins exactly while the dequeuer that won its
      ticket has not released the cell. */
  lemma DeqSpinsIff<T>(s: System<T>, t: Tid)
    requires Inv(s) && Enabled(s, Run(t)) && s.threads[t].DeqLoadSeq?
    ensures (Enabled(Step(s, t), Run(t)) && Step(Step(s, t), t) == s) <==> ReaderInFlight(s, s.threads[t].pos)
  {
    InFlight(s, s.threads[t].pos);
    if s.threads[t].pos in s.readers {
      DeqSpins(s, t);
    } else {
      DeqMovesOn(s, t);
    }
  }

  lemma DeqSpins<T>(s: System<T>, t: Tid)
    requires Inv(s) && Enabled(s, Run(t)) && s.threads[t].DeqLoadSeq? && s.threads[t].pos in s.readers
    ensures Enabled(Step(s, t), Run(t)) && Step(Step(s, t), t) == s
  {
    var pos, s1 := s.threads[t].pos, Step(s, t);
    HeldSequence(s, pos);
    assert ReaderOk(s, pos);
    assert s1.threads[t] == DeqCas(pos);
    assert s1.threads[t := s.threads[t]] == s.threads;
  }

  /** The cell a reader holds still carries the sequence the reader found. */
  lemma HeldSequence<T>(s: System<T>, k: nat)
    requires Inv(s) && k in s.readers
    ensures At(s, k).sequence == k + 1
  {
    var cap := |s.cells|;
    assert ReaderOk(s, k);
    LapSlot(k, cap);
    assert CellOk(s, k + cap);
  }

  /** Once released, the cell of a ticket behind `deqPos` has left the sequence its reader found. */
  lemma ReleasedSequence<T>(s: System<T>, k: nat)
    requires Inv(s) && k < s.deqPos && k !in s.readers
    ensures At(s, k).sequence > k + 1
  {
    var cap := |s.cells|;
    LapSlot(k, cap);
    if k + cap < s.deqPos {
      StaleSequence(s, k + cap);
    } else {
      assert CellOk(s, k + cap);
    }
  }

  lemma DeqMovesOn<T>(s: System<T>, t: Tid)
    requires Inv(s) && Enabled(s, Run(t)) && s.threads[t].DeqLoadSeq? && s.threads[t].pos !in s.readers
    ensures !(Enabled(Step(s, t), Run(t)) && Step(Step(s, t), t) == s)
  {
    var pos, s1 := s.threads[t].pos, Step(s, t);
    assert ThreadOk(s, t);
    if pos < s.deqPos {
      ReleasedSequence(s, pos);
    } else {
      assert CellOk(s, pos);
    }
    if s1.threads[t].DeqCas? {
      assert Step(s1, t).deqPos == s.deqPos + 1;
    } else if s1.threads[t].DeqLoadPos? {
      assert Step(s1, t).threads[t].pos == s.deqPos;
    }
  }

  /** `t` scheduled `n` times in a row. */
  function Alone<T>(t: Tid, n: nat): seq<Action<T>> {
    if n == 0 then [] else [Run(t)] + Alone(t, n - 1)
  }

  /** So a call whose ticket's winner is suspended never returns, however often it is scheduled. */
  lemma {:induction false} NeverReturns<T>(s: System<T>, t: Tid, n: nat)
    requires Inv(s) && Enabled(s, Run(t))
    requires || (s.threads[t].EnqLoadSeq? && WriterInFlight(s, s.threads[t].pos))
             || (s.threads[t].DeqLoadSeq? && ReaderInFlight(s, s.threads[t].pos))
    ensures Schedule(s, Alone(t, n))
    ensures t in Exec(s, Alone(t, n)).threads && !AtRest(Exec(s, Alone(t, n)).threads[t])
  {
    if s.threads[t].EnqLoadSeq? { EnqSpinsIff(s, t); } else { DeqSpinsIff(s, t); }
    if n >= 2 {
      NeverReturns(s, t, n - 2);
      assert Alone<T>(t, n)[1..] == Alone(t, n - 1) && Alone<T>(t, n - 1)[1..] == Alone(t, n - 2);
    } else if n == 1 {
      assert Alone<T>(t, 1)[1..] == [];
    }
  }

  ghost predicate Leads<T>(s: System<T>, acts: seq<Action<T>>, s': System<T>) {
    Schedule(s, acts) && Exec(s, acts) == s'
  }

  lemma {:induction false} LeadsOn<T>(s: System<T>, acts: seq<Action<T>>, mid: System<T>, a: Action<T>)
    requires Leads(s, acts, mid) && Enabled(mid, a)
    ensures Leads(s, acts + [a], Apply(mid, a))
    decreases |acts|
  {
    if acts == [] {
      assert [a][1..] == [];
    } else {
      LeadsOn(Apply(s, acts[0]), acts[1..], mid, a);
      assert (acts + [a])[1..] == acts[1..] + [a];
    }
  }

  /** A ring of two cells nothing was claimed in yet, and two threads. */
  function TwoThreads(pc0: Pc<int>, pc1: Pc<int>): System<int> {
    System(0, [Cell(0, 0), Cell(1, 0)], 0, 0, map[0 := pc0, 1 := pc1], [], map[], map[], map[], map[])
  }

  /** The same ring when thread 0 has won the first ticket for the value 7. */
  function FirstClaimed(pc1: Pc<int>): System<int> {
    System(0, [Cell(0, 0), Cell(1, 0)], 1, 0, map[0 := EnqWrite(7, 0), 1 := pc1], [Claim(0, 7)], map[0 := 0], map[], map[], map[])
  }

  lemma GoTwo(pc0: Pc<int>, pc1: Pc<int>, t: Tid, pc: Pc<int>)
    requires t < 2
    ensures Go(TwoThreads(pc0, pc1), t, pc) == if t == 0 then TwoThreads(pc, pc1) else TwoThreads(pc0, pc)
  {
    assert map[0 := pc0, 1 := pc1][t := pc] == if t == 0 then map[0 := pc, 1 := pc1] else map[0 := pc0, 1 := pc];
  }

  /** A step that only moves a program counter. */
  lemma Moves(acts: seq<Action<int>>, pc0: Pc<int>, pc1: Pc<int>, a: Action<int>, pc: Pc<int>) returns (acts': seq<Action<int>>)
    requires Leads(TwoThreads(Idle, Idle), acts, TwoThreads(pc0, pc1))
    requires Enabled(TwoThreads(pc0, pc1), a) && Apply(TwoThreads(pc0, pc1), a) == Go(TwoThreads(pc0, pc1), a.tid, pc)
    ensures acts' == acts + [a]
    ensures Leads(TwoThreads(Idle, Idle), acts', if a.tid == 0 then TwoThreads(pc, pc1) else TwoThreads(pc0, pc))
  {
    LeadsOn(TwoThreads(Idle, Idle), acts, TwoThreads(pc0, pc1), a);
    acts' := acts + [a];
    GoTwo(pc0, pc1, a.tid, pc);
  }

  /** Two producers load position 0 and see sequence 0 before either tries its CAS. */
  lemma BothAtCas() returns (acts: seq<Action<int>>)
    ensures Leads(TwoThreads(Idle, Idle), acts, TwoThreads(EnqCas(7, 0), EnqCas(8, 0)))
  {
    acts := Moves([], Idle, Idle, InvokeEnq(0, 7), EnqLoadPos(7));
    acts := Moves(acts, EnqLoadPos(7), Idle, InvokeEnq(1, 8), EnqLoadPos(8));
    acts := Moves(acts, EnqLoadPos(7), EnqLoadPos(8), Run(0), EnqLoadSeq(7, 0));
    acts := Moves(acts, EnqLoadSeq(7, 0), EnqLoadPos(8), Run(1), EnqLoadSeq(8, 0));
    acts := Moves(acts, EnqLoadSeq(7, 0), EnqLoadSeq(8, 0), Run(0), EnqCas(7, 0));
    acts := Moves(acts, EnqCas(7, 0), EnqLoadSeq(8, 0), Run(1), EnqCas(8, 0));
  }

  lemma FirstWins()
    ensures Enabled(TwoThreads(EnqCas(7, 0), EnqCas(8, 0)), Run(0))
    ensures Step(TwoThreads(EnqCas(7, 0), EnqCas(8, 0)), 0) == FirstClaimed(EnqCas(8, 0))
  {
    assert map[0 := EnqCas(7, 0), 1 := EnqCas(8, 0)][0 := EnqWrite(7, 0)] == map[0 := EnqWrite(7, 0), 1 := EnqCas(8, 0)];
  }

  lemma SecondFails()
    ensures Enabled(FirstClaimed(EnqCas(8, 0)), Run(1))
    ensures Step(FirstClaimed(EnqCas(8, 0)), 1) == FirstClaimed(EnqLoadSeq(8, 0))
  {
    assert map[0 := EnqWrite(7, 0), 1 := EnqCas(8, 0)][1 := EnqLoadSeq(8, 0)] == map[0 := EnqWrite(7, 0), 1 := EnqLoadSeq(8, 0)];
  }

  /** The spinning state is reached from a new ring by one round of contention: thread 0 has claimed the
      ticket of its 7 and is suspended before it writes, and thread 1, scheduled any number of times, never
      returns, with the second cell free all along. */
  lemma ContentionSpins(n: nat) returns (acts: seq<Action<int>>)
    ensures Init(TwoThreads(Idle, Idle)) && Leads(TwoThreads(Idle, Idle), acts, FirstClaimed(EnqLoadSeq(8, 0)))
    ensures var s := FirstClaimed(EnqLoadSeq(8, 0));
            && Enabled(s, Run(1)) && Schedule(s, Alone(1, n))
            && 1 in Exec(s, Alone(1, n)).threads && !AtRest(Exec(s, Alone(1, n)).threads[1])
  {
    acts := BothAtCas();
    FirstWins();
    LeadsOn(TwoThreads(Idle, Idle), acts, TwoThreads(EnqCas(7, 0), EnqCas(8, 0)), Run(0));
    SecondFails();
    LeadsOn(TwoThreads(Idle, Idle), acts + [Run(0)], FirstClaimed(EnqCas(8, 0)), Run(1));
    acts := acts + [Run(0)] + [Run(1)];
    Reachable(TwoThreads(Idle, Idle), acts);
    SecondSpins(FirstClaimed(EnqLoadSeq(8, 0)), n);
  }

  lemma SecondSpins(s: System<int>, n: nat)
    requires Inv(s) && s.threads == map[0 := EnqWrite(7, 0), 1 := EnqLoadSeq(8, 0)]
    ensures Enabled(s, Run(1)) && Schedule(s, Alone(1, n))
    ensures 1 in Exec(s, Alone(1, n)).threads && !AtRest(Exec(s, Alone(1, n)).threads[1])
  {
    assert Writing(s.threads[0], 0);
    NeverReturns(s, 1, n);
  }
}
