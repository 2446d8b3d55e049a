/** The ring as the object whose cells and counters the threads update in place. `Step` executes
    the next atomic step of one thread; the call loops run one thread alone until it returns. */
module TaggedRingBuffer {
  import opened Basics
  import opened Slots
  import opened TaggedRing
  import opened TaggedRingProof
  import opened TaggedRingTheorems
  import opened TaggedRingSolo

  class TaggedRingBuffer<T> {
    const zero: T
    const mask: nat
    const cells: array<Cell<T>>
    var enqPos: nat
    var deqPos: nat
    var threads: map<Tid, Pc<T>>

    ghost var history: seq<Claim<T>>
    ghost var writers: map<nat, Tid>
    ghost var readers: map<nat, Tid>
    ghost var accepted: map<Tid, seq<T>>
    ghost var delivered: map<nat, T>

    ghost function State(): System<T>
      reads this, cells
    {
      System(zero, cells[..], enqPos, deqPos, threads, history, writers, readers, accepted, delivered)
    }

    ghost predicate Shape()
      reads this
    {
      IsPow2(cells.Length) && cells.Length >= 2 && mask == cells.Length - 1
    }

    ghost predicate Valid()
      reads this, cells
    {
      Shape() && Inv(State())
    }

    /** `NewTagged`: the least power of two that is at least 2 and not below the capacity. */
    constructor (capacity: int, zero: T, tids: set<Tid>)
      requires -(WORD64 / 2) < capacity < WORD64 / 2
      ensures Valid() && Init(State()) && threads.Keys == tids && fresh(cells)
      ensures if capacity <= 2 then cells.Length == 2 else capacity <= cells.Length < 2 * capacity
    {
      var sz := RoundUpPow2(if capacity < 0 then WORD64 + capacity else capacity);
      if sz < 2 {
        sz := 2;
        assert Pow2(1) == 2;
      }
      this.zero := zero;
      mask := sz - 1;
      cells := new Cell<T>[sz](i => Cell(i, zero));
      enqPos, deqPos := 0, 0;
      threads := map t | t in tids :: Idle;
      history, writers, readers, accepted, delivered := [], map[], map[], map[], map[];
      new;
      InitInv(State());
    }

    /** `pos & mask`. */
    method CellIndex(pos: nat) returns (i: nat)
      requires Shape()
      ensures i == Slot(pos, cells.Length)
    {
      i := BitAnd(pos, mask);
      ghost var k :| cells.Length == Pow2(k);
      MaskIsSlot(pos, k);
    }

    method Invoke(t: Tid, pc: Pc<T>)
      requires Valid() && t in threads && AtRest(threads[t])
      requires pc.EnqLoadPos? || pc.DeqLoadPos?
      modifies this`threads
      ensures Valid() && State() == Apply(old(State()), if pc.EnqLoadPos? then InvokeEnq(t, pc.val) else InvokeDeq(t))
    {
      ghost var a := if pc.EnqLoadPos? then InvokeEnq(t, pc.val) else InvokeDeq(t);
      StepInv(State(), a);
      threads := threads[t := pc];
    }

    /** The next atomic step of a thread inside `Enqueue`: load, load, compare-and-swap. */
    method ClaimEnqueue(t: Tid)
      requires Shape() && Enabled(State(), Run(t))
      requires threads[t].EnqLoadPos? || threads[t].EnqLoadSeq? || threads[t].EnqCas?
      modifies this
      ensures State() == TaggedRing.Step(old(State()), t)
    {
      match threads[t] {
        case EnqLoadPos(v) =>
          threads := threads[t := EnqLoadSeq(v, enqPos)];
        case EnqLoadSeq(v, pos) =>
          var i := CellIndex(pos);
          var diff := cells[i].sequence - pos;
          threads := threads[t := if diff == 0 then EnqCas(v, pos) else if diff < 0 then EnqReturn(false) else EnqLoadPos(v)];
        case EnqCas(v, pos) =>
          if enqPos == pos {
            enqPos := pos + 1;
            threads := threads[t := EnqWrite(v, pos)];
            history := history + [Claim(t, v)];
            writers := writers[pos := t];
          } else {
            threads := threads[t := EnqLoadSeq(v, pos)];
          }
      }
    }

    /** The two steps of `Enqueue` after its loop: write the value, publish the cell. */
    method PublishEnqueue(t: Tid)
      requires Shape() && Enabled(State(), Run(t)) && (threads[t].EnqWrite? || threads[t].EnqStore?)
      modifies this, cells
      ensures State() == TaggedRing.Step(old(State()), t)
    {
      var pos, v := threads[t].pos, threads[t].val;
      var i := CellIndex(pos);
      if threads[t].EnqWrite? {
        cells[i] := cells[i].(value := v);
        threads := threads[t := EnqStore(v, pos)];
      } else {
        cells[i] := cells[i].(sequence := pos + 1);
        threads := threads[t := EnqReturn(true)];
        writers := writers - {pos};
        accepted := accepted[t := (if t in accepted then accepted[t] else []) + [v]];
      }
    }

    /** The next atomic step of a thread inside `Dequeue`: load, load, compare-and-swap. */
    method ClaimDequeue(t: Tid)
      requires Shape() && Enabled(State(), Run(t))
      requires threads[t].DeqLoadPos? || threads[t].DeqLoadSeq? || threads[t].DeqCas?
      modifies this
      ensures State() == TaggedRing.Step(old(State()), t)
    {
      match threads[t] {
        case DeqLoadPos =>
          threads := threads[t := DeqLoadSeq(deqPos)];
        case DeqLoadSeq(pos) =>
          var i := CellIndex(pos);
          var diff := cells[i].sequence - (pos + 1);
          threads := threads[t := if diff == 0 then DeqCas(pos) else if diff < 0 then DeqReturn(Nothing) else DeqLoadPos];
        case DeqCas(pos) =>
          if deqPos == pos {
            deqPos := pos + 1;
            threads := threads[t := DeqRead(pos)];
            readers := readers[pos := t];
          } else {
            threads := threads[t := DeqLoadSeq(pos)];
          }
      }
    }

    /** The three steps of `Dequeue` after its loop: read the value, zero it, release the cell. */
    method ReleaseDequeue(t: Tid)
      requires Shape() && Enabled(State(), Run(t)) && (threads[t].DeqRead? || threads[t].DeqZero? || threads[t].DeqStore?)
      modifies this, cells
      ensures State() == TaggedRing.Step(old(State()), t)
    {
      var pos := threads[t].pos;
      var i := CellIndex(pos);
      match threads[t] {
        case DeqRead(_) =>
          threads := threads[t := DeqZero(pos, cells[i].value)];
        case DeqZero(_, v) =>
          cells[i] := cells[i].(value := zero);
          threads := threads[t := DeqStore(pos, v)];
        case DeqStore(_, v) =>
          cells[i] := cells[i].(sequence := pos + mask + 1);
          threads := threads[t := DeqReturn(Taken(pos, v))];
          readers := readers - {pos};
          delivered := delivered[pos := v];
      }
    }

    /** One atomic step of thread `t`, in place. */
    method Step(t: Tid)
      requires Valid() && Enabled(State(), Run(t))
      modifies this, cells
      ensures Valid() && State() == TaggedRing.Step(old(State()), t)
    {
      StepInv(State(), Run(t));
      var pc := threads[t];
      if pc.EnqLoadPos? || pc.EnqLoadSeq? || pc.EnqCas? {
        ClaimEnqueue(t);
      } else if pc.EnqWrite? || pc.EnqStore? {
        PublishEnqueue(t);
      } else if pc.DeqLoadPos? || pc.DeqLoadSeq? || pc.DeqCas? {
        ClaimDequeue(t);
      } else {
        ReleaseDequeue(t);
      }
    }

    /** `Enqueue` with the other threads suspended wherever they are. */
    method Enqueue(t: Tid, v: T) returns (ok: bool)
      requires Valid() && t in threads && AtRest(threads[t])
      modifies this, cells
      ensures Valid() && OnlyMoved(old(State()), State(), t) && AtRest(threads[t])
      ensures readers == old(readers) && deqPos == old(deqPos)
      ensures ok == CanEnqueue(old(State()))
      ensures Queue(State()) == Queue(old(State())) + if ok then [v] else []
    {
      ghost var s0 := State();
      Invoke(t, EnqLoadPos(v));
      while !AtRest(threads[t])
        invariant Shape() && SoloEnq(s0, State(), t, v)
        decreases Remaining(threads[t])
      {
        SoloEnqStep(s0, State(), t, v);
        Step(t);
      }
      ok := threads[t].ok;
    }

    /** `Dequeue` with the other threads suspended wherever they are. */
    method Dequeue(t: Tid) returns (val: T, ok: bool)
      requires Valid() && t in threads && AtRest(threads[t])
      modifies this, cells
      ensures Valid() && OnlyMoved(old(State()), State(), t) && AtRest(threads[t])
      ensures writers == old(writers) && enqPos == old(enqPos)
      ensures ok == CanDequeue(old(State()))
      ensures ok ==> Queue(old(State())) == [val] + Queue(State())
      ensures !ok ==> Queue(State()) == Queue(old(State())) && val == zero
    {
      ghost var s0 := State();
      Invoke(t, DeqLoadPos);
      while !AtRest(threads[t])
        invariant Shape() && SoloDeq(s0, State(), t)
        decreases Remaining(threads[t])
      {
        SoloDeqStep(s0, State(), t);
        Step(t);
      }
      match threads[t].got {
        case Taken(_, v) => val, ok := v, true;
        case Nothing => val, ok := zero, false;
      }
    }

    /** `EnqueueBatch`: a prefix of the values, all of them unless the ring ran out of room; with no
        dequeuer suspended inside the ring, exactly as many as fit. */
    method EnqueueBatch(t: Tid, vals: seq<T>) returns (count: nat)
      requires Valid() && t in threads && AtRest(threads[t])
      modifies this, cells
      ensures Valid() && t in threads && AtRest(threads[t]) && readers == old(readers)
      ensures count <= |vals| && Queue(State()) == Queue(old(State())) + vals[..count]
      ensures count < |vals| ==> !CanEnqueue(State())
      ensures readers == map[] ==>
        var room := cells.Length - |Queue(old(State()))|;
        count == if |vals| <= room then |vals| else room
    {
      ghost var q0 := Queue(State());
      assert vals[..0] == [];
      for i := 0 to |vals|
        invariant Valid() && t in threads && AtRest(threads[t]) && readers == old(readers)
        invariant Queue(State()) == q0 + vals[..i] && |q0| + i <= cells.Length
      {
        var ok := Enqueue(t, vals[i]);
        if !ok {
          return i;
        }
        assert vals[..i] + [vals[i]] == vals[..i + 1];
        StateBound(State());
      }
      assert vals[..|vals|] == vals;
      return |vals|;
    }

    /** One round of the loop of `DequeueBatch`. */
    method DequeueInto(t: Tid, dst: array<T>, i: nat) returns (ok: bool)
      requires Valid() && t in threads && AtRest(threads[t]) && dst as object != cells && i < dst.Length
      modifies this, cells, dst
      ensures Valid() && t in threads && AtRest(threads[t]) && writers == old(writers)
      ensures ok == CanDequeue(old(State()))
      ensures ok ==> Queue(old(State())) == [dst[i]] + Queue(State())
      ensures !ok ==> Queue(State()) == Queue(old(State())) && !CanDequeue(State())
      ensures dst[..] == if ok then old(dst[..])[i := dst[i]] else old(dst[..])
    {
      var v;
      v, ok := Dequeue(t);
      if ok {
        ghost var s := State();
        dst[i] := v;
        assert State() == s;
      }
    }

    /** `DequeueBatch`: the head of the queue, in order, into the front of `dst`; with no enqueuer
        suspended inside the ring, as much as there is or as fits. */
    method DequeueBatch(t: Tid, dst: array<T>) returns (count: nat)
      requires Valid() && t in threads && AtRest(threads[t]) && dst as object != cells
      modifies this, cells, dst
      ensures Valid() && t in threads && AtRest(threads[t]) && writers == old(writers)
      ensures Filled(old(dst[..]), dst[..], count, Queue(old(State())), Queue(State()))
      ensures count < dst.Length ==> !CanDequeue(State())
      ensures writers == map[] ==>
        var there := |Queue(old(State()))|;
        count == if dst.Length <= there then dst.Length else there
    {
      ghost var q0, d0 := Queue(State()), dst[..];
      for i := 0 to dst.Length
        invariant Valid() && t in threads && AtRest(threads[t]) && writers == old(writers)
        invariant Filled(d0, dst[..], i, q0, Queue(State()))
      {
        ghost var d, q := dst[..], Queue(State());
        var ok := DequeueInto(t, dst, i);
        if !ok {
          return i;
        }
        FilledStep(d0, d, i, q0, q, dst[i], Queue(State()));
      }
      return dst.Length;
    }
  }

  /** The first `i` entries of `d` were taken off the front of `q0`, leaving `q`. */
  ghost predicate Filled<T>(d0: seq<T>, d: seq<T>, i: nat, q0: seq<T>, q: seq<T>) {
    |d| == |d0| && i <= |d| && q0 == d[..i] + q && d[i..] == d0[i..]
  }

  lemma FilledStep<T>(d0: seq<T>, d: seq<T>, i: nat, q0: seq<T>, q: seq<T>, v: T, q': seq<T>)
    requires Filled(d0, d, i, q0, q) && i < |d| && q == [v] + q'
    ensures Filled(d0, d[i := v], i + 1, q0, q')
  {
    assert d[i := v][..i + 1] == d[..i] + [v];
    assert d[i := v][i + 1..] == d[i..][1..];
  }

  lemma StateBound<T>(s: System<T>)
    requires Inv(s)
    ensures |Queue(s)| <= |s.cells|
  {
  }
}
