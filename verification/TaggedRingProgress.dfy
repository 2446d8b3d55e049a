/** Which calls of the queue return: a thread waits for nobody but the winner of its ticket. */
module TaggedRingProgress {
  import opened TaggedRing
  import opened TaggedRingProof
  import opened TaggedRingTheorems
  import opened TaggedRingSolo

  /** The call is in its retry loop with a position whose winner has not yet published or released the cell. */
  predicate Stuck<T>(s: System<T>, t: Tid) {
    t in s.threads &&
    match s.threads[t]
    case EnqLoadSeq(_, pos) => pos in s.writers
    case EnqCas(_, pos) => pos in s.writers
    case DeqLoadSeq(pos) => pos in s.readers
    case DeqCas(pos) => pos in s.readers
    case _ => false
  }

  function Winner<T>(s: System<T>, t: Tid): Tid
    requires Stuck(s, t)
  {
    if s.threads[t].EnqLoadSeq? || s.threads[t].EnqCas? then s.writers[s.threads[t].pos] else s.readers[s.threads[t].pos]
  }

  // ---- stuck while the winner takes no step ----------------------------------------------------

  /** Stuck in the same call, behind the same winner. */
  ghost predicate StaysStuck<T>(s: System<T>, s': System<T>, t: Tid)
    requires Stuck(s, t)
  {
    Stuck(s', t) && s'.threads[t].pos == s.threads[t].pos && Winner(s', t) == Winner(s, t)
  }

  /** The stuck thread's own steps lead from its load to its failing CAS and back. */
  lemma StuckSteps<T>(s: System<T>, t: Tid)
    requires Inv(s) && Enabled(s, Run(t)) && Stuck(s, t)
    ensures StaysStuck(s, Step(s, t), t)
  {
    var pc := s.threads[t];
    if pc.EnqLoadSeq? {
      assert WriterOk(s, pc.pos) && CellOk(s, pc.pos);
    } else if pc.DeqLoadSeq? {
      HeldSequence(s, pc.pos);
    } else if pc.EnqCas? {
      assert WriterOk(s, pc.pos);
    } else {
      assert ReaderOk(s, pc.pos);
    }
  }

  lemma OtherClaims<T>(s: System<T>, u: Tid, t: Tid)
    requires Inv(s) && Enabled(s, Run(u)) && Claiming(s.threads[u]) && Stuck(s, t) && u != t
    ensures StaysStuck(s, Step(s, u), t)
  {
    assert WriterOk(s, s.threads[t].pos) && ReaderOk(s, s.threads[t].pos);
  }

  lemma OtherStores<T>(s: System<T>, u: Tid, t: Tid)
    requires Inv(s) && Enabled(s, Run(u)) && Storing(s.threads[u]) && Stuck(s, t) && u != t && u != Winner(s, t)
    ensures StaysStuck(s, Step(s, u), t)
  {
    assert ThreadOk(s, u);
  }

  lemma OtherLocal<T>(s: System<T>, a: Action<T>, t: Tid)
    requires Inv(s) && LocalAction(s, a) && Stuck(s, t) && a.tid != t
    ensures StaysStuck(s, Apply(s, a), t)
  {
    LocalEffect(s, a);
  }

  lemma StuckStay<T>(s: System<T>, a: Action<T>, t: Tid)
    requires Inv(s) && Enabled(s, a) && Stuck(s, t) && a.tid != Winner(s, t)
    ensures StaysStuck(s, Apply(s, a), t)
  {
    if a.tid == t {
      StuckSteps(s, t);
    } else if LocalAction(s, a) {
      OtherLocal(s, a, t);
    } else if Claiming(s.threads[a.tid]) {
      OtherClaims(s, a.tid, t);
    } else {
      OtherStores(s, a.tid, t);
    }
  }

  /** Such a call does not return in any schedule in which its winner takes no step, whatever the others do. */
  lemma {:induction false} StuckRun<T>(s: System<T>, acts: seq<Action<T>>, t: Tid)
    requires Inv(s) && Schedule(s, acts) && Stuck(s, t) && forall a :: a in acts ==> a.tid != Winner(s, t)
    ensures Stuck(Exec(s, acts), t) && Winner(Exec(s, acts), t) == Winner(s, t) && !AtRest(Exec(s, acts).threads[t])
    decreases |acts|
  {
    if acts != [] {
      StuckStay(s, acts[0], t);
      StepInv(s, acts[0]);
      StuckRun(Apply(s, acts[0]), acts[1..], t);
    }
  }

  // ---- and otherwise it returns when left alone ------------------------------------------------

  /** The steps a call that is not stuck has left when it runs alone; an old position costs a detour. */
  function Left<T>(s: System<T>, t: Tid): nat {
    if t !in s.threads then 0
    else match s.threads[t]
         case EnqLoadPos(_) => 5
         case EnqLoadSeq(_, pos) => if pos == s.enqPos then 4 else 6
         case EnqCas(_, pos) => if pos == s.enqPos then 3 else 7
         case EnqWrite(_, _) => 2
         case EnqStore(_, _) => 1
         case DeqLoadPos => 6
         case DeqLoadSeq(pos) => if pos == s.deqPos then 5 else 7
         case DeqCas(pos) => if pos == s.deqPos then 4 else 8
         case DeqRead(_) => 3
         case DeqZero(_, _) => 2
         case DeqStore(_, _) => 1
         case _ => 0
  }

  lemma EnqAdvances<T>(s: System<T>, t: Tid)
    requires Inv(s) && Enabled(s, Run(t)) && !Stuck(s, t) && (s.threads[t].EnqLoadPos? || s.threads[t].EnqLoadSeq?)
    ensures !Stuck(Step(s, t), t) && Left(Step(s, t), t) < Left(s, t)
  {
    assert ThreadOk(s, t) && WriterOk(s, s.enqPos);
    CurrentSequences(s);
    if s.threads[t].EnqLoadSeq? {
      var pos := s.threads[t].pos;
      if pos < s.deqPos {
        StaleSequence(s, pos);
      } else if pos < s.enqPos {
        assert CellOk(s, pos);
      }
    }
  }

  lemma DeqAdvances<T>(s: System<T>, t: Tid)
    requires Inv(s) && Enabled(s, Run(t)) && !Stuck(s, t) && (s.threads[t].DeqLoadPos? || s.threads[t].DeqLoadSeq?)
    ensures !Stuck(Step(s, t), t) && Left(Step(s, t), t) < Left(s, t)
  {
    assert ThreadOk(s, t) && ReaderOk(s, s.deqPos);
    CurrentSequences(s);
    if s.threads[t].DeqLoadSeq? && s.threads[t].pos < s.deqPos {
      ReleasedSequence(s, s.threads[t].pos);
    }
  }

  lemma CasAdvances<T>(s: System<T>, t: Tid)
    requires Inv(s) && Enabled(s, Run(t)) && !Stuck(s, t) && Claiming(s.threads[t])
    ensures !Stuck(Step(s, t), t) && Left(Step(s, t), t) < Left(s, t)
  {
  }

  lemma StoreAdvances<T>(s: System<T>, t: Tid)
    requires Enabled(s, Run(t)) && (Storing(s.threads[t]) || s.threads[t].DeqRead?)
    ensures !Stuck(Step(s, t), t) && Left(Step(s, t), t) < Left(s, t)
  {
  }

  lemma GoesOn<T>(s: System<T>, t: Tid)
    requires Inv(s) && Enabled(s, Run(t)) && !Stuck(s, t)
    ensures !Stuck(Step(s, t), t) && Left(Step(s, t), t) < Left(s, t)
  {
    var pc := s.threads[t];
    if pc.EnqLoadPos? || pc.EnqLoadSeq? {
      EnqAdvances(s, t);
    } else if pc.DeqLoadPos? || pc.DeqLoadSeq? {
      DeqAdvances(s, t);
    } else if Claiming(pc) {
      CasAdvances(s, t);
    } else {
      StoreAdvances(s, t);
    }
  }

  ghost predicate ReturnsIn<T>(s: System<T>, t: Tid, n: nat) {
    Schedule(s, Alone(t, n)) && t in Exec(s, Alone(t, n)).threads && AtRest(Exec(s, Alone(t, n)).threads[t])
  }

  lemma {:induction false} FreeReturns<T>(s: System<T>, t: Tid) returns (n: nat)
    requires Inv(s) && t in s.threads && !Stuck(s, t)
    ensures n <= Left(s, t) && ReturnsIn(s, t, n)
    decreases Left(s, t)
  {
    if AtRest(s.threads[t]) {
      return 0;
    }
    GoesOn(s, t);
    StepInv(s, Run(t));
    var m := FreeReturns(Step(s, t), t);
    n := m + 1;
    assert Alone<T>(t, n)[1..] == Alone(t, m);
  }

  lemma {:induction false} AloneIs<T>(t: Tid, n: nat)
    ensures forall a :: a in Alone<T>(t, n) ==> a == Run(t)
  {
    if n > 0 { AloneIs<T>(t, n - 1); }
  }

  lemma WinnerIsOther<T>(s: System<T>, t: Tid)
    requires Inv(s) && Stuck(s, t)
    ensures Winner(s, t) != t
  {
    assert WriterOk(s, s.threads[t].pos) && ReaderOk(s, s.threads[t].pos);
  }

  /** Left alone at any program point, a call returns if and only if it is not stuck, and then within eight steps. */
  lemma ReturnsIff<T>(s: System<T>, t: Tid)
    requires Inv(s) && t in s.threads
    ensures (exists n: nat :: ReturnsIn(s, t, n)) <==> !Stuck(s, t)
    ensures !Stuck(s, t) ==> exists n: nat :: n <= 8 && ReturnsIn(s, t, n)
  {
    if Stuck(s, t) {
      WinnerIsOther(s, t);
      forall n: nat | Schedule(s, Alone(t, n)) ensures !ReturnsIn(s, t, n) {
        AloneIs<T>(t, n);
        StuckRun(s, Alone(t, n), t);
      }
    } else {
      var n := FreeReturns(s, t);
    }
  }
}
