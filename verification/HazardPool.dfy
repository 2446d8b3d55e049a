/** The block pool on top of the hazard domain: `Free` retires a block, the scan's callback puts it
    back into the pool of its size, `Alloc` takes it from there. Clients free a live block once,
    with the size it was allocated with. */
module HazardPool {
  import opened Hazard

  /** Where a block is: with a client, on its way through a retirement, or in the pool since one. */
  datatype Place = Live(size: nat) | Retiring(size: nat, seqNo: nat) | Pooled(size: nat, seqNo: nat)

  /** Blocks are numbered as they are made, from 1; `place` is a history variable. */
  datatype Pool = Pool(domain: Domain, pools: map<nat, seq<Ptr>>, next: nat, place: map<Ptr, Place>)

  datatype PoolAction = Alloc(size: nat) | Free(ptr: Ptr) | Step(act: Action)

  predicate PoolEnabled(s: Pool, a: PoolAction) {
    match a
    case Alloc(size) => size > 0
    case Free(p) => p in s.place && s.place[p].Live? && Shape(s.domain)
    case Step(act) => !act.RetireBegin? && Enabled(s.domain, act)
  }

  function FreeList(s: Pool, size: nat): seq<Ptr> {
    if size in s.pools then s.pools[size] else []
  }

  /** `Alloc` hands out the last block of the free list, or a new one. */
  function AllocPtr(s: Pool, size: nat): Ptr {
    var free := FreeList(s, size);
    if free != [] then free[|free| - 1] else s.next
  }

  predicate Reclaiming(d: Domain, act: Action) {
    Enabled(d, act) && act == ScanStep && d.scan.Sweep? && d.scan.k < |d.list| && d.list[d.scan.k].ptr !in d.scan.hazards
  }

  function PoolApply(s: Pool, a: PoolAction): Pool
    requires PoolEnabled(s, a)
  {
    match a
    case Alloc(size) =>
      var free, p := FreeList(s, size), AllocPtr(s, size);
      if free != [] then
        s.(pools := s.pools[size := free[..|free| - 1]], place := s.place[p := Live(size)])
      else
        s.(next := s.next + 1, place := s.place[p := Live(size)])
    case Free(p) =>
      var size := s.place[p].size;
      s.(domain := Apply(s.domain, RetireBegin(p, size)), place := s.place[p := Retiring(size, s.domain.globalSeq + 1)])
    case Step(act) =>
      if Reclaiming(s.domain, act) then
        var n := s.domain.list[s.domain.scan.k];
        s.(domain := Apply(s.domain, act),
           pools := s.pools[n.size := FreeList(s, n.size) + [n.ptr]],
           place := s.place[n.ptr := Pooled(n.size, n.seqNo)])
      else
        s.(domain := Apply(s.domain, act))
  }

  ghost predicate PoolInit(s: Pool) {
    Init(s.domain) && s.pools == map[] && s.next == 1 && s.place == map[]
  }

  // ---- the invariant -----------------------------------------------------------------------------

  /** Node `n` is on its way: begun, or on the list and not yet swept away. */
  predicate InTransit(d: Domain, n: Node) {
    n in Pending(d) || (n.seqNo in d.begun && d.begun[n.seqNo] == n)
  }

  predicate NodeOk(s: Pool, n: Node) {
    InTransit(s.domain, n) ==> n.ptr in s.place && s.place[n.ptr] == Retiring(n.size, n.seqNo)
  }

  ghost predicate BlockOk(s: Pool, p: Ptr) {
    && (p in s.place <==> 0 < p < s.next)
    && (p in s.place ==>
          match s.place[p]
          case Live(_) => true
          case Retiring(size, q) => InTransit(s.domain, Node(p, q, size))
          case Pooled(size, q) =>
            && p in FreeList(s, size) && q <= s.domain.globalSeq
            && forall i: nat :: !HeldSince(s.domain, i, p, q))
  }

  predicate FreeListOk(s: Pool, size: nat) {
    var free := FreeList(s, size);
    && (forall i :: 0 <= i < |free| ==> free[i] in s.place && s.place[free[i]].Pooled? && s.place[free[i]].size == size)
    && (forall i, j :: 0 <= i < j < |free| ==> free[i] != free[j])
  }

  ghost predicate PoolInv(s: Pool) {
    && Inv(s.domain) && s.next >= 1
    && (forall n: Node {:trigger NodeOk(s, n)} :: NodeOk(s, n))
    && (forall p: Ptr {:trigger BlockOk(s, p)} :: BlockOk(s, p))
    && (forall size: nat {:trigger FreeListOk(s, size)} :: FreeListOk(s, size))
  }

  lemma PoolInitInv(s: Pool)
    requires PoolInit(s)
    ensures PoolInv(s)
  {
    InitInv(s.domain);
  }

  /** How a domain step moves the nodes in transit: only a reclaiming step takes one out. */
  lemma TransitStep(d: Domain, act: Action, n: Node)
    requires Inv(d) && Enabled(d, act) && !act.RetireBegin?
    ensures !Reclaiming(d, act) ==> (InTransit(Apply(d, act), n) <==> InTransit(d, n))
    ensures Reclaiming(d, act) ==> InTransit(d, d.list[d.scan.k])
    ensures Reclaiming(d, act) ==> (InTransit(Apply(d, act), n) <==> InTransit(d, n) && n != d.list[d.scan.k])
  {
    if act.ScanStep? && d.scan.Sweep? {
      TransitSweep(d, n);
    } else if act.RetireAppend? {
      TransitAppend(d, act.seqNo, n);
    } else if act.ScanStep? {
      SlotScanPending(d);
      ScanEffect(d);
    } else {
      OtherPending(d, act);
    }
  }

  lemma TransitAppend(d: Domain, q: nat, n: Node)
    requires Inv(d) && Enabled(d, RetireAppend(q))
    ensures InTransit(Apply(d, RetireAppend(q)), n) <==> InTransit(d, n)
  {
  }

  lemma TransitSweep(d: Domain, n: Node)
    requires Inv(d) && Enabled(d, ScanStep) && d.scan.Sweep?
    ensures !Reclaiming(d, ScanStep) ==> (InTransit(ScanNext(d), n) <==> InTransit(d, n))
    ensures Reclaiming(d, ScanStep) ==> InTransit(d, d.list[d.scan.k])
    ensures Reclaiming(d, ScanStep) ==> (InTransit(ScanNext(d), n) <==> InTransit(d, n) && n != d.list[d.scan.k])
  {
    ScanEffect(d);
    if Reclaiming(d, ScanStep) {
      var x := d.list[d.scan.k];
      SweptOut(d, n);
      ReclaimedOnce(d, x);
      assert x in d.retired;
      assert multiset(Pending(d))[x] > 0;
    } else {
      SweptOver(d, n);
    }
  }

  lemma SweptOut(d: Domain, n: Node)
    requires Inv(d) && Reclaiming(d, ScanStep)
    ensures d.list[d.scan.k] in Pending(d)
    ensures n in Pending(ScanNext(d)) <==> n in Pending(d) && n != d.list[d.scan.k]
  {
    var x := d.list[d.scan.k];
    SweepOne(d.scan.kept, d.list, d.scan.k);
    SweepPendingOne(d);
    ReclaimedOnce(d, x);
    MembersMinus(Pending(d), Pending(ScanNext(d)), x, n);
  }

  lemma SweptOver(d: Domain, n: Node)
    requires Inv(d) && Enabled(d, ScanStep) && d.scan.Sweep? && !Reclaiming(d, ScanStep)
    ensures n in Pending(ScanNext(d)) <==> n in Pending(d)
  {
    if d.scan.k == |d.list| {
      SweepEnd(d.scan.kept, d.list);
    } else {
      SweepOne(d.scan.kept, d.list, d.scan.k);
      SweepPendingOne(d);
    }
  }

  lemma MembersMinus(a: seq<Node>, b: seq<Node>, x: Node, n: Node)
    requires multiset(a) == multiset(b) + multiset{x} && multiset(a)[x] <= 1
    ensures x in a
    ensures n in b <==> n in a && n != x
  {
    assert n in b <==> n in multiset(b);
    assert n in a <==> n in multiset(a);
    assert x in multiset(a);
  }

  // ---- preservation -----------------------------------------------------------------------------

  lemma NodeStep(s: Pool, a: PoolAction, n: Node)
    requires PoolInv(s) && PoolEnabled(s, a)
    ensures NodeOk(PoolApply(s, a), n)
  {
    assert NodeOk(s, n);
    match a
    case Alloc(size) => NodeAlloc(s, size, n);
    case Free(p) => NodeFree(s, p, n);
    case Step(act) => NodeDomain(s, act, n);
  }

  lemma NodeAlloc(s: Pool, size: nat, n: Node)
    requires PoolInv(s) && size > 0
    ensures NodeOk(PoolApply(s, Alloc(size)), n)
  {
    assert NodeOk(s, n) && FreeListOk(s, size) && BlockOk(s, s.next);
  }

  lemma NodeFree(s: Pool, p: Ptr, n: Node)
    requires PoolInv(s) && PoolEnabled(s, Free(p))
    ensures NodeOk(PoolApply(s, Free(p)), n)
  {
    assert NodeOk(s, n);
    var d := s.domain;
    assert Pending(Apply(d, RetireBegin(p, s.place[p].size))) == Pending(d);
  }

  lemma NodeDomain(s: Pool, act: Action, n: Node)
    requires PoolInv(s) && PoolEnabled(s, Step(act))
    ensures NodeOk(PoolApply(s, Step(act)), n)
  {
    assert NodeOk(s, n);
    TransitStep(s.domain, act, n);
    if Reclaiming(s.domain, act) {
      assert NodeOk(s, s.domain.list[s.domain.scan.k]);
      if n.ptr == s.domain.list[s.domain.scan.k].ptr { assert NodeOk(s, n); }
    }
  }

  lemma BlockAlloc(s: Pool, size: nat, p: Ptr)
    requires PoolInv(s) && size > 0
    ensures BlockOk(PoolApply(s, Alloc(size)), p)
  {
    assert BlockOk(s, p) && FreeListOk(s, size) && BlockOk(s, AllocPtr(s, size));
  }

  lemma BlockFree(s: Pool, f: Ptr, p: Ptr)
    requires PoolInv(s) && PoolEnabled(s, Free(f))
    ensures BlockOk(PoolApply(s, Free(f)), p)
  {
    assert BlockOk(s, p);
    var d' := Apply(s.domain, RetireBegin(f, s.place[f].size));
    assert Pending(d') == Pending(s.domain);
    assert forall i: nat, q: nat :: HeldSince(d', i, p, q) <==> HeldSince(s.domain, i, p, q);
  }

  /** A domain step gives no slot a hold on a pointer dating from before a past retirement. */
  lemma NoNewHold(d: Domain, act: Action, i: nat, p: Ptr, q: nat)
    requires Inv(d) && Enabled(d, act) && q <= d.globalSeq && !HeldSince(d, i, p, q)
    ensures !HeldSince(Apply(d, act), i, p, q)
  {
    if act.ScanStep? { ScanEffect(d); }
  }

  lemma BlockDomain(s: Pool, act: Action, p: Ptr)
    requires PoolInv(s) && PoolEnabled(s, Step(act))
    ensures BlockOk(PoolApply(s, Step(act)), p)
  {
    assert BlockOk(s, p);
    var d, s' := s.domain, PoolApply(s, Step(act));
    GlobalSeqSame(d, act);
    if Reclaiming(d, act) && d.list[d.scan.k].ptr == p {
      BlockReclaimed(s, p);
    } else if p in s.place {
      match s.place[p]
      case Live(_) =>
      case Retiring(size, q) => TransitStep(d, act, Node(p, q, size));
      case Pooled(size, q) =>
        forall i: nat ensures !HeldSince(s'.domain, i, p, q) { NoNewHold(d, act, i, p, q); }
    }
  }

  lemma GlobalSeqSame(d: Domain, act: Action)
    requires Enabled(d, act) && !act.RetireBegin?
    ensures Apply(d, act).globalSeq == d.globalSeq
  {
    if act.ScanStep? { ScanEffect(d); }
  }

  lemma BlockReclaimed(s: Pool, p: Ptr)
    requires PoolInv(s) && Reclaiming(s.domain, ScanStep) && s.domain.list[s.domain.scan.k].ptr == p
    ensures BlockOk(PoolApply(s, Step(ScanStep)), p)
  {
    var d := s.domain;
    var n := d.list[d.scan.k];
    TransitStep(d, ScanStep, n);
    assert NodeOk(s, n) && BlockOk(s, p) && n in d.retired;
    ScanEffect(d);
    forall i: nat ensures !HeldSince(ScanNext(d), i, p, n.seqNo) {
      ReclaimSafe(d, ScanStep, n, i);
    }
  }

  lemma FreeListStep(s: Pool, a: PoolAction, size: nat)
    requires PoolInv(s) && PoolEnabled(s, a)
    ensures FreeListOk(PoolApply(s, a), size)
  {
    assert FreeListOk(s, size);
    match a
    case Alloc(want) => FreeListAlloc(s, want, size);
    case Free(p) =>
    case Step(act) =>
      if Reclaiming(s.domain, act) { FreeListReclaim(s, size); }
  }

  lemma FreeListAlloc(s: Pool, want: nat, size: nat)
    requires PoolInv(s) && want > 0
    ensures FreeListOk(PoolApply(s, Alloc(want)), size)
  {
    assert FreeListOk(s, size) && FreeListOk(s, want) && BlockOk(s, s.next);
  }

  lemma FreeListReclaim(s: Pool, size: nat)
    requires PoolInv(s) && Reclaiming(s.domain, ScanStep)
    ensures FreeListOk(PoolApply(s, Step(ScanStep)), size)
  {
    var n := s.domain.list[s.domain.scan.k];
    TransitStep(s.domain, ScanStep, n);
    assert FreeListOk(s, size) && FreeListOk(s, n.size) && NodeOk(s, n);
  }

  lemma PoolStepInv(s: Pool, a: PoolAction)
    requires PoolInv(s) && PoolEnabled(s, a)
    ensures PoolInv(PoolApply(s, a))
  {
    var s' := PoolApply(s, a);
    if a.Step? { StepInv(s.domain, a.act); }
    if a.Free? { StepInv(s.domain, RetireBegin(a.ptr, s.place[a.ptr].size)); }
    forall n: Node ensures NodeOk(s', n) { NodeStep(s, a, n); }
    forall p: Ptr ensures BlockOk(s', p) { BlockStep(s, a, p); }
    forall size: nat ensures FreeListOk(s', size) { FreeListStep(s, a, size); }
  }

  lemma BlockStep(s: Pool, a: PoolAction, p: Ptr)
    requires PoolInv(s) && PoolEnabled(s, a)
    ensures BlockOk(PoolApply(s, a), p)
  {
    match a
    case Alloc(size) => BlockAlloc(s, size, p);
    case Free(f) => BlockFree(s, f, p);
    case Step(act) => BlockDomain(s, act, p);
  }

  // ---- what the pool guarantees ------------------------------------------------------------------

  predicate PoolSchedule(s: Pool, acts: seq<PoolAction>)
    decreases |acts|
  {
    acts == [] || (PoolEnabled(s, acts[0]) && PoolSchedule(PoolApply(s, acts[0]), acts[1..]))
  }

  function PoolExec(s: Pool, acts: seq<PoolAction>): Pool
    requires PoolSchedule(s, acts)
    decreases |acts|
  {
    if acts == [] then s else PoolExec(PoolApply(s, acts[0]), acts[1..])
  }

  lemma {:induction false} PoolExecInv(s: Pool, acts: seq<PoolAction>)
    requires PoolInv(s) && PoolSchedule(s, acts)
    ensures PoolInv(PoolExec(s, acts))
    decreases |acts|
  {
    if acts != [] {
      PoolStepInv(s, acts[0]);
      PoolExecInv(PoolApply(s, acts[0]), acts[1..]);
    }
  }

  ghost predicate IsRetiring(s: Pool, p: Ptr) { exists n: Node :: n.ptr == p && InTransit(s.domain, n) }

  ghost predicate IsPooled(s: Pool, p: Ptr) { exists size: nat :: p in FreeList(s, size) }

  predicate IsLive(s: Pool, p: Ptr) { p in s.place && s.place[p].Live? }

  /** After any run every block ever made is in exactly one of the three places, and in the pool at
      most once, under one size. */
  lemma OnePlace(s0: Pool, acts: seq<PoolAction>, p: Ptr)
    requires PoolInit(s0) && PoolSchedule(s0, acts)
    ensures var s := PoolExec(s0, acts);
            && (IsLive(s, p) || IsRetiring(s, p) || IsPooled(s, p) <==> 0 < p < s.next)
            && !(IsLive(s, p) && IsRetiring(s, p)) && !(IsLive(s, p) && IsPooled(s, p)) && !(IsRetiring(s, p) && IsPooled(s, p))
    ensures var s := PoolExec(s0, acts);
            forall size: nat, size': nat, i, j ::
              0 <= i < |FreeList(s, size)| && 0 <= j < |FreeList(s, size')| && FreeList(s, size)[i] == FreeList(s, size')[j]
              ==> size == size' && i == j
  {
    PoolInitInv(s0);
    PoolExecInv(s0, acts);
    PlaceUnique(PoolExec(s0, acts), p);
    PoolUnique(PoolExec(s0, acts));
  }

  lemma PlaceUnique(s: Pool, p: Ptr)
    requires PoolInv(s)
    ensures (IsLive(s, p) || IsRetiring(s, p) || IsPooled(s, p)) <==> 0 < p < s.next
    ensures !(IsLive(s, p) && IsRetiring(s, p)) && !(IsLive(s, p) && IsPooled(s, p)) && !(IsRetiring(s, p) && IsPooled(s, p))
  {
    assert BlockOk(s, p);
    forall n: Node | n.ptr == p && InTransit(s.domain, n)
      ensures p in s.place && s.place[p].Retiring?
    {
      assert NodeOk(s, n);
    }
    forall size: nat | p in FreeList(s, size)
      ensures p in s.place && s.place[p].Pooled?
    {
      assert FreeListOk(s, size);
    }
  }

  lemma PoolUnique(s: Pool)
    requires PoolInv(s)
    ensures forall size: nat, size': nat, i, j ::
              0 <= i < |FreeList(s, size)| && 0 <= j < |FreeList(s, size')| && FreeList(s, size)[i] == FreeList(s, size')[j]
              ==> size == size' && i == j
  {
    forall size: nat, size': nat, i, j |
      0 <= i < |FreeList(s, size)| && 0 <= j < |FreeList(s, size')| && FreeList(s, size)[i] == FreeList(s, size')[j]
      ensures size == size' && i == j
    {
      assert FreeListOk(s, size) && FreeListOk(s, size');
    }
  }

  /** What `Alloc` hands out is neither live nor on its way through a retirement, and if it was
      freed before, no guard has held it since before that `Free`. */
  lemma AllocSafe(s0: Pool, acts: seq<PoolAction>, size: nat)
    requires PoolInit(s0) && PoolSchedule(s0, acts) && size > 0
    ensures var s, p := PoolExec(s0, acts), AllocPtr(PoolExec(s0, acts), size);
            && !IsLive(s, p) && !IsRetiring(s, p)
            && (p in s.place ==> s.place[p].Pooled? && s.place[p].size == size
                                 && forall i: nat :: !HeldSince(s.domain, i, p, s.place[p].seqNo))
            && PoolApply(s, Alloc(size)).place[p] == Live(size)
  {
    PoolInitInv(s0);
    PoolExecInv(s0, acts);
    var s := PoolExec(s0, acts);
    var p := AllocPtr(s, size);
    PlaceUnique(s, p);
    assert FreeListOk(s, size) && BlockOk(s, p);
  }
}
