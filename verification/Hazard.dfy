/**
 Hazard-pointer reclamation as an interleaving transition system: guards publish and withdraw
 pointers, threads retire nodes, and a scan reads the slots one atomic load at a time while all
 of that goes on. Only the retired list is protected by a lock, which the scan holds throughout.
 */
module Hazard {

  const SLOTS: nat := 128
  const RETIRE_BATCH: nat := 64

  /** Addresses; 0 is nil. */
  type Ptr = nat

  datatype Node = Node(ptr: Ptr, seqNo: nat, size: nat)

  /** What the owner of a guard is in the middle of. */
  datatype GuardOp = Ready | Protecting(ptr: Ptr) | Releasing

  datatype Guard = Guard(prev: Ptr, op: GuardOp)

  /** Where the thread holding the list lock is inside `Scan`. */
  datatype ScanPc =
    | NoScan
    | LoadUse(i: nat, hazards: set<Ptr>)
    | LoadPtr(i: nat, hazards: set<Ptr>)
    | Sweep(k: nat, hazards: set<Ptr>, kept: seq<Node>)

  /** The shared domain, the guards held and the retirements begun, then history variables: the
      value of `globalSeq` at the last store to each slot, and everything ever appended to the
      retired list and ever reclaimed. */
  datatype Domain = Domain(
    hzPtrs: seq<Ptr>,
    inUse: seq<bool>,
    globalSeq: nat,
    list: seq<Node>,
    count: nat,
    guards: map<nat, Guard>,
    begun: map<nat, Node>,
    scan: ScanPc,
    published: seq<nat>,
    retired: seq<Node>,
    reclaimed: seq<Node>
  )

  datatype Action =
    | Acquire(slot: nat)
    | ProtectLoad(slot: nat, ptr: Ptr)
    | ProtectStore(slot: nat)
    | Clear(slot: nat)
    | ReleaseClear(slot: nat)
    | ReleaseFree(slot: nat)
    | RetireBegin(ptr: Ptr, size: nat)
    | RetireAppend(seqNo: nat)
    | ScanBegin
    | ScanStep

  predicate Shape(d: Domain) {
    |d.hzPtrs| == |d.inUse| == |d.published| == SLOTS
  }

  predicate Enabled(d: Domain, a: Action) {
    Shape(d) &&
    match a
    case Acquire(i) => i < SLOTS && !d.inUse[i]
    case ProtectLoad(i, _) => i < SLOTS && i in d.guards && d.guards[i].op == Ready
    case ProtectStore(i) => i < SLOTS && i in d.guards && d.guards[i].op.Protecting?
    case Clear(i) => i < SLOTS && i in d.guards && d.guards[i].op == Ready
    case ReleaseClear(i) => i < SLOTS && i in d.guards && d.guards[i].op == Ready
    case ReleaseFree(i) => i < SLOTS && i in d.guards && d.guards[i].op == Releasing
    case RetireBegin(_, _) => true
    case RetireAppend(q) => q in d.begun && d.scan == NoScan
    case ScanBegin => d.scan == NoScan
    case ScanStep =>
      match d.scan
      case NoScan => false
      case LoadUse(i, _) => i < SLOTS
      case LoadPtr(i, _) => i < SLOTS
      case Sweep(k, _, _) => k <= |d.list|
  }

  function Publish(d: Domain, i: nat, p: Ptr, g: Guard): Domain
    requires Shape(d) && i < SLOTS
  {
    d.(hzPtrs := d.hzPtrs[i := p], published := d.published[i := d.globalSeq], guards := d.guards[i := g])
  }

  function NextSlot(i: nat, hazards: set<Ptr>): ScanPc {
    if i + 1 < SLOTS then LoadUse(i + 1, hazards) else Sweep(0, hazards, [])
  }

  function ScanNext(d: Domain): Domain
    requires Enabled(d, ScanStep)
  {
    match d.scan
    case LoadUse(i, hs) => d.(scan := if d.inUse[i] then LoadPtr(i, hs) else NextSlot(i, hs))
    case LoadPtr(i, hs) => d.(scan := NextSlot(i, if d.hzPtrs[i] != 0 then hs + {d.hzPtrs[i]} else hs))
    case Sweep(k, hs, kept) =>
      if k == |d.list| then
        d.(list := kept, count := |kept|, scan := NoScan)
      else if d.list[k].ptr in hs then
        d.(scan := Sweep(k + 1, hs, kept + [d.list[k]]))
      else
        d.(scan := Sweep(k + 1, hs, kept), reclaimed := d.reclaimed + [d.list[k]])
  }

  function Apply(d: Domain, a: Action): Domain
    requires Enabled(d, a)
  {
    match a
    case Acquire(i) => d.(inUse := d.inUse[i := true], guards := d.guards[i := Guard(0, Ready)])
    case ProtectLoad(i, p) => d.(guards := d.guards[i := Guard(d.hzPtrs[i], Protecting(p))])
    case ProtectStore(i) => Publish(d, i, d.guards[i].op.ptr, d.guards[i].(op := Ready))
    case Clear(i) => Publish(d, i, d.guards[i].prev, Guard(0, Ready))
    case ReleaseClear(i) => Publish(d, i, 0, d.guards[i].(op := Releasing))
    case ReleaseFree(i) => d.(inUse := d.inUse[i := false], guards := d.guards - {i})
    case RetireBegin(p, size) =>
      d.(globalSeq := d.globalSeq + 1, begun := d.begun[d.globalSeq + 1 := Node(p, d.globalSeq + 1, size)])
    case RetireAppend(q) =>
      d.(list := d.list + [d.begun[q]], count := d.count + 1, begun := d.begun - {q}, retired := d.retired + [d.begun[q]])
    case ScanBegin => d.(scan := LoadUse(0, {}))
    case ScanStep => ScanNext(d)
  }

  /** The node a step hands to its reclaim callback. */
  predicate Reclaims(d: Domain, a: Action, n: Node) {
    && Enabled(d, a) && a == ScanStep && d.scan.Sweep?
    && d.scan.k < |d.list| && d.list[d.scan.k] == n && n.ptr !in d.scan.hazards
  }

  predicate Init(d: Domain) {
    && Shape(d)
    && (forall i :: 0 <= i < SLOTS ==> d.hzPtrs[i] == 0 && !d.inUse[i])
    && d.globalSeq == 0 && d.list == [] && d.count == 0
    && d.guards == map[] && d.begun == map[] && d.scan == NoScan
    && (forall i :: 0 <= i < SLOTS ==> d.published[i] == 0)
    && d.retired == [] && d.reclaimed == []
  }

  /** Slot `i` has held `p` since before the retirement numbered `q` began: the guard's owner
      has not cleared, re-protected or released since. */
  predicate HeldSince(d: Domain, i: nat, p: Ptr, q: nat) {
    Shape(d) && i < SLOTS && p != 0 && d.hzPtrs[i] == p && d.published[i] < q
  }

  // ---- the invariant -------------------------------------------------------------------------------

  /** Retired, not reclaimed: the list as a sweep has rewritten it so far. */
  function Pending(d: Domain): seq<Node> {
    if d.scan.Sweep? && d.scan.k <= |d.list| then d.scan.kept + d.list[d.scan.k..] else d.list
  }

  predicate SlotOk(d: Domain, i: nat)
    requires Shape(d) && i < SLOTS
  {
    && (d.hzPtrs[i] != 0 ==> i in d.guards && d.guards[i].op != Releasing)
    && (i in d.guards <==> d.inUse[i])
    && d.published[i] <= d.globalSeq
  }

  /** Every slot the scan has passed: what it has held since before a listed node was retired
      is in the hazard set. */
  predicate Seen(d: Domain, i: nat, n: Node) {
    HeldSince(d, i, n.ptr, n.seqNo) ==>
      match d.scan
      case NoScan => true
      case LoadUse(j, hs) => i < j ==> n.ptr in hs
      case LoadPtr(j, hs) => i < j ==> n.ptr in hs
      case Sweep(_, hs, _) => n.ptr in hs
  }

  predicate ScanOk(d: Domain) {
    match d.scan
    case NoScan => true
    case LoadUse(i, hs) => i < SLOTS && |hs| <= i
    case LoadPtr(i, hs) => i < SLOTS && |hs| <= i
    case Sweep(k, hs, kept) =>
      && k <= |d.list| && |hs| <= SLOTS && |kept| <= k
      && (forall n :: n in kept ==> n.ptr in hs)
      && (forall n :: n in kept ==> n in d.list)
  }

  ghost predicate NumbersOk(d: Domain) {
    && (forall n :: n in d.retired ==> 0 < n.seqNo <= d.globalSeq && n.seqNo !in d.begun)
    && (forall i, j :: 0 <= i < j < |d.retired| ==> d.retired[i].seqNo != d.retired[j].seqNo)
    && (forall q :: q in d.begun ==> 0 < q <= d.globalSeq && d.begun[q].seqNo == q)
  }

  /** Nothing retired is lost or handled twice. */
  ghost predicate Conserved(d: Domain) {
    && multiset(Pending(d)) + multiset(d.reclaimed) == multiset(d.retired)
    && (forall n :: n in d.list ==> n in d.retired)
    && d.count == |d.list|
  }

  ghost predicate Inv(d: Domain) {
    && Shape(d)
    && (forall i: nat {:trigger SlotOk(d, i)} :: i < SLOTS ==> SlotOk(d, i))
    && ScanOk(d)
    && NumbersOk(d)
    && Conserved(d)
    && (forall i: nat, n: Node {:trigger Seen(d, i, n)} :: i < SLOTS && n in d.list ==> Seen(d, i, n))
  }

  lemma InitInv(d: Domain)
    requires Init(d)
    ensures Inv(d)
  {
  }

  lemma SlotStep(d: Domain, a: Action, i: nat)
    requires Inv(d) && Enabled(d, a) && i < SLOTS
    ensures Shape(Apply(d, a)) && SlotOk(Apply(d, a), i)
  {
    assert SlotOk(d, i);
    if a.ScanStep? {
      ScanEffect(d);
    }
  }

  /** A scan step changes the scan, the list and what was reclaimed, nothing else. */
  lemma ScanEffect(d: Domain)
    requires Enabled(d, ScanStep)
    ensures var d' := ScanNext(d);
            && d' == d.(scan := d'.scan, list := d'.list, count := d'.count, reclaimed := d'.reclaimed)
            && (!(d.scan.Sweep? && d.scan.k == |d.list|) ==> d'.list == d.list && d'.count == d.count)
  {
  }

  lemma ScanOkStep(d: Domain, a: Action)
    requires Inv(d) && Enabled(d, a)
    ensures ScanOk(Apply(d, a))
  {
  }

  lemma NumbersStep(d: Domain, a: Action)
    requires Inv(d) && Enabled(d, a)
    ensures NumbersOk(Apply(d, a))
  {
    if a.ScanStep? {
      ScanEffect(d);
    }
  }

  lemma SeenStep(d: Domain, a: Action, i: nat, n: Node)
    requires Inv(d) && Enabled(d, a) && i < SLOTS && n in Apply(d, a).list
    ensures Seen(Apply(d, a), i, n)
  {
    assert SlotOk(d, i);
    if n in d.list { assert Seen(d, i, n); }
  }

  lemma ConservedStep(d: Domain, a: Action)
    requires Inv(d) && Enabled(d, a)
    ensures Conserved(Apply(d, a))
  {
    if a.ScanStep? && d.scan.Sweep? {
      ConservedSweep(d);
    } else if a.RetireAppend? {
      ConservedAppend(d, a.seqNo);
    } else {
      ConservedElse(d, a);
    }
  }

  lemma ConservedElse(d: Domain, a: Action)
    requires Inv(d) && Enabled(d, a) && !a.RetireAppend? && !(a.ScanStep? && d.scan.Sweep?)
    ensures Conserved(Apply(d, a))
  {
    if a.ScanStep? {
      SlotScanPending(d);
    } else {
      OtherPending(d, a);
    }
  }

  lemma SlotScanPending(d: Domain)
    requires Enabled(d, ScanStep) && !d.scan.Sweep?
    ensures Pending(ScanNext(d)) == Pending(d)
    ensures var d' := ScanNext(d); d'.list == d.list && d'.count == d.count && d'.retired == d.retired && d'.reclaimed == d.reclaimed
  {
    SweepStart(d.list);
  }

  lemma SweepStart(list: seq<Node>)
    ensures [] + list[0..] == list
  {
  }

  lemma OtherPending(d: Domain, a: Action)
    requires Enabled(d, a) && !a.RetireAppend? && !a.ScanStep?
    ensures Pending(Apply(d, a)) == Pending(d)
    ensures var d' := Apply(d, a); d'.list == d.list && d'.count == d.count && d'.retired == d.retired && d'.reclaimed == d.reclaimed
  {
  }

  lemma ConservedAppend(d: Domain, q: nat)
    requires Inv(d) && Enabled(d, RetireAppend(q))
    ensures Conserved(Apply(d, RetireAppend(q)))
  {
  }

  lemma ConservedSweep(d: Domain)
    requires Inv(d) && Enabled(d, ScanStep) && d.scan.Sweep?
    ensures Conserved(ScanNext(d))
  {
    SweepPending(d);
    SweepMembers(d);
  }

  lemma SweepMembers(d: Domain)
    requires ScanOk(d) && Enabled(d, ScanStep) && d.scan.Sweep?
    requires (forall n :: n in d.list ==> n in d.retired) && d.count == |d.list|
    ensures var d' := ScanNext(d); d'.retired == d.retired && d'.count == |d'.list| && forall n :: n in d'.list ==> n in d.retired
  {
  }

  lemma SweepPending(d: Domain)
    requires Enabled(d, ScanStep) && d.scan.Sweep?
    ensures multiset(Pending(ScanNext(d))) + multiset(ScanNext(d).reclaimed) == multiset(Pending(d)) + multiset(d.reclaimed)
  {
    var Sweep(k, hs, kept) := d.scan;
    if k == |d.list| {
      SweepEnd(kept, d.list);
    } else {
      SweepOne(kept, d.list, k);
      SweepPendingOne(d);
    }
  }

  lemma SweepPendingOne(d: Domain)
    requires Enabled(d, ScanStep) && d.scan.Sweep? && d.scan.k < |d.list|
    ensures var Sweep(k, hs, kept) := d.scan;
            if d.list[k].ptr in hs then
              Pending(ScanNext(d)) == (kept + [d.list[k]]) + d.list[k + 1..] && ScanNext(d).reclaimed == d.reclaimed
            else
              Pending(ScanNext(d)) == kept + d.list[k + 1..] && ScanNext(d).reclaimed == d.reclaimed + [d.list[k]]
  {
  }

  lemma SweepEnd(kept: seq<Node>, list: seq<Node>)
    ensures kept + list[|list|..] == kept
  {
  }

  lemma SweepOne(kept: seq<Node>, list: seq<Node>, k: nat)
    requires k < |list|
    ensures kept + list[k..] == (kept + [list[k]]) + list[k + 1..]
    ensures multiset(kept + list[k..]) == multiset(kept + list[k + 1..]) + multiset{list[k]}
  {
    assert list[k..] == [list[k]] + list[k + 1..];
  }

  lemma StepInv(d: Domain, a: Action)
    requires Inv(d) && Enabled(d, a)
    ensures Inv(Apply(d, a))
  {
    var d' := Apply(d, a);
    forall i: nat | i < SLOTS ensures Shape(d') && SlotOk(d', i) { SlotStep(d, a, i); }
    SlotStep(d, a, 0);
    ScanOkStep(d, a);
    NumbersStep(d, a);
    ConservedStep(d, a);
    forall i: nat, n: Node | i < SLOTS && n in d'.list ensures Seen(d', i, n) { SeenStep(d, a, i, n); }
  }

  // ---- what the domain guarantees ----------------------------------------------------------------

  predicate Schedule(d: Domain, acts: seq<Action>)
    decreases |acts|
  {
    acts == [] || (Enabled(d, acts[0]) && Schedule(Apply(d, acts[0]), acts[1..]))
  }

  function Exec(d: Domain, acts: seq<Action>): Domain
    requires Schedule(d, acts)
    decreases |acts|
  {
    if acts == [] then d else Exec(Apply(d, acts[0]), acts[1..])
  }

  lemma {:induction false} ExecInv(d: Domain, acts: seq<Action>)
    requires Inv(d) && Schedule(d, acts)
    ensures Inv(Exec(d, acts))
    decreases |acts|
  {
    if acts != [] {
      StepInv(d, acts[0]);
      ExecInv(Apply(d, acts[0]), acts[1..]);
    }
  }

  /** Safety: after any run, the node a scan is about to reclaim is one no guard has held since
      before its retirement began. */
  lemma NeverReclaimsHeld(d0: Domain, acts: seq<Action>, a: Action, n: Node, i: nat)
    requires Init(d0) && Schedule(d0, acts) && Reclaims(Exec(d0, acts), a, n)
    ensures !HeldSince(Exec(d0, acts), i, n.ptr, n.seqNo)
  {
    InitInv(d0);
    ExecInv(d0, acts);
    ReclaimSafe(Exec(d0, acts), a, n, i);
  }

  lemma ReclaimSafe(d: Domain, a: Action, n: Node, i: nat)
    requires Inv(d) && Reclaims(d, a, n)
    ensures !HeldSince(d, i, n.ptr, n.seqNo)
  {
    if i < SLOTS { assert Seen(d, i, n); }
  }

  /** `HeldSince` is what publishing gives: once a guard has stored `p`, a retirement that begins
      afterwards is numbered above the slot's stamp, and only the guard's own operations end it. */
  lemma ProtectHolds(d: Domain, i: nat, a: Action)
    requires Inv(d) && Enabled(d, a)
    ensures a == ProtectStore(i) && d.guards[i].op.ptr != 0 ==>
      HeldSince(Apply(d, a), i, d.guards[i].op.ptr, d.globalSeq + 1)
    ensures a != ProtectStore(i) && a != Clear(i) && a != ReleaseClear(i) ==>
      forall p: Ptr, q: nat :: HeldSince(d, i, p, q) ==> HeldSince(Apply(d, a), i, p, q)
  {
    if a.ScanStep? { ScanEffect(d); }
  }

  /** Each retirement is reclaimed at most once, and retirements = reclaimed + pending. */
  lemma ReclaimedOnce(d: Domain, n: Node)
    requires Inv(d)
    ensures multiset(d.reclaimed)[n] + multiset(Pending(d))[n] <= 1
    ensures |d.retired| == |d.reclaimed| + |Pending(d)|
    ensures d.scan == NoScan ==> |d.retired| == |d.reclaimed| + d.count
  {
    UniqueCount(d.retired, n);
    assert |multiset(d.retired)| == |multiset(Pending(d))| + |multiset(d.reclaimed)|;
  }

  lemma {:induction false} UniqueCount(ns: seq<Node>, n: Node)
    requires forall i, j :: 0 <= i < j < |ns| ==> ns[i].seqNo != ns[j].seqNo
    ensures multiset(ns)[n] <= 1
  {
    if ns != [] {
      var last := ns[|ns| - 1];
      assert ns == ns[..|ns| - 1] + [last];
      UniqueCount(ns[..|ns| - 1], n);
      if n == last { assert n !in ns[..|ns| - 1]; }
    }
  }

  /** The end of a scan: everything left is hazardous, and with distinct pointers that is at most
      one node for each of the 128 slots. */
  lemma SurvivorsBounded(d: Domain)
    requires Inv(d) && Enabled(d, ScanStep) && d.scan.Sweep? && d.scan.k == |d.list|
    ensures ScanNext(d).list == d.scan.kept && forall n :: n in d.scan.kept ==> n.ptr in d.scan.hazards
    ensures (forall i, j :: 0 <= i < j < |d.scan.kept| ==> d.scan.kept[i].ptr != d.scan.kept[j].ptr) ==>
      |ScanNext(d).list| <= 128
  {
    if forall i, j :: 0 <= i < j < |d.scan.kept| ==> d.scan.kept[i].ptr != d.scan.kept[j].ptr {
      Pigeonhole(d.scan.kept, d.scan.hazards);
    }
  }

  lemma {:induction false} Pigeonhole(ns: seq<Node>, hs: set<Ptr>)
    requires forall n :: n in ns ==> n.ptr in hs
    requires forall i, j :: 0 <= i < j < |ns| ==> ns[i].ptr != ns[j].ptr
    ensures |ns| <= |hs|
  {
    if ns != [] {
      var last := ns[|ns| - 1];
      Pigeonhole(ns[..|ns| - 1], hs - {last.ptr});
    }
  }
}
