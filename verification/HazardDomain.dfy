/** The hazard domain as the object its callers use, one call at a time. The reclaim callbacks a
    call makes are returned as the nodes they were made for, in order. */
module HazardDomain {
  import opened Hazard

  /** The nodes of `ns` whose pointer is hazardous, or is not, in order. */
  function Select(ns: seq<Node>, hazards: set<Ptr>, hazardous: bool): seq<Node> {
    if ns == [] then []
    else
      var last := ns[|ns| - 1];
      Select(ns[..|ns| - 1], hazards, hazardous) + if (last.ptr in hazards) == hazardous then [last] else []
  }

  /** A sweep splits the list: every node is kept or reclaimed, as often as it was listed. */
  lemma {:induction false} SelectPartition(ns: seq<Node>, hazards: set<Ptr>)
    ensures multiset(Select(ns, hazards, true)) + multiset(Select(ns, hazards, false)) == multiset(ns)
  {
    if ns != [] {
      assert ns == ns[..|ns| - 1] + [ns[|ns| - 1]];
      SelectPartition(ns[..|ns| - 1], hazards);
    }
  }

  /** What is kept is what is hazardous, and what is reclaimed is not. */
  lemma {:induction false} SelectIff(ns: seq<Node>, hazards: set<Ptr>, hazardous: bool, n: Node)
    ensures n in Select(ns, hazards, hazardous) <==> n in ns && (n.ptr in hazards <==> hazardous)
  {
    if ns != [] {
      assert ns == ns[..|ns| - 1] + [ns[|ns| - 1]];
      SelectIff(ns[..|ns| - 1], hazards, hazardous, n);
    }
  }

  class HazardDomain {
    const hzPtrs: array<Ptr>
    const inUse: array<bool>
    var globalSeq: nat
    var list: seq<Node>
    var count: nat

    ghost predicate Valid()
      reads this
    {
      hzPtrs.Length == SLOTS && inUse.Length == SLOTS && hzPtrs as object != inUse && count == |list|
    }

    /** What the slots in use publish. */
    ghost function Hazards(): set<Ptr>
      reads hzPtrs, inUse
      requires hzPtrs.Length == SLOTS && inUse.Length == SLOTS
    {
      set i | 0 <= i < SLOTS && inUse[i] && hzPtrs[i] != 0 :: hzPtrs[i]
    }

    constructor ()
      ensures Valid() && fresh(hzPtrs) && fresh(inUse)
      ensures Hazards() == {} && list == [] && globalSeq == 0
      ensures forall i :: 0 <= i < SLOTS ==> !inUse[i] && hzPtrs[i] == 0
    {
      hzPtrs := new Ptr[SLOTS](_ => 0);
      inUse := new bool[SLOTS](_ => false);
      globalSeq, list, count := 0, [], 0;
    }

    /** The lowest free slot, and none exactly when all are taken, which is where the original panics. */
    method Acquire() returns (guard: HazardGuard?)
      requires Valid()
      modifies inUse
      ensures Valid()
      ensures guard == null <==> forall i :: 0 <= i < 128 ==> old(inUse[i])
      ensures guard == null ==> inUse[..] == old(inUse[..])
      ensures guard != null ==>
        && fresh(guard) && guard.hp == this && guard.slot < SLOTS && guard.prev == 0
        && !old(inUse[..])[guard.slot] && (forall i :: 0 <= i < guard.slot ==> old(inUse[..])[i])
        && inUse[..] == old(inUse[..])[guard.slot := true]
    {
      for i := 0 to SLOTS
        invariant forall j :: 0 <= j < i ==> inUse[j]
        invariant inUse[..] == old(inUse[..])
      {
        if !inUse[i] {
          inUse[i] := true;
          guard := new HazardGuard(i, this);
          return;
        }
      }
      return null;
    }

    /** Keeps exactly the hazardous nodes, in order, and reclaims exactly the others, in order. */
    method Scan() returns (freed: seq<Node>)
      requires Valid()
      modifies this`list, this`count
      ensures Valid()
      ensures list == Select(old(list), Hazards(), true) && freed == Select(old(list), Hazards(), false)
    {
      var hazardSet: set<Ptr> := {};
      for i := 0 to SLOTS
        invariant hazardSet == set j | 0 <= j < i && inUse[j] && hzPtrs[j] != 0 :: hzPtrs[j]
      {
        if inUse[i] && hzPtrs[i] != 0 {
          hazardSet := hazardSet + {hzPtrs[i]};
        }
      }
      var remaining: seq<Node> := [];
      freed := [];
      for k := 0 to |list|
        invariant list == old(list) && hazardSet == Hazards()
        invariant remaining == Select(list[..k], hazardSet, true) && freed == Select(list[..k], hazardSet, false)
      {
        assert list[..k + 1][..k] == list[..k];
        if list[k].ptr in hazardSet {
          remaining := remaining + [list[k]];
        } else {
          freed := freed + [list[k]];
        }
      }
      assert list[..|list|] == list;
      list, count := remaining, |remaining|;
    }

    /** Appends the node under the next number; the sixty-fourth pending node triggers a scan. */
    method Retire(ptr: Ptr, size: nat) returns (freed: seq<Node>)
      requires Valid()
      modifies this`globalSeq, this`list, this`count
      ensures Valid() && globalSeq == old(globalSeq) + 1
      ensures var listed := old(list) + [Node(ptr, globalSeq, size)];
        if |listed| < 64 then list == listed && freed == []
        else list == Select(listed, Hazards(), true) && freed == Select(listed, Hazards(), false)
    {
      globalSeq := globalSeq + 1;
      list := list + [Node(ptr, globalSeq, size)];
      count := count + 1;
      freed := [];
      if count >= RETIRE_BATCH {
        freed := Scan();
      }
    }
  }

  class HazardGuard {
    const slot: nat
    const hp: HazardDomain
    var prev: Ptr

    constructor (slot: nat, hp: HazardDomain)
      ensures this.slot == slot && this.hp == hp && prev == 0
    {
      this.slot := slot;
      this.hp := hp;
      prev := 0;
    }

    ghost predicate Held()
      reads this, hp, hp.inUse
    {
      hp.Valid() && slot < SLOTS && hp.inUse[slot]
    }

    method Protect(ptr: Ptr)
      requires Held()
      modifies this`prev, hp.hzPtrs
      ensures Held() && prev == old(hp.hzPtrs[slot]) && hp.hzPtrs[..] == old(hp.hzPtrs[..])[slot := ptr]
      ensures ptr != 0 ==> ptr in hp.Hazards()
    {
      prev := hp.hzPtrs[slot];
      hp.hzPtrs[slot] := ptr;
    }

    method Clear()
      requires Held()
      modifies this`prev, hp.hzPtrs
      ensures Held() && prev == 0 && hp.hzPtrs[..] == old(hp.hzPtrs[..])[slot := old(prev)]
    {
      hp.hzPtrs[slot] := prev;
      prev := 0;
    }

    method Release()
      requires Held()
      modifies hp.hzPtrs, hp.inUse
      ensures hp.Valid() && hp.hzPtrs[..] == old(hp.hzPtrs[..])[slot := 0] && hp.inUse[..] == old(hp.inUse[..])[slot := false]
    {
      hp.hzPtrs[slot] := 0;
      hp.inUse[slot] := false;
    }
  }

  /** Protect then Clear puts the slot back as it was: the calls nest, one level deep. */
  method ProtectThenClear(g: HazardGuard, ptr: Ptr)
    requires g.Held()
    modifies g, g.hp.hzPtrs
    ensures g.Held() && g.hp.hzPtrs[..] == old(g.hp.hzPtrs[..]) && g.prev == 0
  {
    g.Protect(ptr);
    g.Clear();
  }

  // ---- the scan of the object is the scan of the protocol, run alone ---------------------------

  function ScanLeft(d: Domain): nat {
    match d.scan
    case NoScan => 0
    case LoadUse(i, _) => 2 * (if i < SLOTS then SLOTS - i else 0) + |d.list| + 2
    case LoadPtr(i, _) => 2 * (if i < SLOTS then SLOTS - i else 0) + |d.list| + 1
    case Sweep(k, _, _) => (if k <= |d.list| then |d.list| - k else 0) + 1
  }

  /** Scan steps until the scan is over, with nothing in between. */
  function RunScan(d: Domain): Domain
    decreases ScanLeft(d)
  {
    if Enabled(d, ScanStep) then RunScan(ScanNext(d)) else d
  }

  /** What the slots in use below `n` publish. */
  function HazardsBelow(d: Domain, n: nat): set<Ptr>
    requires Shape(d) && n <= SLOTS
  {
    set i | 0 <= i < n && d.inUse[i] && d.hzPtrs[i] != 0 :: d.hzPtrs[i]
  }

  lemma {:induction false} SlotsRead(d: Domain)
    requires Shape(d) && d.scan.LoadUse? && d.scan.i < SLOTS && d.scan.hazards == HazardsBelow(d, d.scan.i)
    ensures RunScan(d) == RunScan(d.(scan := Sweep(0, HazardsBelow(d, SLOTS), [])))
    decreases SLOTS - d.scan.i
  {
    var i := d.scan.i;
    var next := d.(scan := NextSlot(i, HazardsBelow(d, i + 1)));
    SlotRead(d);
    assert HazardsBelow(next, SLOTS) == HazardsBelow(d, SLOTS);
    if i + 1 < SLOTS {
      assert HazardsBelow(next, i + 1) == HazardsBelow(d, i + 1);
      SlotsRead(next);
      assert next.(scan := Sweep(0, HazardsBelow(d, SLOTS), [])) == d.(scan := Sweep(0, HazardsBelow(d, SLOTS), []));
    }
  }

  lemma SlotRead(d: Domain)
    requires Shape(d) && d.scan.LoadUse? && d.scan.i < SLOTS && d.scan.hazards == HazardsBelow(d, d.scan.i)
    ensures RunScan(d) == RunScan(d.(scan := NextSlot(d.scan.i, HazardsBelow(d, d.scan.i + 1))))
  {
    var i := d.scan.i;
    if d.inUse[i] {
      var t := ScanNext(d);
      assert t == d.(scan := LoadPtr(i, HazardsBelow(d, i)));
      assert HazardsBelow(d, i + 1) == if d.hzPtrs[i] != 0 then HazardsBelow(d, i) + {d.hzPtrs[i]} else HazardsBelow(d, i);
      assert ScanNext(t) == d.(scan := NextSlot(i, HazardsBelow(d, i + 1)));
    } else {
      assert HazardsBelow(d, i + 1) == HazardsBelow(d, i);
    }
  }

  lemma {:induction false} Swept(d: Domain, hs: set<Ptr>, before: seq<Node>)
    requires Shape(d) && d.scan.Sweep? && d.scan.k <= |d.list| && d.scan.hazards == hs
    requires d.scan.kept == Select(d.list[..d.scan.k], hs, true)
    requires d.reclaimed == before + Select(d.list[..d.scan.k], hs, false)
    ensures RunScan(d) == d.(scan := NoScan, list := Select(d.list, hs, true), count := |Select(d.list, hs, true)|,
                             reclaimed := before + Select(d.list, hs, false))
    decreases |d.list| - d.scan.k
  {
    var k := d.scan.k;
    var t := ScanNext(d);
    if k == |d.list| {
      assert d.list[..k] == d.list;
    } else {
      assert d.list[..k + 1][..k] == d.list[..k];
      Swept(t, hs, before);
    }
  }

  /** Run without interruption, the protocol's scan does to a domain what the method does to the object. */
  lemma ScanAlone(d: Domain)
    requires Shape(d) && d.scan == NoScan
    ensures var hs := HazardsBelow(d, SLOTS);
            RunScan(Apply(d, ScanBegin)) ==
            d.(list := Select(d.list, hs, true), count := |Select(d.list, hs, true)|,
               reclaimed := d.reclaimed + Select(d.list, hs, false))
  {
    var hs := HazardsBelow(d, SLOTS);
    var begun := Apply(d, ScanBegin);
    assert HazardsBelow(begun, 0) == {} && HazardsBelow(begun, SLOTS) == hs;
    SlotsRead(begun);
    var sweep := begun.(scan := Sweep(0, hs, []));
    assert d.list[..0] == [] && d.reclaimed + [] == d.reclaimed;
    Swept(sweep, hs, d.reclaimed);
  }
}
