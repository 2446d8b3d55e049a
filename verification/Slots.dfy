/**
 The cell index of a ticket. The ring computes it with a mask; the rest of the model
 only needs it modulo the capacity. `Slot` is a recursive remainder, so that proofs about
 the queue never meet `%` with a variable divisor.
 */
module Slots {
  import opened Basics

  function Slot(ticket: nat, cap: nat): (i: nat)
    requires cap > 0
    ensures i < cap
  {
    if ticket < cap then ticket else Slot(ticket - cap, cap)
  }

  /** Tickets less than one lap apart never share a cell. */
  lemma {:induction false} SlotNext(a: nat, b: nat, cap: nat)
    requires 0 < cap && a < b < a + cap
    ensures Slot(a, cap) != Slot(b, cap)
    decreases a + b
  {
    if a >= cap {
      SlotNext(a - cap, b - cap, cap);
    } else if b >= cap {
      assert Slot(b, cap) == b - cap;
    }
  }

  /** A full lap comes back to the same cell. */
  lemma LapSlot(a: nat, cap: nat)
    requires cap > 0
    ensures Slot(a + cap, cap) == Slot(a, cap)
  {
  }

  lemma {:induction false} SlotIsMod(ticket: nat, cap: nat)
    requires cap > 0
    ensures Slot(ticket, cap) == ticket % cap
  {
    if ticket >= cap {
      SlotIsMod(ticket - cap, cap);
      ModLap(ticket - cap, cap);
    } else {
      ModSmall(ticket, cap);
    }
  }

  lemma ModSmall(x: nat, cap: nat)
    requires x < cap
    ensures x % cap == x
  {
  }

  lemma ModLap(x: nat, cap: nat)
    requires cap > 0
    ensures (x + cap) % cap == x % cap
  {
    var q := (x + cap) / cap;
    var r := (x + cap) % cap;
    assert x == (q - 1) * cap + r;
    DivUnique(x, cap, q - 1, r);
  }

  lemma DivUnique(x: int, cap: nat, q: int, r: int)
    requires 0 <= r < cap && x == q * cap + r
    ensures x % cap == r && x / cap == q
  {
    var k := x / cap - q;
    assert k * cap == r - x % cap by {
      assert x == (x / cap) * cap + x % cap;
    }
    if k != 0 {
      MulAtLeast(if k > 0 then k else -k, cap);
    }
  }

  lemma MulAtLeast(k: nat, cap: nat)
    requires k >= 1
    ensures k * cap >= cap
  {
  }

  // ---- the mask ------------------------------------------------------------------------

  function Pow2(k: nat): (p: nat)
    ensures p >= 1
  {
    if k == 0 then 1 else 2 * Pow2(k - 1)
  }

  /** Bitwise conjunction of two machine words, bit by bit. */
  function BitAnd(x: nat, y: nat): nat
  {
    if x == 0 || y == 0 then 0 else (x % 2) * (y % 2) + 2 * BitAnd(x / 2, y / 2)
  }

  lemma ModDouble(x: nat, half: nat)
    requires half > 0
    ensures x % (2 * half) == 2 * ((x / 2) % half) + x % 2
  {
    var q, r := (x / 2) / half, (x / 2) % half;
    assert x / 2 == q * half + r;
    assert q * (2 * half) == 2 * (q * half);
    DivUnique(x, 2 * half, q, 2 * r + x % 2);
  }

  /** `pos & mask` of a power-of-two ring is the ticket's slot. */
  lemma {:induction false} MaskIsSlot(pos: nat, k: nat)
    ensures BitAnd(pos, Pow2(k) - 1) == Slot(pos, Pow2(k)) == pos % Pow2(k)
  {
    SlotIsMod(pos, Pow2(k));
    MaskIsMod(pos, k);
  }

  lemma {:induction false} MaskIsMod(pos: nat, k: nat)
    ensures BitAnd(pos, Pow2(k) - 1) == pos % Pow2(k)
    decreases k
  {
    if k == 0 {
    } else if pos == 0 {
      ModSmall(0, Pow2(k));
    } else {
      var half := Pow2(k - 1);
      assert (Pow2(k) - 1) / 2 == half - 1 && (Pow2(k) - 1) % 2 == 1;
      MaskIsMod(pos / 2, k - 1);
      ModDouble(pos, half);
    }
  }

  // ---- the capacity ----------------------------------------------------------------------

  /** Bitwise disjunction of two machine words, bit by bit. */
  function BitOr(x: nat, y: nat): nat
  {
    if x == 0 then y else if y == 0 then x
    else (if x % 2 == 1 || y % 2 == 1 then 1 else 0) + 2 * BitOr(x / 2, y / 2)
  }

  function ShiftRight(x: nat, k: nat): nat
  {
    if k == 0 then x else ShiftRight(x / 2, k - 1)
  }

  function Monus(a: nat, b: nat): nat { if a >= b then a - b else 0 }

  /** All of the `n` bits of `x` are ones, except perhaps the lowest `low`. */
  predicate OnesAbove(x: nat, n: nat, low: nat) {
    Pow2(n) - Pow2(low) <= x < Pow2(n)
  }

  lemma {:induction false} ShiftOnes(x: nat, n: nat, low: nat, k: nat)
    requires k <= n && OnesAbove(x, n, low)
    ensures OnesAbove(ShiftRight(x, k), n - k, Monus(low, k))
    decreases k
  {
    if k > 0 {
      ShiftOnes(x / 2, n - 1, Monus(low, 1), k - 1);
    }
  }

  lemma {:induction false} OrOnes(x: nat, z: nat, n: nat, j: nat, low: nat)
    requires low <= j <= n && OnesAbove(x, n, j) && OnesAbove(z, j, low)
    ensures OnesAbove(BitOr(x, z), n, low)
    decreases n
  {
    PowGrows(j, n);
    if n > 0 && j > 0 && x > 0 && z > 0 {
      OrOnes(x / 2, z / 2, n - 1, j - 1, Monus(low, 1));
    }
  }

  /** One line of the smear doubles the run of ones at the top. */
  lemma SmearStep(x: nat, n: nat, m: nat)
    requires OnesAbove(x, n, Monus(n, m))
    ensures OnesAbove(BitOr(x, ShiftRight(x, m)), n, Monus(n, 2 * m))
  {
    if m >= n {
      ShiftOut(x, n, m);
    } else {
      ShiftOnes(x, n, n - m, m);
      OrOnes(x, ShiftRight(x, m), n, n - m, Monus(n, 2 * m));
    }
  }

  lemma {:induction false} ShiftOut(x: nat, n: nat, m: nat)
    requires x < Pow2(n) && n <= m
    ensures ShiftRight(x, m) == 0
    decreases m
  {
    if m > 0 {
      ShiftOut(x / 2, Monus(n, 1), m - 1);
    }
  }

  lemma {:induction false} PowGrows(a: nat, b: nat)
    requires a <= b
    ensures Pow2(a) <= Pow2(b)
  {
    if a < b {
      PowGrows(a, b - 1);
    }
  }

  /** The number of bits of `x`. */
  function BitLen(x: nat): (n: nat)
    ensures x < Pow2(n) && (x > 0 ==> n > 0 && Pow2(n - 1) <= x)
  {
    if x == 0 then 0 else 1 + BitLen(x / 2)
  }

  ghost predicate IsPow2(r: nat) { exists k :: r == Pow2(k) }

  lemma {:induction false} PowMul(a: nat, b: nat, pa: nat)
    requires pa == Pow2(a)
    ensures Pow2(a + b) == pa * Pow2(b)
  {
    if b > 0 {
      PowMul(a, b - 1, pa);
      assert pa * Pow2(b) == 2 * (pa * Pow2(b - 1));
    }
  }

  /** One line of the smear, `w |= w >> m`. */
  method SmearBy(w: nat, m: nat, ghost n: nat) returns (y: nat)
    requires OnesAbove(w, n, Monus(n, m))
    ensures OnesAbove(y, n, Monus(n, 2 * m))
  {
    y := BitOr(w, ShiftRight(w, m));
    SmearStep(w, n, m);
  }

  /** `roundUpPow2` on 64-bit words: for 1 <= v <= 2^63 the least power of two not below v.
      Zero, and the words above 2^63 that a negative capacity converts to, wrap to zero. */
  method RoundUpPow2(v: nat) returns (r: nat)
    requires v < WORD64
    ensures 1 <= v <= WORD64 / 2 ==> IsPow2(r) && v <= r < 2 * v
    ensures v == 0 || v > WORD64 / 2 ==> r == 0
  {
    var w := if v == 0 then WORD64 - 1 else v - 1;
    ghost var n := BitLen(w);
    WordBits(w, n);
    w := SmearBy(w, 1, n);
    w := SmearBy(w, 2, n);
    w := SmearBy(w, 4, n);
    w := SmearBy(w, 8, n);
    w := SmearBy(w, 16, n);
    w := SmearBy(w, 32, n);
    SmearDone(v, w, n);
    r := (w + 1) % WORD64;
  }

  lemma SmearDone(v: nat, w: nat, n: nat)
    requires v < WORD64 && n == BitLen(if v == 0 then WORD64 - 1 else v - 1)
    requires OnesAbove(w, n, Monus(n, 64))
    ensures var r := (w + 1) % WORD64;
            if 1 <= v <= WORD64 / 2 then r == Pow2(n) && v <= r < 2 * v else r == 0
  {
    WordBits(if v == 0 then WORD64 - 1 else v - 1, n);
    assert w + 1 == Pow2(n);
  }

  lemma WordIsPow()
    ensures Pow2(63) == WORD64 / 2 && Pow2(64) == WORD64
  {
    assert Pow2(4) == 16;
    PowMul(4, 4, 16);
    PowMul(8, 8, 256);
    PowMul(16, 16, 0x1_0000);
    PowMul(32, 32, 0x1_0000_0000);
  }

  lemma WordBits(w: nat, n: nat)
    requires w < WORD64 && n == BitLen(w)
    ensures n <= 64 && (n == 64 <==> w >= WORD64 / 2)
    ensures n == 64 ==> Pow2(n) == WORD64
    ensures n < 64 ==> Pow2(n) <= WORD64 / 2
    ensures OnesAbove(w, n, Monus(n, 1))
  {
    WordIsPow();
    if n > 64 { PowGrows(64, n - 1); }
    if n < 64 { PowGrows(n, 63); }
  }
}
