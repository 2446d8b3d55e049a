/** The 16-bit check of the fuse bus as algebra over GF(2). */
module CrcFuse {
  type byte = bv8

  function Xor(a: bv16, b: bv16): bv16 { a ^ b }

  function Wide(b: byte): bv16 { b as bv16 }

  const POLY: bv16 := 0xA001

  /** Division by X modulo X^16 + X^15 + X^2 + 1, lowest power in the highest bit: the bit that falls out
      comes back at the taps. */
  function Step(c: bv16): bv16 { (c >> 1) ^ ((c & 1) << 15) ^ ((c & 1) << 13) ^ (c & 1) }

  lemma StepOdd(c: bv16)
    requires c & 1 != 0
    ensures Step(c) == (c >> 1) ^ 0xA001
  {
  }

  lemma StepEven(c: bv16)
    requires c & 1 == 0
    ensures Step(c) == c >> 1
  {
  }

  function Steps(c: bv16, n: nat): bv16 { if n == 0 then c else Step(Steps(c, n - 1)) }

  const BITS: nat := 8

  /** One byte into the register. */
  function Feed(c: bv16, b: byte): bv16 { Steps(Xor(c, Wide(b)), BITS) }

  /** A message into the register. */
  function Crc(c: bv16, data: seq<byte>): bv16 {
    if data == [] then c else Feed(Crc(c, data[..|data| - 1]), data[|data| - 1])
  }

  const START: bv16 := 0xFFFF

  function Checksum(data: seq<byte>): bv16 { Crc(START, data) }

  /** The nested loop of `CRC16Fuse`. */
  method CRC16Fuse(data: seq<byte>) returns (crc: bv16)
    ensures crc == Checksum(data)
  {
    crc := START;
    for n := 0 to |data|
      invariant crc == Crc(START, data[..n])
    {
      assert data[..n + 1][..n] == data[..n];
      var b := data[n];
      crc := crc ^ (b as bv16);
      ghost var fed := crc;
      for i := 0 to 8
        invariant crc == Steps(fed, i)
      {
        if crc & 0x0001 != 0 {
          StepOdd(crc);
          crc := (crc >> 1) ^ POLY;
        } else {
          StepEven(crc);
          crc := crc >> 1;
        }
      }
    }
    assert data[..|data|] == data;
  }

  // ---- linearity ------------------------------------------------------------------------------

  lemma StepLinear(a: bv16, b: bv16, c: bv16)
    requires c == Xor(a, b)
    ensures Step(c) == Xor(Step(a), Step(b))
  {
  }

  lemma {:induction false} StepsLinear(a: bv16, b: bv16, c: bv16, n: nat)
    requires c == Xor(a, b)
    ensures Steps(c, n) == Xor(Steps(a, n), Steps(b, n))
  {
    if n > 0 {
      StepsLinear(a, b, c, n - 1);
      StepLinear(Steps(a, n - 1), Steps(b, n - 1), Steps(c, n - 1));
    }
  }

  lemma Regroup(a: bv16, b: bv16, x: byte, y: byte)
    ensures Xor(Xor(a, b), Wide(x ^ y)) == Xor(Xor(a, Wide(x)), Xor(b, Wide(y)))
  {
  }

  lemma FeedLinear(a: bv16, b: bv16, c: bv16, x: byte, y: byte, z: byte)
    requires c == Xor(a, b) && z == x ^ y
    ensures Feed(c, z) == Xor(Feed(a, x), Feed(b, y))
  {
    Regroup(a, b, x, y);
    StepsLinear(Xor(a, Wide(x)), Xor(b, Wide(y)), Xor(c, Wide(z)), BITS);
  }

  /** Bytewise difference of two messages of one length. */
  function Diff(x: seq<byte>, y: seq<byte>): (d: seq<byte>)
    requires |x| == |y|
    ensures |d| == |x| && forall i :: 0 <= i < |x| ==> d[i] == x[i] ^ y[i]
  {
    seq(|x|, i requires 0 <= i < |x| => x[i] ^ y[i])
  }

  lemma {:induction false} CrcLinear(a: bv16, b: bv16, c: bv16, x: seq<byte>, y: seq<byte>)
    requires |x| == |y| && c == Xor(a, b)
    ensures Crc(c, Diff(x, y)) == Xor(Crc(a, x), Crc(b, y))
  {
    if x == [] {
      assert Diff(x, y) == [];
    } else {
      var n := |x| - 1;
      CrcLinear(a, b, c, x[..n], y[..n]);
      assert Diff(x, y)[..n] == Diff(x[..n], y[..n]);
      FeedLinear(Crc(a, x[..n]), Crc(b, y[..n]), Crc(c, Diff(x, y)[..n]), x[n], y[n], Diff(x, y)[n]);
    }
  }

  lemma XorTwice(a: bv16, b: bv16)
    ensures Xor(Xor(a, b), b) == a
  {
  }

  lemma XorSelf(a: bv16)
    ensures Xor(a, a) == 0 && Xor(0, a) == a
  {
  }

  lemma XorZero(a: bv16, b: bv16)
    ensures Xor(a, b) == 0 <==> a == b
  {
    XorTwice(a, b);
    XorSelf(b);
  }

  /** Affine: the checksums of two messages differ by a value that depends on their difference alone. */
  lemma Affine(x: seq<byte>, y: seq<byte>)
    requires |x| == |y|
    ensures Xor(Checksum(x), Checksum(y)) == Crc(0, Diff(x, y))
  {
    XorZero(START, START);
    CrcLinear(START, START, 0, x, y);
  }

  /** A change goes unnoticed exactly when its own checksum, from an empty register, is zero. */
  lemma UndetectedIff(x: seq<byte>, y: seq<byte>)
    requires |x| == |y|
    ensures Checksum(x) == Checksum(y) <==> Crc(0, Diff(x, y)) == 0
  {
    Affine(x, y);
    XorZero(Checksum(x), Checksum(y));
  }

  // ---- the step is a bijection ----------------------------------------------------------------

  function Unstep(d: bv16): bv16 {
    var out := d >> 15;
    ((d ^ (out << 15) ^ (out << 13) ^ out) << 1) | out
  }

  lemma StepInverse(c: bv16)
    ensures Unstep(Step(c)) == c
  {
  }

  lemma UnstepInverse(d: bv16)
    ensures Step(Unstep(d)) == d
  {
  }

  function Unsteps(d: bv16, n: nat): bv16
    decreases n
  {
    if n == 0 then d else Unsteps(Unstep(d), n - 1)
  }

  lemma {:induction false} StepsInverse(c: bv16, n: nat)
    ensures Unsteps(Steps(c, n), n) == c
  {
    if n > 0 {
      StepInverse(Steps(c, n - 1));
      StepsInverse(c, n - 1);
    }
  }

  lemma {:induction false} UnstepsInverse(d: bv16, n: nat)
    ensures Steps(Unsteps(d, n), n) == d
    decreases n
  {
    if n > 0 {
      UnstepsInverse(Unstep(d), n - 1);
      UnstepInverse(d);
    }
  }

  /** For any byte, feeding it is a bijection of the register: one-to-one, and onto. */
  lemma FeedBijective(b: byte, c: bv16, d: bv16)
    ensures Feed(c, b) == Feed(d, b) <==> c == d
    ensures Feed(Xor(Unsteps(d, BITS), Wide(b)), b) == d
  {
    StepsInverse(Xor(c, Wide(b)), BITS);
    StepsInverse(Xor(d, Wide(b)), BITS);
    XorTwice(c, Wide(b));
    XorTwice(d, Wide(b));
    XorTwice(Unsteps(d, BITS), Wide(b));
    UnstepsInverse(d, BITS);
  }

  // ---- what the checksum detects --------------------------------------------------------------

  lemma {:induction false} CrcAppend(c: bv16, x: seq<byte>, y: seq<byte>)
    ensures Crc(c, x + y) == Crc(Crc(c, x), y)
  {
    if y == [] {
      assert x + y == x;
    } else {
      CrcAppend(c, x, y[..|y| - 1]);
      assert (x + y)[..|x + y| - 1] == x + y[..|y| - 1];
    }
  }

  // ---- known checks ---------------------------------------------------------------------------

  lemma CheckNext(data: seq<byte>, b: byte, c: bv16, c': bv16)
    requires Checksum(data) == c && Feed(c, b) == c'
    ensures Checksum(data + [b]) == c'
  {
    assert (data + [b])[..|data + [b]| - 1] == data;
  }

  /** The register starts full: nothing checks to 0xFFFF, one zero byte to 0x40BF, and the nine digits to the check value
      0x4B37 by which this check is known. */
  lemma KnownChecks()
    ensures Checksum([]) == 0xFFFF && Checksum([0x00]) == 0x40BF
    ensures Checksum([0x31, 0x32, 0x33, 0x34, 0x35, 0x36, 0x37, 0x38, 0x39]) == 0x4B37
  {
    CheckNext([], 0x00, 0xFFFF, 0x40BF);
    assert [] + [0x00 as byte] == [0x00];
    CheckNext([], 0x31, 0xFFFF, 0x947E);
    assert [] + [0x31 as byte] == [0x31];
    CheckNext([0x31], 0x32, 0x947E, 0xF595);
    assert [0x31] + [0x32 as byte] == [0x31, 0x32];
    CheckNext([0x31, 0x32], 0x33, 0xF595, 0x7A75);
    assert [0x31, 0x32] + [0x33 as byte] == [0x31, 0x32, 0x33];
    CheckNext([0x31, 0x32, 0x33], 0x34, 0x7A75, 0x30BA);
    assert [0x31, 0x32, 0x33] + [0x34 as byte] == [0x31, 0x32, 0x33, 0x34];
    CheckNext([0x31, 0x32, 0x33, 0x34], 0x35, 0x30BA, 0xA471);
    assert [0x31, 0x32, 0x33, 0x34] + [0x35 as byte] == [0x31, 0x32, 0x33, 0x34, 0x35];
    CheckNext([0x31, 0x32, 0x33, 0x34, 0x35], 0x36, 0xA471, 0x32E4);
    assert [0x31, 0x32, 0x33, 0x34, 0x35] + [0x36 as byte] == [0x31, 0x32, 0x33, 0x34, 0x35, 0x36];
    CheckNext([0x31, 0x32, 0x33, 0x34, 0x35, 0x36], 0x37, 0x32E4, 0x9D73);
    assert [0x31, 0x32, 0x33, 0x34, 0x35, 0x36] + [0x37 as byte] == [0x31, 0x32, 0x33, 0x34, 0x35, 0x36, 0x37];
    CheckNext([0x31, 0x32, 0x33, 0x34, 0x35, 0x36, 0x37], 0x38, 0x9D73, 0x37DD);
    assert [0x31, 0x32, 0x33, 0x34, 0x35, 0x36, 0x37] + [0x38 as byte] == [0x31, 0x32, 0x33, 0x34, 0x35, 0x36, 0x37, 0x38];
    CheckNext([0x31, 0x32, 0x33, 0x34, 0x35, 0x36, 0x37, 0x38], 0x39, 0x37DD, 0x4B37);
    assert [0x31, 0x32, 0x33, 0x34, 0x35, 0x36, 0x37, 0x38] + [0x39 as byte] == [0x31, 0x32, 0x33, 0x34, 0x35, 0x36, 0x37, 0x38, 0x39];
  }

  /** No message brings two registers together. */
  lemma {:induction false} CrcOneToOne(c: bv16, d: bv16, data: seq<byte>)
    ensures Crc(c, data) == Crc(d, data) <==> c == d
  {
    if data != [] {
      var n := |data| - 1;
      CrcOneToOne(c, d, data[..n]);
      FeedBijective(data[n], Crc(c, data[..n]), Crc(d, data[..n]));
    }
  }

  /** So a zero byte in front never goes unnoticed. */
  lemma LeadingZeroDetected(data: seq<byte>)
    ensures Checksum([0x00] + data) != Checksum(data)
  {
    KnownChecks();
    CrcAppend(START, [0x00], data);
    CrcOneToOne(Checksum([0x00]), START, data);
  }

  lemma {:induction false} StepsZero(n: nat)
    ensures Steps(0, n) == 0
  {
    if n > 0 { StepsZero(n - 1); }
  }

  lemma FeedZero()
    ensures Feed(0, 0) == 0
  {
    StepsZero(BITS);
    XorZero(0, Wide(0));
  }

  predicate AllZero(d: seq<byte>) { forall i :: 0 <= i < |d| ==> d[i] == 0 }

  /** Unchanged bytes keep a register difference alive, and keep no difference none. */
  lemma {:induction false} UnchangedKeep(c: bv16, zeros: seq<byte>)
    requires AllZero(zeros)
    ensures Crc(c, zeros) == 0 <==> c == 0
  {
    if zeros != [] {
      var n := |zeros| - 1;
      UnchangedKeep(c, zeros[..n]);
      FeedZero();
      FeedBijective(0, Crc(c, zeros[..n]), 0);
    }
  }

  /** Eight steps back from a byte: the byte, in the upper half. */
  lemma UnstepsByte(b: byte)
    ensures Unsteps(Wide(b), BITS) == Wide(b) << 8
  {
  }

  function Low(c: bv16): byte { (c & 0xFF) as byte }

  function High(c: bv16): byte { (c >> 8) as byte }

  lemma Halves(c: bv16, lo: byte, hi: byte)
    ensures Xor(c, Wide(lo)) == Wide(hi) << 8 <==> lo == Low(c) && hi == High(c)
  {
  }

  lemma FeedUnique(c: bv16, b: byte, d: bv16)
    ensures Feed(c, b) == d <==> Xor(c, Wide(b)) == Unsteps(d, BITS)
  {
    StepsInverse(Xor(c, Wide(b)), BITS);
    UnstepsInverse(d, BITS);
  }

  lemma CrcOfTwo(c: bv16, lo: byte, hi: byte)
    ensures Crc(c, [lo, hi]) == Feed(Feed(c, lo), hi)
  {
    assert [lo, hi][..1] == [lo] && [lo][..0] == [];
    assert Crc(c, [lo]) == Feed(Crc(c, []), lo);
  }

  /** Two bytes clear the register exactly when they are its own, low byte first. */
  lemma ClearsIff(c: bv16, lo: byte, hi: byte)
    ensures Crc(c, [lo, hi]) == 0 <==> lo == Low(c) && hi == High(c)
  {
    CrcOfTwo(c, lo, hi);
    var mid := Feed(c, lo);
    StepsZero(BITS);
    FeedUnique(mid, hi, 0);
    StepsInverse(0, BITS);
    XorZero(mid, Wide(hi));
    FeedUnique(c, lo, Wide(hi));
    UnstepsByte(hi);
    Halves(c, lo, hi);
  }

  /** A message followed by two bytes checks to zero if and only if they are its checksum, low byte first. */
  lemma ResidueIff(data: seq<byte>, lo: byte, hi: byte)
    ensures Checksum(data + [lo, hi]) == 0 <==> lo == Low(Checksum(data)) && hi == High(Checksum(data))
  {
    CrcAppend(START, data, [lo, hi]);
    ClearsIff(Checksum(data), lo, hi);
  }

  lemma SameByte(b: byte)
    ensures b ^ b == 0
  {
  }

  lemma DifferentByte(p: byte, q: byte)
    ensures p ^ q == 0 <==> p == q
  {
  }

  lemma SameDiff(x: seq<byte>)
    ensures AllZero(Diff(x, x))
  {
    forall i | 0 <= i < |x| ensures Diff(x, x)[i] == 0 { SameByte(x[i]); }
  }

  lemma DiffAppend(x: seq<byte>, y: seq<byte>, u: seq<byte>, v: seq<byte>)
    requires |x| == |y| && |u| == |v|
    ensures Diff(x + u, y + v) == Diff(x, y) + Diff(u, v)
  {
  }

  /** A difference between unchanged stretches clears the register exactly when it does so by itself. */
  lemma Isolated(zeros: seq<byte>, mid: seq<byte>, tail: seq<byte>)
    requires AllZero(zeros) && AllZero(tail)
    ensures Crc(0, zeros + mid + tail) == 0 <==> Crc(0, mid) == 0
  {
    CrcAppend(0, zeros + mid, tail);
    CrcAppend(0, zeros, mid);
    UnchangedKeep(0, zeros);
    UnchangedKeep(Crc(0, mid), tail);
  }

  lemma HalvesOfZero()
    ensures Low(0) == 0 && High(0) == 0
  {
  }

  lemma WideZero(p: byte)
    ensures Xor(0, Wide(p)) == 0 <==> p == 0
  {
  }

  /** One or two bytes that are not all zero leave an empty register nonzero. */
  lemma ShortLeaves(d: seq<byte>)
    requires |d| <= 2 && !AllZero(d)
    ensures Crc(0, d) != 0
  {
    if |d| == 1 {
      var p := d[0];
      assert d == [p] && [p][..0] == [];
      assert Crc(0, d) == Feed(Crc(0, []), p);
      FeedUnique(0, p, 0);
      StepsZero(BITS);
      StepsInverse(0, BITS);
      WideZero(p);
    } else {
      assert d == [d[0], d[1]];
      ClearsIff(0, d[0], d[1]);
      HalvesOfZero();
    }
  }

  lemma Differs(x: seq<byte>, y: seq<byte>)
    requires |x| == |y| && x != y
    ensures !AllZero(Diff(x, y))
  {
    var i :| 0 <= i < |x| && x[i] != y[i];
    DifferentByte(x[i], y[i]);
    assert Diff(x, y)[i] != 0;
  }

  /** Every change confined to one byte, or to two adjacent ones, alters the checksum, whatever the length
      of the message. */
  lemma AdjacentDetected(before: seq<byte>, mid: seq<byte>, mid': seq<byte>, after: seq<byte>)
    requires |mid| == |mid'| <= 2 && mid != mid'
    ensures Checksum(before + mid + after) != Checksum(before + mid' + after)
  {
    DiffAppend(before + mid, before + mid', after, after);
    DiffAppend(before, before, mid, mid');
    SameDiff(before);
    SameDiff(after);
    Isolated(Diff(before, before), Diff(mid, mid'), Diff(after, after));
    Differs(mid, mid');
    ShortLeaves(Diff(mid, mid'));
    UndetectedIff(before + mid + after, before + mid' + after);
  }

  // ---- bursts ---------------------------------------------------------------------------------

  /** Bit `j` of a byte, in the order the register takes them: lowest first. */
  predicate BitOf(b: byte, j: nat)
    requires j < 8
  {
    match j
    case 0 => b & 0x01 != 0
    case 1 => b & 0x02 != 0
    case 2 => b & 0x04 != 0
    case 3 => b & 0x08 != 0
    case 4 => b & 0x10 != 0
    case 5 => b & 0x20 != 0
    case 6 => b & 0x40 != 0
    case 7 => b & 0x80 != 0
  }

  /** Bit `i` of a message. */
  predicate MessageBit(d: seq<byte>, i: nat)
    requires i < 8 * |d|
  {
    BitOf(d[i / 8], i % 8)
  }

  /** Every changed bit lies among the 16 from bit `start` on. */
  ghost predicate Confined(d: seq<byte>, start: nat) {
    forall i: nat {:trigger MessageBit(d, i)} :: i < 8 * |d| && MessageBit(d, i) ==> start <= i < start + 16
  }

  /** The lowest `p` bits. */
  function Mask(p: nat): byte
    requires p < 8
  {
    match p
    case 0 => 0x00
    case 1 => 0x01
    case 2 => 0x03
    case 3 => 0x07
    case 4 => 0x0F
    case 5 => 0x1F
    case 6 => 0x3F
    case 7 => 0x7F
  }

  lemma ByteClear(b: byte)
    requires forall j: nat {:trigger BitOf(b, j)} :: j < 8 ==> !BitOf(b, j)
    ensures b == 0
  {
    assert !BitOf(b, 0) && !BitOf(b, 1) && !BitOf(b, 2) && !BitOf(b, 3);
    assert !BitOf(b, 4) && !BitOf(b, 5) && !BitOf(b, 6) && !BitOf(b, 7);
    EightBits(b);
  }

  lemma EightBits(b: byte)
    requires b & 0x01 == 0 && b & 0x02 == 0 && b & 0x04 == 0 && b & 0x08 == 0
    requires b & 0x10 == 0 && b & 0x20 == 0 && b & 0x40 == 0 && b & 0x80 == 0
    ensures b == 0
  {
  }

  lemma LowClear(b: byte, p: nat)
    requires p < 8 && forall j: nat {:trigger BitOf(b, j)} :: j < p ==> !BitOf(b, j)
    ensures b & Mask(p) == 0
  {
    assert p > 0 ==> !BitOf(b, 0);
    assert p > 1 ==> !BitOf(b, 1);
    assert p > 2 ==> !BitOf(b, 2);
    assert p > 3 ==> !BitOf(b, 3);
    assert p > 4 ==> !BitOf(b, 4);
    assert p > 5 ==> !BitOf(b, 5);
    assert p > 6 ==> !BitOf(b, 6);
  }

  lemma HighClear(b: byte, p: nat)
    requires p < 8 && forall j: nat {:trigger BitOf(b, j)} :: p <= j < 8 ==> !BitOf(b, j)
    ensures b & !Mask(p) == 0
  {
    assert p <= 0 ==> !BitOf(b, 0);
    assert p <= 1 ==> !BitOf(b, 1);
    assert p <= 2 ==> !BitOf(b, 2);
    assert p <= 3 ==> !BitOf(b, 3);
    assert p <= 4 ==> !BitOf(b, 4);
    assert p <= 5 ==> !BitOf(b, 5);
    assert p <= 6 ==> !BitOf(b, 6);
    assert !BitOf(b, 7);
  }

  /** Eight steps from a byte whose lowest bits, those under the mask, are clear: if the upper half of the register
      is then clear above the mask, the byte was zero. */
  lemma NarrowByte(b: byte, m: byte, c1: bv16, c2: bv16, c3: bv16, c4: bv16, c5: bv16, c6: bv16, c7: bv16, c8: bv16)
    requires c1 == Step(Wide(b)) && c2 == Step(c1) && c3 == Step(c2) && c4 == Step(c3)
    requires c5 == Step(c4) && c6 == Step(c5) && c7 == Step(c6) && c8 == Step(c7)
    requires m & (m + 1) == 0 && b & m == 0 && High(c8) & !m == 0
    ensures b == 0
  {
  }

  lemma EightSteps(c: bv16, c1: bv16, c2: bv16, c3: bv16, c4: bv16, c5: bv16, c6: bv16, c7: bv16, c8: bv16)
    requires c1 == Step(c) && c2 == Step(c1) && c3 == Step(c2) && c4 == Step(c3)
    requires c5 == Step(c4) && c6 == Step(c5) && c7 == Step(c6) && c8 == Step(c7)
    ensures Steps(c, BITS) == c8
  {
    assert Steps(c, 0) == c && Steps(c, 1) == c1 && Steps(c, 2) == c2 && Steps(c, 3) == c3 && Steps(c, 4) == c4;
    assert Steps(c, 5) == c5 && Steps(c, 6) == c6 && Steps(c, 7) == c7;
  }

  lemma FedNarrow(b: byte, m: byte)
    requires m & (m + 1) == 0 && b & m == 0 && High(Steps(Wide(b), BITS)) & !m == 0
    ensures b == 0
  {
    var c1 := Step(Wide(b));
    var c2 := Step(c1);
    var c3 := Step(c2);
    var c4 := Step(c3);
    var c5 := Step(c4);
    var c6 := Step(c5);
    var c7 := Step(c6);
    var c8 := Step(c7);
    EightSteps(Wide(b), c1, c2, c3, c4, c5, c6, c7, c8);
    NarrowByte(b, m, c1, c2, c3, c4, c5, c6, c7, c8);
  }

  lemma MaskShape(p: nat)
    requires p < 8
    ensures Mask(p) & (Mask(p) + 1) == 0
  {
  }

  lemma CrcOfOne(b: byte)
    ensures Crc(0, [b]) == Steps(Wide(b), BITS)
  {
    assert [b][..0] == [] && Crc(0, [b]) == Feed(Crc(0, []), b);
    XorSelf(Wide(b));
  }

  lemma CrcOfThree(a: byte, b: byte, c: byte)
    ensures Crc(0, [a, b, c]) == 0 <==> b == Low(Steps(Wide(a), BITS)) && c == High(Steps(Wide(a), BITS))
  {
    CrcAppend(0, [a], [b, c]);
    assert [a] + [b, c] == [a, b, c];
    CrcOfOne(a);
    ClearsIff(Crc(0, [a]), b, c);
  }

  /** Three bytes that are not all zero, but are below bit `p` of the first and from bit `p` of the last on, leave an
      empty register nonzero. */
  lemma ThreeLeave(a: byte, b: byte, c: byte, p: nat)
    requires p < 8 && a & Mask(p) == 0 && c & !Mask(p) == 0 && !(a == 0 && b == 0 && c == 0)
    ensures Crc(0, [a, b, c]) != 0
  {
    CrcOfThree(a, b, c);
    if Crc(0, [a, b, c]) == 0 {
      MaskShape(p);
      FedNarrow(a, Mask(p));
      WideOfZero();
      StepsZero(BITS);
      HalvesOfZero();
    }
  }

  lemma WideOfZero()
    ensures Wide(0) == 0
  {
  }

  lemma ByteOutside(d: seq<byte>, start: nat, k: nat)
    requires Confined(d, start) && k < |d| && (k < start / 8 || k > start / 8 + 2)
    ensures d[k] == 0
  {
    forall j: nat | j < 8 ensures !BitOf(d[k], j) {
      assert (8 * k + j) / 8 == k && (8 * k + j) % 8 == j;
      assert MessageBit(d, 8 * k + j) == BitOf(d[k], j);
    }
    ByteClear(d[k]);
  }

  lemma Edges(d: seq<byte>, start: nat)
    requires Confined(d, start) && start / 8 < |d|
    ensures d[start / 8] & Mask(start % 8) == 0
    ensures start / 8 + 2 < |d| ==> d[start / 8 + 2] & !Mask(start % 8) == 0
  {
    var k, p := start / 8, start % 8;
    forall j: nat | j < p ensures !BitOf(d[k], j) {
      assert (8 * k + j) / 8 == k && (8 * k + j) % 8 == j;
      assert MessageBit(d, 8 * k + j) == BitOf(d[k], j);
    }
    LowClear(d[k], p);
    if k + 2 < |d| {
      var b := d[k + 2];
      forall j: nat | p <= j < 8 ensures !BitOf(b, j) {
        assert (8 * (k + 2) + j) / 8 == k + 2 && (8 * (k + 2) + j) % 8 == j;
        assert MessageBit(d, 8 * (k + 2) + j) == BitOf(b, j);
      }
      HighClear(b, p);
    }
  }

  lemma ZerosAround(a: seq<byte>, b: seq<byte>, c: seq<byte>)
    requires AllZero(a) && AllZero(b) && AllZero(c)
    ensures AllZero(a + b + c)
  {
  }

  lemma NonzeroMiddle(zeros: seq<byte>, mid: seq<byte>, tail: seq<byte>)
    requires AllZero(zeros) && AllZero(tail) && !AllZero(zeros + mid + tail)
    ensures !AllZero(mid)
  {
    if AllZero(mid) { ZerosAround(zeros, mid, tail); }
  }

  lemma MiddleLeaves(mid: seq<byte>, p: nat)
    requires p < 8 && 0 < |mid| <= 3 && !AllZero(mid) && mid[0] & Mask(p) == 0
    requires |mid| == 3 ==> mid[2] & !Mask(p) == 0
    ensures Crc(0, mid) != 0
  {
    if |mid| <= 2 {
      ShortLeaves(mid);
    } else {
      assert mid == [mid[0], mid[1], mid[2]];
      ThreeLeave(mid[0], mid[1], mid[2], p);
    }
  }

  lemma BurstLeaves(d: seq<byte>, start: nat)
    requires Confined(d, start) && !AllZero(d)
    ensures Crc(0, d) != 0
  {
    var k := start / 8;
    forall i | 0 <= i < |d| && (i < k || i >= k + 3) ensures d[i] == 0 { ByteOutside(d, start, i); }
    assert k < |d|;
    var end := if k + 3 <= |d| then k + 3 else |d|;
    var zeros, mid, tail := d[..k], d[k..end], d[end..];
    assert zeros + mid + tail == d;
    NonzeroMiddle(zeros, mid, tail);
    Edges(d, start);
    MiddleLeaves(mid, start % 8);
    Isolated(zeros, mid, tail);
  }

  /** Every change confined to 16 consecutive bits, wherever they begin and whatever the length of the message,
      alters the checksum. */
  lemma BurstDetected(x: seq<byte>, y: seq<byte>, start: nat)
    requires |x| == |y| && x != y && Confined(Diff(x, y), start)
    ensures Checksum(x) != Checksum(y)
  {
    Differs(x, y);
    BurstLeaves(Diff(x, y), start);
    UndetectedIff(x, y);
  }

  /** The taps of the polynomial, moved `p` bits up. */
  function Taps(p: nat): (t: seq<byte>)
    requires p < 8
    ensures |t| == 3
  {
    match p
    case 0 => [0x03, 0x40, 0x01]
    case 1 => [0x06, 0x80, 0x02]
    case 2 => [0x0C, 0x00, 0x05]
    case 3 => [0x18, 0x00, 0x0A]
    case 4 => [0x30, 0x00, 0x14]
    case 5 => [0x60, 0x00, 0x28]
    case 6 => [0xC0, 0x00, 0x50]
    case 7 => [0x80, 0x01, 0xA0]
  }

  predicate IsTap(i: int, start: int) { i == start || i == start + 1 || i == start + 14 || i == start + 16 }

  lemma TapBits(p: nat, q: nat, j: nat)
    requires p < 8 && q < 3 && j < 8
    ensures BitOf(Taps(p)[q], j) <==> IsTap(8 * q + j, p)
  {
    match p
    case 0 =>
    case 1 =>
    case 2 =>
    case 3 =>
    case 4 =>
    case 5 =>
    case 6 =>
    case 7 =>
  }

  lemma TapsVanish(p: nat)
    requires p < 8
    ensures Crc(0, Taps(p)) == 0
  {
    var a, b, c := Taps(p)[0], Taps(p)[1], Taps(p)[2];
    var c1 := Step(Wide(a));
    var c2 := Step(c1);
    var c3 := Step(c2);
    var c4 := Step(c3);
    var c5 := Step(c4);
    var c6 := Step(c5);
    var c7 := Step(c6);
    var c8 := Step(c7);
    EightSteps(Wide(a), c1, c2, c3, c4, c5, c6, c7, c8);
    CrcOfThree(a, b, c);
    assert Taps(p) == [a, b, c];
  }

  lemma SameBits(a: byte, b: byte)
    requires forall j: nat {:trigger BitOf(a, j)} {:trigger BitOf(b, j)} :: j < 8 ==> (BitOf(a, j) <==> BitOf(b, j))
    ensures a == b
  {
    assert BitOf(a, 0) == BitOf(b, 0) && BitOf(a, 1) == BitOf(b, 1) && BitOf(a, 2) == BitOf(b, 2) && BitOf(a, 3) == BitOf(b, 3);
    assert BitOf(a, 4) == BitOf(b, 4) && BitOf(a, 5) == BitOf(b, 5) && BitOf(a, 6) == BitOf(b, 6) && BitOf(a, 7) == BitOf(b, 7);
  }

  /** The changed bits are the taps of the polynomial from bit `start` on. */
  ghost predicate Tapped(d: seq<byte>, start: nat) {
    && start + 16 < 8 * |d|
    && forall i: nat {:trigger MessageBit(d, i)} :: i < 8 * |d| ==> (MessageBit(d, i) <==> IsTap(i, start))
  }

  lemma TappedByte(d: seq<byte>, start: nat, k: nat)
    requires Tapped(d, start) && k < |d|
    ensures d[k] == if start / 8 <= k < start / 8 + 3 then Taps(start % 8)[k - start / 8] else 0
  {
    var q, p := k - start / 8, start % 8;
    var want: byte := if 0 <= q < 3 then Taps(p)[q] else 0;
    forall j: nat | j < 8 ensures BitOf(d[k], j) <==> BitOf(want, j) {
      assert (8 * k + j) / 8 == k && (8 * k + j) % 8 == j;
      assert MessageBit(d, 8 * k + j) == BitOf(d[k], j);
      assert IsTap(8 * k + j, start) == IsTap(8 * q + j, p);
      if 0 <= q < 3 { TapBits(p, q, j); } else { ZeroBit(j); }
    }
    SameBits(d[k], want);
  }

  lemma ZeroBit(j: nat)
    requires j < 8
    ensures !BitOf(0, j)
  {
  }

  /** Sixteen is the most: flipping the taps of the polynomial, four bits within seventeen, goes unnoticed wherever
      they begin. */
  lemma SeventeenMissed(x: seq<byte>, y: seq<byte>, start: nat)
    requires |x| == |y| && Tapped(Diff(x, y), start)
    ensures Checksum(x) == Checksum(y)
  {
    var d, k := Diff(x, y), start / 8;
    assert k + 2 < |d|;
    forall i | 0 <= i < |d| ensures d[i] == if k <= i < k + 3 then Taps(start % 8)[i - k] else 0 { TappedByte(d, start, i); }
    assert d[k..k + 3] == Taps(start % 8);
    assert d[..k] + d[k..k + 3] + d[k + 3..] == d;
    Isolated(d[..k], d[k..k + 3], d[k + 3..]);
    TapsVanish(start % 8);
    UndetectedIff(x, y);
  }

  // ---- parity ---------------------------------------------------------------------------------

  predicate Bit(w: bv16) { w & 1 != 0 }

  function Half(w: bv16): bv16 { w >> 1 }

  /** Whether an odd number of the first `n` bits of a word is set, for any way of reading words. */
  predicate OddBits<T(!new)>(bit: T -> bool, half: T -> T, w: T, n: nat) {
    n > 0 && bit(w) != OddBits(bit, half, half(w), n - 1)
  }

  /** Addition without carries acts bit by bit. */
  ghost predicate Bitwise<T(!new)>(bit: T -> bool, half: T -> T, add: (T, T) -> T) {
    && (forall a, b :: bit(add(a, b)) <==> bit(a) != bit(b))
    && (forall a, b :: half(add(a, b)) == add(half(a), half(b)))
  }

  lemma {:induction false} OddAdds<T(!new)>(bit: T -> bool, half: T -> T, add: (T, T) -> T, a: T, b: T, n: nat)
    requires Bitwise(bit, half, add)
    ensures OddBits(bit, half, add(a, b), n) <==> OddBits(bit, half, a, n) != OddBits(bit, half, b, n)
  {
    if n > 0 {
      assert half(add(a, b)) == add(half(a), half(b));
      OddAdds(bit, half, add, half(a), half(b), n - 1);
    }
  }

  predicate Odd(w: bv16, n: nat) { OddBits(Bit, Half, w, n) }

  lemma XorBitwise()
    ensures Bitwise(Bit, Half, Xor)
  {
    forall a, b ensures Bit(Xor(a, b)) <==> Bit(a) != Bit(b) { BitAdds(a, b); }
    forall a, b ensures Half(Xor(a, b)) == Xor(Half(a), Half(b)) { HalfAdds(a, b); }
  }

  lemma BitAdds(a: bv16, b: bv16)
    ensures Bit(Xor(a, b)) <==> Bit(a) != Bit(b)
  {
  }

  lemma HalfAdds(a: bv16, b: bv16)
    ensures Half(Xor(a, b)) == Xor(Half(a), Half(b))
  {
  }

  lemma OddXor(a: bv16, b: bv16, n: nat)
    ensures Odd(Xor(a, b), n) <==> Odd(a, n) != Odd(b, n)
  {
    XorBitwise();
    OddAdds(Bit, Half, Xor, a, b, n);
  }

  /** How many of the first `n` bits are set. */
  function CountBits<T(!new)>(bit: T -> bool, half: T -> T, w: T, n: nat): nat {
    if n == 0 then 0 else (if bit(w) then 1 else 0) + CountBits(bit, half, half(w), n - 1)
  }

  lemma {:induction false} OddIsCount<T(!new)>(bit: T -> bool, half: T -> T, w: T, n: nat)
    ensures OddBits(bit, half, w, n) <==> CountBits(bit, half, w, n) % 2 == 1
  {
    if n > 0 { OddIsCount(bit, half, half(w), n - 1); }
  }

  function Halved<T(!new)>(half: T -> T, w: T, n: nat): T {
    if n == 0 then w else Halved(half, half(w), n - 1)
  }

  /** A bit that is not set does not count. */
  lemma {:induction false} OddNext<T(!new)>(bit: T -> bool, half: T -> T, w: T, n: nat)
    requires !bit(Halved(half, w, n))
    ensures OddBits(bit, half, w, n + 1) <==> OddBits(bit, half, w, n)
  {
    if n > 0 { OddNext(bit, half, half(w), n - 1); }
  }

  lemma HalvedOnce(w: bv16, h: bv16, n: nat)
    requires h == w >> 1
    ensures Halved(Half, w, n + 1) == Halved(Half, h, n)
  {
    assert Half(w) == h;
  }

  lemma HalvedFour(w: bv16, a: bv16, b: bv16, c: bv16, d: bv16, n: nat)
    requires a == w >> 1 && b == a >> 1 && c == b >> 1 && d == c >> 1
    ensures Halved(Half, w, n + 4) == Halved(Half, d, n)
  {
    HalvedOnce(w, a, n + 3);
    HalvedOnce(a, b, n + 2);
    HalvedOnce(b, c, n + 1);
    HalvedOnce(c, d, n);
  }

  lemma FourShifts(w: bv16)
    ensures (((w >> 1) >> 1) >> 1) >> 1 == w >> 4
  {
  }

  lemma HalvedNibble(w: bv16, h: bv16, n: nat)
    requires h == w >> 4
    ensures Halved(Half, w, n + 4) == Halved(Half, h, n)
  {
    FourShifts(w);
    HalvedFour(w, w >> 1, (w >> 1) >> 1, ((w >> 1) >> 1) >> 1, h, n);
  }

  lemma ShiftedOut(w: bv16)
    ensures (((w >> 4) >> 4) >> 4) >> 4 == 0
  {
  }

  const WIDTH: nat := 16

  lemma HalvedNibbles(w: bv16, a: bv16, b: bv16, c: bv16, d: bv16)
    requires a == w >> 4 && b == a >> 4 && c == b >> 4 && d == c >> 4
    ensures Halved(Half, w, WIDTH) == d
  {
    HalvedNibble(w, a, 12);
    HalvedNibble(a, b, 8);
    HalvedNibble(b, c, 4);
    HalvedNibble(c, d, 0);
  }

  lemma HalvedOut(w: bv16)
    ensures Halved(Half, w, WIDTH) == 0
  {
    ShiftedOut(w);
    HalvedNibbles(w, w >> 4, (w >> 4) >> 4, ((w >> 4) >> 4) >> 4, 0);
  }

  lemma OddOnce(w: bv16, h: bv16, n: nat)
    requires n > 0 && h == w >> 1
    ensures Odd(w, n) <==> Bit(w) != Odd(h, n - 1)
  {
    assert Half(w) == h;
  }

  /** The polynomial has three taps. */
  lemma OddPoly()
    ensures Odd(0xA001, WIDTH)
  {
    OddOnce(0xA001, 0x5000, 16);
    OddOnce(0x5000, 0x2800, 15);
    OddOnce(0x2800, 0x1400, 14);
    OddOnce(0x1400, 0x0A00, 13);
    OddOnce(0x0A00, 0x0500, 12);
    OddOnce(0x0500, 0x0280, 11);
    OddOnce(0x0280, 0x0140, 10);
    OddOnce(0x0140, 0x00A0, 9);
    OddOnce(0x00A0, 0x0050, 8);
    OddOnce(0x0050, 0x0028, 7);
    OddOnce(0x0028, 0x0014, 6);
    OddOnce(0x0014, 0x000A, 5);
    OddOnce(0x000A, 0x0005, 4);
    OddOnce(0x0005, 0x0002, 3);
    OddOnce(0x0002, 0x0001, 2);
    OddOnce(0x0001, 0x0000, 1);
  }

  lemma TopClear(c: bv16)
    ensures Odd(Half(c), WIDTH) <==> Odd(Half(c), 15)
  {
    HalvedOut(c);
    assert Halved(Half, c, WIDTH) == Halved(Half, Half(c), 15);
    OddNext(Bit, Half, Half(c), 15);
  }

  /** The polynomial is a multiple of X + 1, so a step keeps the parity of the register. */
  lemma StepParity(c: bv16)
    ensures Odd(Step(c), WIDTH) <==> Odd(c, WIDTH)
  {
    TopClear(c);
    OddOnce(c, Half(c), WIDTH);
    if Bit(c) {
      StepOdd(c);
      OddPoly();
      OddXor(Half(c), 0xA001, WIDTH);
    } else {
      StepEven(c);
    }
  }

  lemma {:induction false} StepsParity(c: bv16, n: nat)
    ensures Odd(Steps(c, n), WIDTH) <==> Odd(c, WIDTH)
  {
    if n > 0 {
      StepsParity(c, n - 1);
      StepParity(Steps(c, n - 1));
    }
  }

  function OnesIn(b: byte): nat { CountBits(Bit, Half, Wide(b), WIDTH) }

  /** How many bits of a message are set. */
  function Ones(data: seq<byte>): nat {
    if data == [] then 0 else Ones(data[..|data| - 1]) + OnesIn(data[|data| - 1])
  }

  predicate OddWord(w: bv16) { Odd(w, WIDTH) }

  lemma OnesInOdd(b: byte)
    ensures OddWord(Wide(b)) <==> OnesIn(b) % 2 == 1
  {
    OddIsCount(Bit, Half, Wide(b), WIDTH);
  }

  lemma OddWordXor(c: bv16, w: bv16)
    ensures OddWord(Xor(c, w)) <==> OddWord(c) != OddWord(w)
  {
    OddXor(c, w, WIDTH);
  }

  lemma StepsWord(c: bv16, n: nat)
    ensures OddWord(Steps(c, n)) <==> OddWord(c)
  {
    StepsParity(c, n);
  }

  lemma FeedWord(c: bv16, w: bv16, n: nat)
    ensures OddWord(Steps(Xor(c, w), n)) <==> OddWord(c) != OddWord(w)
  {
    OddWordXor(c, w);
    StepsWord(Xor(c, w), n);
  }

  /** Feeding a byte changes the parity of the register by the byte's. */
  lemma FeedParity(c: bv16, b: byte)
    ensures OddWord(Feed(c, b)) <==> OddWord(c) != OddWord(Wide(b))
  {
    FeedWord(c, Wide(b), BITS);
  }

  lemma FeedTally(c: bv16, d: bv16, odd: bool, ones: nat, b: byte)
    requires OddWord(d) <==> OddWord(c) != odd
    requires odd <==> ones % 2 == 1
    ensures OddWord(Feed(d, b)) <==> OddWord(c) != ((ones + OnesIn(b)) % 2 == 1)
  {
    FeedParity(d, b);
    OnesInOdd(b);
    OddSum(ones, OnesIn(b));
  }

  lemma {:induction false} CrcParity(c: bv16, data: seq<byte>)
    ensures OddWord(Crc(c, data)) <==> OddWord(c) != (Ones(data) % 2 == 1)
  {
    if data != [] {
      var n := |data| - 1;
      CrcParity(c, data[..n]);
      FeedTally(c, Crc(c, data[..n]), Ones(data[..n]) % 2 == 1, Ones(data[..n]), data[n]);
    }
  }

  lemma OddSum(a: nat, b: nat)
    ensures (a + b) % 2 == 1 <==> (a % 2 == 1) != (b % 2 == 1)
  {
  }

  lemma {:induction false} OddZero(n: nat)
    ensures !Odd(0, n)
  {
    if n > 0 {
      OddZero(n - 1);
      OddOnce(0, 0, n);
    }
  }

  /** Any odd number of flipped bits, anywhere in a message of any length, alters the checksum. */
  lemma OddFlipsDetected(x: seq<byte>, y: seq<byte>)
    requires |x| == |y| && Ones(Diff(x, y)) % 2 == 1
    ensures Checksum(x) != Checksum(y)
  {
    CrcParity(0, Diff(x, y));
    OddZero(WIDTH);
    UndetectedIff(x, y);
  }
}
