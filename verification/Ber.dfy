/** Tags, lengths and integers in the definite form of the Basic Encoding Rules (sections 8.1.3 and
    8.3 of ITU-T X.690), as the decoder reads them. */
module Ber {
  import opened Basics

  type byte = b: int | 0 <= b < 256

  type bytes = seq<byte>

  datatype Error = FrameTooShort | InvalidEtherType | TagMismatch | InvalidTlvLength | UnsupportedAsdu | SeqDataTooShort

  datatype Result<+T> = Ok(value: T) | Err(error: Error)

  /** An unsigned big-endian number. */
  function BigEndian(bs: bytes): nat {
    if bs == [] then 0 else 256 * BigEndian(bs[..|bs| - 1]) + bs[|bs| - 1]
  }

  datatype Length = Length(length: nat, next: nat)

  /** `readBerLength`: short form below 0x80, long form with one to four length octets; the
      indefinite form and longer ones are refused. */
  function ReadLength(buf: bytes, offset: nat): (r: Result<Length>)
    ensures r.Ok? ==> offset < r.value.next <= |buf|
  {
    if offset >= |buf| then Err(FrameTooShort)
    else if buf[offset] < 0x80 then Ok(Length(buf[offset], offset + 1))
    else
      var n := buf[offset] - 0x80;
      if n == 0 || n > 4 then Err(InvalidTlvLength)
      else if offset + 1 + n > |buf| then Err(FrameTooShort)
      else Ok(Length(BigEndian(buf[offset + 1..offset + 1 + n]), offset + 1 + n))
  }

  lemma ReadLengthIs(buf: bytes, start: nat)
    ensures start + 1 < |buf| && buf[start] == 129 ==> ReadLength(buf, start) == Ok(Length(buf[start + 1], start + 2))
    ensures start + 2 < |buf| && buf[start] == 130 ==>
              var h: nat, l: nat := buf[start + 1], buf[start + 2];
              ReadLength(buf, start) == Ok(Length(256 * h + l, start + 3))
  {
    if start + 1 < |buf| && buf[start] == 129 {
      assert buf[start + 1..start + 2] == [buf[start + 1]];
      BigEndianOne(buf[start + 1]);
    } else if start + 2 < |buf| && buf[start] == 130 {
      assert buf[start + 1..start + 3] == [buf[start + 1], buf[start + 2]];
      BigEndianTwo(buf[start + 1], buf[start + 2]);
    }
  }

  method ReadBerLength(buf: bytes, start: nat) returns (r: Result<Length>)
    ensures r == ReadLength(buf, start)
    ensures start < |buf| && buf[start] < 128 ==> r == Ok(Length(buf[start], start + 1))
    ensures start < |buf| && (buf[start] == 128 || buf[start] > 132) ==> r == Err(InvalidTlvLength)
    ensures start >= |buf| || (128 < buf[start] <= 132 && start + buf[start] - 127 > |buf|) ==> r == Err(FrameTooShort)
    ensures start + 1 < |buf| && buf[start] == 129 ==> r == Ok(Length(buf[start + 1], start + 2))
    ensures start + 2 < |buf| && buf[start] == 130 ==> 
              var h: nat, l: nat := buf[start + 1], buf[start + 2]; r == Ok(Length(256 * h + l, start + 3))
  {
    ReadLengthIs(buf, start);
    var offset := start;
    if offset >= |buf| {
      return Err(FrameTooShort);
    }
    var b := buf[offset];
    offset := offset + 1;
    if b < 0x80 {
      return Ok(Length(b, offset));
    }
    var numBytes := b - 0x80;
    if numBytes == 0 || numBytes > 4 {
      return Err(InvalidTlvLength);
    }
    if offset + numBytes > |buf| {
      return Err(FrameTooShort);
    }
    var length: nat := 0;
    for i := 0 to numBytes
      invariant length == BigEndian(buf[offset..offset + i])
    {
      assert buf[offset..offset + i + 1][..i] == buf[offset..offset + i];
      length := length * 256 + buf[offset + i];
    }
    return Ok(Length(length, offset + numBytes));
  }

  datatype Tlv = Tlv(tag: byte, data: bytes)

  datatype Read = Read(tlv: Tlv, next: nat)

  /** `readTLV`: one tag octet, a length, and that many octets, all inside the buffer; a successful
      read advances by at least two. */
  function ReadTlv(buf: bytes, offset: nat): (r: Result<Read>)
    ensures r.Ok? ==> offset + 2 <= r.value.next <= |buf|
    ensures r.Ok? ==> |r.value.tlv.data| <= r.value.next - offset - 2
  {
    if offset >= |buf| then Err(FrameTooShort)
    else match ReadLength(buf, offset + 1)
      case Err(e) => Err(e)
      case Ok(len) =>
        if len.next + len.length > |buf| then Err(FrameTooShort)
        else Ok(Read(Tlv(buf[offset], buf[len.next..len.next + len.length]), len.next + len.length))
  }

  // ---- integers ---------------------------------------------------------------------------------------

  function Pow256(n: nat): nat { if n == 0 then 1 else 256 * Pow256(n - 1) }

  /** The two's-complement number of section 8.3. */
  function SignedValue(bs: bytes): int
    requires bs != []
  {
    BigEndian(bs) - (if bs[0] >= 0x80 then Pow256(|bs|) else 0)
  }

  /** `decodeInteger32`: the signed value of one to four octets, as a 32-bit word. */
  function Integer32(bs: bytes): (r: Result<nat>)
    ensures r.Ok? ==> r.value < WORD32
  {
    if |bs| == 0 || |bs| > 4 then Err(InvalidTlvLength) else Ok(SignedValue(bs) % WORD32)
  }

  method DecodeInteger32(bs: bytes) returns (r: Result<nat>)
    ensures r == Integer32(bs)
  {
    if |bs| == 0 || |bs| > 4 {
      return Err(InvalidTlvLength);
    }
    var v: int := if bs[0] >= 0x80 then WORD32 - 1 else 0;
    ghost var ext := if bs[0] >= 0x80 then -1 else 0;
    for i := 0 to |bs|
      invariant 0 <= v < WORD32
      invariant v == (ext * Pow256(i) + BigEndian(bs[..i])) % WORD32
    {
      assert bs[..i + 1][..i] == bs[..i];
      ShiftIn(ext * Pow256(i) + BigEndian(bs[..i]), bs[i]);
      v := (v * 256 + bs[i]) % WORD32;
    }
    assert bs[..|bs|] == bs;
    return Ok(v);
  }

  /** Shifting an octet into a 32-bit word commutes with reducing to 32 bits. */
  lemma ShiftIn(x: int, b: int)
    ensures ((x % WORD32) * 256 + b) % WORD32 == (x * 256 + b) % WORD32
  {
    var q := x / WORD32;
    assert x * 256 + b == (x % WORD32) * 256 + b + (q * 256) * WORD32;
    AddMultiple((x % WORD32) * 256 + b, q * 256);
  }

  lemma AddMultiple(y: int, k: int)
    ensures (y + k * WORD32) % WORD32 == y % WORD32
  {
  }

  function ToInt32(v: nat): int { if v < WORD32 / 2 then v else v - WORD32 }

  /** `decodeIntegerSigned32`: the signed value itself. */
  method DecodeIntegerSigned32(bs: bytes) returns (r: Result<int>)
    ensures r == if |bs| == 0 || |bs| > 4 then Err(InvalidTlvLength) else Ok(SignedValue(bs))
  {
    if |bs| == 0 || |bs| > 4 {
      return Err(InvalidTlvLength);
    }
    var w := DecodeInteger32(bs);
    SignedRange(bs);
    return Ok(ToInt32(w.value));
  }

  lemma {:induction false} BigEndianBounds(bs: bytes)
    requires bs != []
    ensures bs[0] * Pow256(|bs| - 1) <= BigEndian(bs) < (bs[0] + 1) * Pow256(|bs| - 1)
  {
    if |bs| > 1 {
      BigEndianBounds(bs[..|bs| - 1]);
      Times256(bs[0], Pow256(|bs| - 2));
      Times256(bs[0] as int + 1, Pow256(|bs| - 2));
    }
  }

  lemma Times256(a: int, p: int)
    ensures a * (256 * p) == 256 * (a * p)
  {
  }

  lemma SignedRange(bs: bytes)
    requires 1 <= |bs| <= 4
    ensures -WORD32 / 2 <= SignedValue(bs) < WORD32 / 2
  {
    BigEndianBounds(bs);
    assert Pow256(1) == 256 && Pow256(2) == 65536;
    assert Pow256(3) == 16777216 && Pow256(4) == WORD32;
    var p := Pow256(|bs| - 1);
    if bs[0] >= 0x80 {
      Scale(0x80, bs[0], p);
    } else {
      Scale(bs[0] as int + 1, 0x80, p);
    }
    Scale(0, bs[0], p);
    Scale(bs[0] as int + 1, 256, p);
  }

  /** It is the one number of n octets in two's complement with those digits. */
  lemma TwosComplement(bs: bytes)
    requires bs != []
    ensures 0 <= 2 * SignedValue(bs) + Pow256(|bs|) < 2 * Pow256(|bs|)
    ensures SignedValue(bs) == BigEndian(bs) || SignedValue(bs) == BigEndian(bs) - Pow256(|bs|)
  {
    BigEndianBounds(bs);
    var p := Pow256(|bs| - 1);
    if bs[0] >= 0x80 {
      Scale(0x80, bs[0], p);
      Scale(bs[0] as int + 1, 256, p);
    } else {
      Scale(bs[0] as int + 1, 0x80, p);
      Scale(0, bs[0], p);
    }
  }

  lemma Scale(a: int, b: int, p: nat)
    requires a <= b
    ensures a * p <= b * p
  {
    assert (b - a) * p >= 0;
  }

  // ---- writing ----------------------------------------------------------------------------------------

  /** `berTLVLen`: one, two or three octets. The last form truncates lengths of 65536 and more. */
  function WriteLength(n: nat): bytes {
    if n < 0x80 then [n]
    else if n < 0x100 then [0x81, n]
    else [0x82, (n / 256) % 256, n % 256]
  }

  function WriteTlv(tag: byte, data: bytes): bytes {
    [tag] + WriteLength(|data|) + data
  }

  /** Reading a written length gives it back, modulo 65536 once the third form is reached. */
  lemma ReadWrittenLength(pre: bytes, n: nat, post: bytes)
    ensures ReadLength(pre + WriteLength(n) + post, |pre|) ==
            Ok(Length(if n < 65536 then n else n % 65536, |pre| + |WriteLength(n)|))
  {
    var buf := pre + WriteLength(n) + post;
    var w := WriteLength(n);
    assert forall i :: 0 <= i < |w| ==> buf[|pre| + i] == w[i];
    if 0x80 <= n < 0x100 {
      assert buf[|pre| + 1..|pre| + 2] == [n as byte];
      BigEndianOne(n);
    } else if n >= 0x100 {
      var h, l: byte := (n / 256) % 256, n % 256;
      assert buf[|pre| + 1..|pre| + 3] == [h, l];
      BigEndianTwo(h, l);
      TwoDigits(n);
    }
  }

  lemma BigEndianOne(a: byte)
    ensures BigEndian([a]) == a
  {
    assert [a][..0] == [];
  }

  lemma BigEndianTwo(a: byte, b: byte)
    ensures BigEndian([a, b]) == 256 * a + b
  {
    assert [a, b][..1] == [a];
    BigEndianOne(a);
  }

  lemma TwoDigits(n: nat)
    ensures 256 * ((n / 256) % 256) + n % 256 == n % 65536
  {
  }

  /** Reading a written TLV gives it back, wherever it stands. */
  lemma ReadWrittenTlv(pre: bytes, tag: byte, data: bytes, post: bytes)
    requires |data| < 65536
    ensures ReadTlv(pre + WriteTlv(tag, data) + post, |pre|) ==
            Ok(Read(Tlv(tag, data), |pre| + |WriteTlv(tag, data)|))
  {
    var buf := pre + WriteTlv(tag, data) + post;
    assert buf == (pre + [tag]) + WriteLength(|data|) + (data + post);
    ReadWrittenLength(pre + [tag], |data|, data + post);
    var at := |pre| + 1 + |WriteLength(|data|)|;
    assert buf[at..at + |data|] == data;
  }

  /** A TLV written with 65536 octets or more is read back cut to its length modulo 65536. */
  lemma ReadOversizedTlv(pre: bytes, tag: byte, data: bytes)
    requires |data| >= 65536
    ensures var r := ReadTlv(pre + WriteTlv(tag, data), |pre|); r.Ok? && |r.value.tlv.data| == |data| % 65536
  {
    var buf := pre + WriteTlv(tag, data);
    assert buf == (pre + [tag]) + WriteLength(|data|) + data;
    ReadWrittenLength(pre + [tag], |data|, data);
  }

  // ---- lists of TLVs -----------------------------------------------------------------------------------

  /** The TLVs from `offset` on, up to the end or the first that does not parse. */
  function TlvList(buf: bytes, offset: nat): seq<Tlv>
    decreases |buf| - offset
  {
    if offset >= |buf| then []
    else match ReadTlv(buf, offset)
      case Err(_) => []
      case Ok(r) => [r.tlv] + TlvList(buf, r.next)
  }

  function WriteAll(ts: seq<Tlv>): bytes {
    if ts == [] then [] else WriteTlv(ts[0].tag, ts[0].data) + WriteAll(ts[1..])
  }

  lemma ListCons(buf: bytes, offset: nat, x: Tlv, next: nat, rest: seq<Tlv>)
    requires ReadTlv(buf, offset) == Ok(Read(x, next)) && TlvList(buf, next) == rest
    ensures TlvList(buf, offset) == [x] + rest
  {
  }

  /** Printing a list of TLVs and reading it back. */
  lemma {:induction false} ListRoundTrip(pre: bytes, ts: seq<Tlv>)
    requires forall t :: t in ts ==> |t.data| < 65536
    ensures TlvList(pre + WriteAll(ts), |pre|) == ts
    decreases ts
  {
    if ts != [] {
      var head := WriteTlv(ts[0].tag, ts[0].data);
      ListRoundTrip(pre + head, ts[1..]);
      WrittenCons(pre, ts[0], WriteAll(ts[1..]), ts[1..]);
    } else {
      assert pre + WriteAll(ts) == pre;
    }
  }

  lemma WrittenCons(pre: bytes, x: Tlv, rest: bytes, ts: seq<Tlv>)
    requires |x.data| < 65536
    requires TlvList((pre + WriteTlv(x.tag, x.data)) + rest, |pre + WriteTlv(x.tag, x.data)|) == ts
    ensures TlvList(pre + (WriteTlv(x.tag, x.data) + rest), |pre|) == [x] + ts
  {
    var head := WriteTlv(x.tag, x.data);
    ReadWrittenTlv(pre, x.tag, x.data, rest);
    ListCons(pre + head + rest, |pre|, x, |pre + head|, ts);
    Assoc(pre, head, rest);
  }

  lemma Assoc(a: bytes, b: bytes, c: bytes)
    ensures a + b + c == a + (b + c)
  {
  }

  /** Reading depends only on what follows the offset. */
  lemma ReadShift(pre: bytes, buf: bytes, offset: nat)
    ensures ReadTlv(pre + buf, |pre| + offset) ==
            match ReadTlv(buf, offset)
            case Err(e) => Err(e)
            case Ok(r) => Ok(Read(r.tlv, |pre| + r.next))
  {
    var b := pre + buf;
    assert forall i :: 0 <= i < |buf| ==> b[|pre| + i] == buf[i];
    assert forall i, j :: 0 <= i <= j <= |buf| ==> b[|pre| + i..|pre| + j] == buf[i..j];
  }

  /** A TLV that ends within `pre` reads the same whatever stands after `pre`. */
  lemma ReadPrefix(pre: bytes, post: bytes, post': bytes, offset: nat)
    requires ReadTlv(pre + post, offset).Ok? && ReadTlv(pre + post, offset).value.next <= |pre|
    ensures ReadTlv(pre + post', offset) == ReadTlv(pre + post, offset)
  {
    var b, b' := pre + post, pre + post';
    assert forall i :: 0 <= i < |pre| ==> b[i] == b'[i];
    assert forall i, j :: 0 <= i <= j <= |pre| ==> b[i..j] == b'[i..j];
  }

  lemma {:induction false} ListShift(pre: bytes, buf: bytes, offset: nat)
    ensures TlvList(pre + buf, |pre| + offset) == TlvList(buf, offset)
    decreases |buf| - offset
  {
    if offset < |buf| {
      ReadShift(pre, buf, offset);
      if ReadTlv(buf, offset).Ok? {
        ListShift(pre, buf, ReadTlv(buf, offset).value.next);
      }
    }
  }

  lemma ListFrom(pre: bytes, post: bytes)
    ensures TlvList(pre + post, |pre|) == TlvList(post, 0)
  {
    ListShift(pre, post, 0);
  }

  /** `k` is where some TLV of the list read from `offset` ends, or `offset` itself. */
  predicate Boundary(buf: bytes, offset: nat, k: nat)
    decreases |buf| - offset
  {
    offset <= k <= |buf| &&
    (k == offset || (ReadTlv(buf, offset).Ok? && Boundary(buf, ReadTlv(buf, offset).value.next, k)))
  }

  /** How many TLVs stand before the boundary. */
  function CountTo(buf: bytes, offset: nat, k: nat): nat
    requires Boundary(buf, offset, k)
    decreases |buf| - offset
  {
    if k == offset then 0 else 1 + CountTo(buf, ReadTlv(buf, offset).value.next, k)
  }

  /** The bytes `t` are one whole TLV. */
  predicate OneTlv(t: bytes, x: Tlv) { ReadTlv(t, 0) == Ok(Read(x, |t|)) }

  /** Inserting a TLV at a boundary inserts it in the list, and changes nothing else. */
  lemma {:induction false} ListInsert(pre: bytes, post: bytes, offset: nat, t: bytes, x: Tlv)
    requires Boundary(pre + post, offset, |pre|) && OneTlv(t, x)
    ensures CountTo(pre + post, offset, |pre|) <= |TlvList(pre + post, offset)|
    ensures var n, ts := CountTo(pre + post, offset, |pre|), TlvList(pre + post, offset);
            TlvList(pre + (t + post), offset) == ts[..n] + [x] + ts[n..]
    decreases |pre + post| - offset
  {
    if |pre| == offset {
      InsertHere(pre, t, post, x);
      InsertFirst(x, TlvList(pre + post, |pre|));
    } else {
      var r := ReadTlv(pre + post, offset).value;
      ReadPrefix(pre, post, t + post, offset);
      ListInsert(pre, post, r.next, t, x);
      ListCons(pre + (t + post), offset, r.tlv, r.next, TlvList(pre + (t + post), r.next));
      InsertAfter(r.tlv, TlvList(pre + post, r.next), CountTo(pre + post, r.next, |pre|), x);
    }
  }

  lemma InsertFirst(x: Tlv, ts: seq<Tlv>)
    ensures ts[..0] + [x] + ts[0..] == [x] + ts
  {
  }

  lemma InsertAfter(y: Tlv, ts: seq<Tlv>, n: nat, x: Tlv)
    requires n <= |ts|
    ensures [y] + (ts[..n] + [x] + ts[n..]) == ([y] + ts)[..n + 1] + [x] + ([y] + ts)[n + 1..]
  {
  }

  lemma InsertHere(pre: bytes, t: bytes, post: bytes, x: Tlv)
    requires OneTlv(t, x)
    ensures TlvList(pre + (t + post), |pre|) == [x] + TlvList(pre + post, |pre|)
  {
    ListFrom(pre, t + post);
    ListFrom(pre, post);
    ReadPrefix(t, [], post, 0) by {
      assert t + [] == t;
    }
    ListFrom(t, post);
    ListCons(t + post, 0, x, |t|, TlvList(post, 0)) by {
      assert t + [] == t;
    }
  }
}
