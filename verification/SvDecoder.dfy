/** Decoding a sampled-values frame: Ethernet header, SV header, APDU, ASDU, samples. */
module SvDecoder {
  import opened Basics
  import opened Ber

  datatype UtcTime = UtcTime(seconds: nat, nanos: nat)

  datatype Asdu = Asdu(svId: bytes, smpCnt: nat, confRev: nat, smpSynch: byte, seqData: bytes,
                       smpRate: nat, refrTm: Option<UtcTime>, numSamples: nat)

  const EMPTY_ASDU := Asdu([], 0, 0, 0, [], 0, None, 0)

  /** `decodeUtcTime`: seconds and the 24-bit fraction in units of 1000 ns, as the code takes it. */
  function DecodeUtcTime(data: bytes): Option<UtcTime> {
    if |data| < 8 then None else Some(UtcTime(BigEndian(data[0..4]), BigEndian(data[4..7]) * 1000))
  }

  predicate Recognised(tag: byte) {
    tag in {0x02, 0x82, 0x83, 0x86, 0x04, 0x87, 0x1A, 0x80, 0x81, 0x23, 0x84, 0x03, 0x85}
  }

  function ApplyInteger(a: Asdu, tag: byte, v: nat): Asdu {
    if tag == 0x82 then a.(smpCnt := v)
    else if tag == 0x83 then a.(confRev := v)
    else if tag == 0x86 then a.(smpRate := v)
    else if a.smpCnt == 0 then a.(smpCnt := v)
    else if a.confRev == 0 then a.(confRev := v)
    else a.(smpRate := v)
  }

  /** The switch of `ParseSVASDU`: what one TLV does to the ASDU under construction. */
  function ApplyTlv(a: Asdu, t: Tlv): Asdu {
    var tag, data := t.tag, t.data;
    if tag in {0x02, 0x82, 0x83, 0x86} then
      match Integer32(data)
      case Err(_) => a
      case Ok(v) => ApplyInteger(a, tag, v)
    else if tag in {0x04, 0x87} then a.(seqData := data, numSamples := |data| / 8)
    else if tag in {0x1A, 0x80, 0x81} then (if a.svId == [] then a.(svId := data) else a)
    else if tag in {0x23, 0x84} then a.(refrTm := DecodeUtcTime(data))
    else if tag in {0x03, 0x85} && |data| >= 1 then a.(smpSynch := data[|data| - 1])
    else a
  }

  /** Four octets, most significant first. */
  function Word(a: nat, b: nat, c: nat, d: nat): nat { 0x100_0000 * a + 0x1_0000 * b + 0x100 * c + d }

  lemma FourOctets(a: byte, b: byte, c: byte, d: byte)
    ensures BigEndian([a, b, c, d]) == Word(a, b, c, d)
  {
    assert [a, b, c, d][..3] == [a, b, c];
    ThreeOctets(a, b, c);
  }

  /** What each tag means. An untagged integer fills the first of count, revision and rate that is still zero; an
      identifier is only taken once; a reference time is seconds and microseconds; a synchronisation is its last octet. */
  lemma TagsMean(a: Asdu, data: bytes)
    ensures var v := Integer32(data);
            v.Ok? ==>
              && ApplyTlv(a, Tlv(0x82, data)) == a.(smpCnt := v.value) && ApplyTlv(a, Tlv(0x83, data)) == a.(confRev := v.value)
              && ApplyTlv(a, Tlv(0x86, data)) == a.(smpRate := v.value)
              && ApplyTlv(a, Tlv(0x02, data)) == if a.smpCnt == 0 then a.(smpCnt := v.value)
                                                 else if a.confRev == 0 then a.(confRev := v.value) else a.(smpRate := v.value)
    ensures Integer32(data).Err? ==> forall tag: byte :: tag in {0x02, 0x82, 0x83, 0x86} ==> ApplyTlv(a, Tlv(tag, data)) == a
    ensures forall tag: byte :: tag in {0x04, 0x87} ==> ApplyTlv(a, Tlv(tag, data)) == a.(seqData := data, numSamples := |data| / 8)
    ensures forall tag: byte :: tag in {0x1A, 0x80, 0x81} ==>
              ApplyTlv(a, Tlv(tag, data)).svId == if a.svId == [] then data else a.svId
    ensures forall tag: byte :: tag in {0x23, 0x84} ==>
              ApplyTlv(a, Tlv(tag, data)).refrTm == if |data| < 8 then None
                else Some(UtcTime(Word(data[0], data[1], data[2], data[3]), 1000 * Word(0, data[4], data[5], data[6])))
    ensures forall tag: byte :: tag in {0x03, 0x85} ==>
              ApplyTlv(a, Tlv(tag, data)) == if data == [] then a else a.(smpSynch := data[|data| - 1])
  {
    if |data| >= 8 {
      assert data[0..4] == [data[0], data[1], data[2], data[3]];
      assert data[4..7] == [data[4], data[5], data[6]];
      FourOctets(data[0], data[1], data[2], data[3]);
      ThreeOctets(data[4], data[5], data[6]);
    }
  }

  lemma ThreeOctets(a: byte, b: byte, c: byte)
    ensures BigEndian([a, b, c]) == Word(0, a, b, c)
  {
    assert [a, b, c][..2] == [a, b];
    BigEndianTwo(a, b);
  }

  function FoldTlvs(a: Asdu, ts: seq<Tlv>): Asdu
    decreases |ts|
  {
    if ts == [] then a else FoldTlvs(ApplyTlv(a, ts[0]), ts[1..])
  }

  /** What `ParseSVASDU` computes: nothing from an empty buffer, otherwise the fold over its TLVs. */
  function AsduOf(buf: bytes): Result<Asdu> {
    if buf == [] then Err(SeqDataTooShort) else Ok(FoldTlvs(EMPTY_ASDU, TlvList(buf, 0)))
  }

  /** `ParseSVASDU`, with its special treatment of a leading identifier. */
  method ParseSvAsdu(buf: bytes) returns (r: Result<Asdu>)
    ensures r == AsduOf(buf)
  {
    var asdu := EMPTY_ASDU;
    var offset := 0;
    if |buf| == 0 {
      return Err(SeqDataTooShort);
    }
    ghost var want := FoldTlvs(EMPTY_ASDU, TlvList(buf, 0));
    if buf[offset] == 0x1A || buf[offset] == 0x80 {
      var first := ReadTlv(buf, offset);
      if first.Ok? {
        asdu := asdu.(svId := first.value.tlv.data);
        offset := first.value.next;
      }
    }
    assert FoldTlvs(asdu, TlvList(buf, offset)) == want;
    while offset < |buf|
      invariant offset <= |buf| && FoldTlvs(asdu, TlvList(buf, offset)) == want
      decreases |buf| - offset
    {
      var next := ReadTlv(buf, offset);
      if next.Err? {
        break;
      }
      asdu := ApplyTlv(asdu, next.value.tlv);
      offset := next.value.next;
    }
    return Ok(asdu);
  }

  lemma {:induction false} FoldInsert(a: Asdu, ts: seq<Tlv>, n: nat, x: Tlv)
    requires n <= |ts| && !Recognised(x.tag)
    ensures FoldTlvs(a, ts[..n] + [x] + ts[n..]) == FoldTlvs(a, ts)
    decreases n
  {
    var us := ts[..n] + [x] + ts[n..];
    if n == 0 {
      assert us[1..] == ts;
    } else {
      assert us[1..] == ts[1..][..n - 1] + [x] + ts[1..][n - 1..];
      FoldInsert(ApplyTlv(a, ts[0]), ts[1..], n - 1, x);
    }
  }

  /** Inserting a well-formed TLV with an unrecognised tag at any TLV boundary of a nonempty ASDU
      leaves the result unchanged. */
  lemma UnknownTlvIgnored(pre: bytes, post: bytes, t: bytes, x: Tlv)
    requires pre + post != [] && Boundary(pre + post, 0, |pre|) && OneTlv(t, x) && !Recognised(x.tag)
    ensures AsduOf(pre + (t + post)) == AsduOf(pre + post)
  {
    ListInsert(pre, post, 0, t, x);
    FoldInsert(EMPTY_ASDU, TlvList(pre + post, 0), CountTo(pre + post, 0, |pre|), x);
  }

  /** Both octet strings of an ASDU fit into `limit` octets, and it counts as many samples as its data hold. */
  predicate Fits(a: Asdu, limit: nat) {
    |a.svId| <= limit && |a.seqData| <= limit && a.numSamples == |a.seqData| / 8
  }

  /** No field of the result is longer than the buffer it was parsed from. */
  lemma AsduWithin(buf: bytes)
    ensures AsduOf(buf).Ok? ==> Fits(AsduOf(buf).value, |buf|)
  {
    if buf != [] { FoldWithin(EMPTY_ASDU, buf, 0); }
  }

  lemma {:induction false} FoldWithin(a: Asdu, buf: bytes, offset: nat)
    requires Fits(a, |buf|)
    ensures Fits(FoldTlvs(a, TlvList(buf, offset)), |buf|)
    decreases |buf| - offset
  {
    if offset < |buf| && ReadTlv(buf, offset).Ok? {
      var r := ReadTlv(buf, offset).value;
      FoldWithin(ApplyTlv(a, r.tlv), buf, r.next);
    }
  }

  // ---- APDU ----------------------------------------------------------------------------------------------

  datatype SvPayload = SvPayload(asduCount: nat, asdus: seq<Asdu>)

  /** One round of the APDU loop: the bytes it consumes and the ASDU bytes it takes from them. */
  datatype Piece = Piece(start: nat, end: nat, asdu: bytes)

  function MaxInt(a: int, b: int): int { if a > b then a else b }

  /** How much an unframed ASDU is guessed to take. */
  function Guess(remaining: nat, left: int): (g: nat)
    requires remaining > 0
    ensures 0 < g <= remaining
  {
    var g := remaining / MaxInt(left, 1);
    GuessBound(remaining, MaxInt(left, 1));
    if g < 16 then remaining else g
  }

  lemma GuessBound(remaining: nat, d: int)
    requires d >= 1
    ensures 0 <= remaining / d <= remaining
  {
    DivisionBounds(remaining, d, remaining / d);
  }

  /** The guess is an even share of what remains, rounded down; all of it when that would be less than sixteen octets. */
  lemma GuessSays(remaining: nat, left: nat)
    requires remaining > 0 && left > 0
    ensures var g := Guess(remaining, left);
            if remaining < 16 * left then g == remaining else left * g <= remaining < left * (g + 1)
  {
    var q := remaining / left;
    DivisionBounds(remaining, left, q);
    if q < 16 { Grows(left, q + 1, 16); } else { Grows(left, 16, q); }
  }

  lemma DivisionBounds(remaining: nat, d: int, q: int)
    requires d >= 1 && q == remaining / d
    ensures 0 <= q <= remaining && d * q <= remaining < d * (q + 1)
  {
    assert remaining == d * q + remaining % d;
    assert d * (q + 1) == d * q + d;
    if q > remaining { Grows(d, remaining + 1, q); }
  }

  lemma Grows(d: int, a: int, b: int)
    requires d >= 1 && a <= b
    ensures d * a <= d * b
  {
    assert d * (b - a) >= 0;
  }

  /** The pieces the loop consumes from `offset` on, in its rounds i, i+1, ... below `count`. */
  function Pieces(inner: bytes, offset: nat, i: nat, count: nat): seq<Piece>
    decreases |inner| - offset
  {
    if i >= count || offset >= |inner| then []
    else if inner[offset] == 0x30 then
      match ReadTlv(inner, offset)
      case Err(_) => []
      case Ok(r) => [Piece(offset, r.next, r.tlv.data)] + Pieces(inner, r.next, i + 1, count)
    else
      var end := offset + Guess(|inner| - offset, count - i);
      [Piece(offset, end, inner[offset..end])] + Pieces(inner, end, i + 1, count)
  }

  /** The ASDUs that parse, in order. */
  function AsdusOf(ps: seq<Piece>): seq<Asdu> {
    if ps == [] then []
    else AsduList(AsduOf(ps[0].asdu)) + AsdusOf(ps[1..])
  }

  /** The claimed ASDU count and where the ASDUs start, from the APDU's contents. */
  datatype Inner = Inner(count: nat, data: bytes, offset: nat)

  function SkipCount(apdu: bytes): Inner {
    if apdu != [] && apdu[0] == 0x80 && ReadTlv(apdu, 0).Ok? then
      var r := ReadTlv(apdu, 0).value;
      Inner(match Integer32(r.tlv.data) case Ok(v) => v case Err(_) => 1, apdu, r.next)
    else Inner(1, apdu, 0)
  }

  function EnterSequence(n: Inner): Inner {
    if n.offset < |n.data| && (n.data[n.offset] == 0xA2 || n.data[n.offset] == 0x30) && ReadTlv(n.data, n.offset).Ok? then
      Inner(n.count, ReadTlv(n.data, n.offset).value.tlv.data, 0)
    else n
  }

  function WithFallback(p: SvPayload, inner: bytes): SvPayload {
    if p.asdus != [] then p
    else match AsduOf(inner)
      case Ok(a) => if a.numSamples > 0 then SvPayload(1, [a]) else p
      case Err(_) => p
  }

  /** What `ParseAPDU` computes from the contents of the outer TLV. */
  function PayloadOf(apdu: bytes): SvPayload {
    var n := EnterSequence(SkipCount(apdu));
    WithFallback(SvPayload(n.count, AsdusOf(Pieces(n.data, n.offset, 0, n.count))), n.data)
  }

  /** A payload without ASDUs means that even its bytes taken as one ASDU hold no sample; without a count in front one
      ASDU is claimed; and several are never more than claimed. */
  lemma PayloadSays(apdu: bytes)
    ensures var p, n := PayloadOf(apdu), EnterSequence(SkipCount(apdu));
            && (p.asdus == [] ==> AsduOf(n.data).Err? || AsduOf(n.data).value.numSamples == 0)
            && (apdu == [] || apdu[0] != 0x80 ==> p.asduCount == 1)
            && (|p.asdus| > 1 ==> |p.asdus| <= p.asduCount)
  {
    var n := EnterSequence(SkipCount(apdu));
    PiecesTile(n.data, n.offset, 0, n.count);
    AsdusFewer(Pieces(n.data, n.offset, 0, n.count));
  }

  lemma {:induction false} AsdusFewer(ps: seq<Piece>)
    ensures |AsdusOf(ps)| <= |ps|
  {
    if ps != [] { AsdusFewer(ps[1..]); }
  }

  function ApduOf(buf: bytes, offset: nat): Result<SvPayload> {
    match ReadTlv(buf, offset)
    case Err(e) => Err(e)
    case Ok(r) => Ok(PayloadOf(r.tlv.data))
  }

  /** The payload, and where the outer TLV ends. */
  method ParseApdu(buf: bytes, offset: nat) returns (r: Result<SvPayload>, newOffset: nat)
    ensures r == ApduOf(buf, offset)
    ensures newOffset == match ReadTlv(buf, offset) case Ok(outer) => outer.next case Err(_) => offset
  {
    var outer := ReadTlv(buf, offset);
    if outer.Err? {
      return Err(outer.error), offset;
    }
    var innerData, innerOffset, asduCount := outer.value.tlv.data, 0, 1;
    if innerOffset < |innerData| && innerData[innerOffset] == 0x80 {
      var t := ReadTlv(innerData, innerOffset);
      if t.Ok? {
        var cv := DecodeInteger32(t.value.tlv.data);
        if cv.Ok? {
          asduCount := cv.value;
        }
        innerOffset := t.value.next;
      }
    }
    if innerOffset < |innerData| && (innerData[innerOffset] == 0xA2 || innerData[innerOffset] == 0x30) {
      var t := ReadTlv(innerData, innerOffset);
      if t.Ok? {
        innerData := t.value.tlv.data;
        innerOffset := 0;
      }
    }
    assert Inner(asduCount, innerData, innerOffset) == EnterSequence(SkipCount(outer.value.tlv.data));
    var asdus := CutAsdus(innerData, innerOffset, asduCount);
    if asdus == [] {
      var fallback := ParseSvAsdu(innerData);
      if fallback.Ok? && fallback.value.numSamples > 0 {
        asduCount := 1;
        asdus := [fallback.value];
      }
    }
    return Ok(SvPayload(asduCount, asdus)), outer.value.next;
  }

  function AsduList(r: Result<Asdu>): seq<Asdu> { match r case Ok(a) => [a] case Err(_) => [] }

  lemma AsdusCons(p: Piece, ps: seq<Piece>)
    ensures AsdusOf([p] + ps) == AsduList(AsduOf(p.asdu)) + AsdusOf(ps)
  {
    assert ([p] + ps)[1..] == ps;
  }

  /** One round of the loop of `ParseAPDU`. */
  method CutPiece(innerData: bytes, innerOffset: nat, i: nat, asduCount: nat) returns (piece: Option<Piece>)
    requires i < asduCount && innerOffset < |innerData|
    ensures match piece
            case Some(p) =>
              && p.end > innerOffset
              && Pieces(innerData, innerOffset, i, asduCount) == [p] + Pieces(innerData, p.end, i + 1, asduCount)
            case None => Pieces(innerData, innerOffset, i, asduCount) == []
  {
    if innerData[innerOffset] == 0x30 {
      var t := ReadTlv(innerData, innerOffset);
      if t.Err? {
        return None;
      }
      return Some(Piece(innerOffset, t.value.next, t.value.tlv.data));
    } else {
      var end := innerOffset + Guess(|innerData| - innerOffset, asduCount - i);
      return Some(Piece(innerOffset, end, innerData[innerOffset..end]));
    }
  }

  /** The loop of `ParseAPDU`. */
  method CutAsdus(innerData: bytes, start: nat, asduCount: nat) returns (asdus: seq<Asdu>)
    ensures asdus == AsdusOf(Pieces(innerData, start, 0, asduCount))
  {
    var innerOffset, i := start, 0;
    asdus := [];
    ghost var rest := Pieces(innerData, start, 0, asduCount);
    ghost var want := AsdusOf(rest);
    while i < asduCount && innerOffset < |innerData|
      invariant rest == Pieces(innerData, innerOffset, i, asduCount) && asdus + AsdusOf(rest) == want
      decreases |innerData| - innerOffset
    {
      var piece := CutPiece(innerData, innerOffset, i, asduCount);
      if piece == None {
        break;
      }
      var asdu := ParseSvAsdu(piece.value.asdu);
      rest := Collect(asdus, piece.value, Pieces(innerData, piece.value.end, i + 1, asduCount), asdu);
      asdus := asdus + AsduList(asdu);
      innerOffset := piece.value.end;
      i := i + 1;
    }
  }

  lemma Collect(asdus: seq<Asdu>, p: Piece, ps: seq<Piece>, asdu: Result<Asdu>) returns (rest: seq<Piece>)
    requires asdu == AsduOf(p.asdu)
    ensures rest == ps && asdus + AsduList(asdu) + AsdusOf(rest) == asdus + AsdusOf([p] + ps)
  {
    rest := ps;
    AsdusCons(p, ps);
    assert asdus + AsduList(asdu) + AsdusOf(ps) == asdus + (AsduList(asdu) + AsdusOf(ps));
  }

  /** The pieces are disjoint, in order, nonempty, inside the buffer, and leave no gap between them. */
  ghost predicate Tiles(ps: seq<Piece>, offset: nat, limit: nat) {
    ps == [] ||
    (ps[0].start == offset < ps[0].end <= limit && |ps[0].asdu| <= ps[0].end - offset && Tiles(ps[1..], ps[0].end, limit))
  }

  /** For any claimed count, and never more of them than claimed. */
  lemma {:induction false} PiecesTile(inner: bytes, offset: nat, i: nat, count: nat)
    ensures Tiles(Pieces(inner, offset, i, count), offset, |inner|)
    ensures i <= count ==> |Pieces(inner, offset, i, count)| <= count - i
    decreases |inner| - offset
  {
    var ps := Pieces(inner, offset, i, count);
    if ps != [] {
      assert ps[1..] == Pieces(inner, ps[0].end, i + 1, count);
      PiecesTile(inner, ps[0].end, i + 1, count);
    }
  }

  /** The loop stops because the count is reached, the bytes are used up, or a framed ASDU does not parse. */
  lemma {:induction false} PiecesExhaust(inner: bytes, offset: nat, i: nat, count: nat)
    requires offset <= |inner|
    ensures var ps := Pieces(inner, offset, i, count);
            var end := if ps == [] then offset else ps[|ps| - 1].end;
            end <= |inner| && (i + |ps| >= count || end == |inner| || (inner[end] == 0x30 && ReadTlv(inner, end).Err?))
    decreases |inner| - offset
  {
    var ps := Pieces(inner, offset, i, count);
    if ps != [] {
      assert ps[1..] == Pieces(inner, ps[0].end, i + 1, count);
      PiecesExhaust(inner, ps[0].end, i + 1, count);
    }
  }

  // ---- headers and samples -------------------------------------------------------------------------------

  function U16(buf: bytes, offset: nat): nat
    requires offset + 2 <= |buf|
  {
    (buf[offset] as nat) * 256 + buf[offset + 1] as nat
  }

  const NO_MAC: bytes := [0, 0, 0, 0, 0, 0]

  /** The frame object the header parser writes into. */
  class RawFrame {
    const rxTimeNs: nat
    const payload: bytes
    const length: nat
    var etherType: nat
    var dstMac: bytes
    var srcMac: bytes

    constructor (rxTimeNs: nat, payload: bytes, length: nat, etherType: nat)
      ensures this.rxTimeNs == rxTimeNs && this.payload == payload && this.length == length && this.etherType == etherType
    {
      this.rxTimeNs, this.payload, this.length, this.etherType := rxTimeNs, payload, length, etherType;
      dstMac, srcMac := NO_MAC, NO_MAC;
    }
  }

  datatype Ethernet = Ethernet(etherType: nat, offset: nat)

  /** `ParseEthernetHeader`: the EtherType behind at most one 802.1Q tag must be SV or GOOSE. */
  function EthernetOf(payload: bytes, length: nat): Result<Ethernet>
    requires length <= |payload|
  {
    if length < 14 then Err(FrameTooShort)
    else
      var tagged := U16(payload, 12) == 0x8100;
      if tagged && length < 18 then Err(FrameTooShort)
      else
        var ethertype := if tagged then U16(payload, 16) else U16(payload, 12);
        if ethertype != 0x88BA && ethertype != 0x88B8 then Err(InvalidEtherType)
        else Ok(Ethernet(ethertype, if tagged then 18 else 14))
  }

  method ParseEthernetHeader(raw: RawFrame) returns (r: Result<nat>)
    requires raw.length <= |raw.payload|
    modifies raw
    ensures r == match EthernetOf(raw.payload, raw.length) case Ok(e) => Ok(e.offset) case Err(e) => Err(e)
    ensures r.Ok? ==> raw.etherType == EthernetOf(raw.payload, raw.length).value.etherType
    ensures raw.length >= 18 ==>
              var tagged := raw.payload[12] == 0x81 && raw.payload[13] == 0x00;
              var at := if tagged then 16 else 12;
              r == if raw.payload[at] == 0x88 && raw.payload[at + 1] in {0xBA, 0xB8} then Ok(at + 2) else Err(InvalidEtherType)
    ensures raw.length >= 14 ==> raw.dstMac == raw.payload[0..6] && raw.srcMac == raw.payload[6..12]
  {
    if raw.length < 14 {
      return Err(FrameTooShort);
    }
    raw.dstMac := raw.payload[0..6];
    raw.srcMac := raw.payload[6..12];
    raw.etherType := U16(raw.payload, 12);
    var offset := 14;
    if raw.etherType == 0x8100 {
      if raw.length < 18 {
        return Err(FrameTooShort);
      }
      raw.etherType := U16(raw.payload, 16);
      offset := 18;
    }
    if raw.etherType != 0x88BA && raw.etherType != 0x88B8 {
      return Err(InvalidEtherType);
    }
    return Ok(offset);
  }

  datatype SvHeader = SvHeader(appId: nat, length: nat, reserved1: nat, reserved2: nat)

  function HeaderOf(payload: bytes, offset: nat): Result<SvHeader> {
    if offset + 8 > |payload| then Err(FrameTooShort)
    else Ok(SvHeader(U16(payload, offset), U16(payload, offset + 2), U16(payload, offset + 4), U16(payload, offset + 6)))
  }

  datatype WaveSample = WaveSample(timestampNs: nat, voltage: real, current: real, seqNo: nat)

  datatype Decoder = Decoder(voltageScale: real, currentScale: real)

  function Scaled(raw: int, scale: real): real { raw as real * scale }

  /** Sample `i` of the sequence data: current, then voltage, four octets each. */
  function SampleAt(d: Decoder, asdu: Asdu, rxTimeNs: nat, i: nat): WaveSample
    requires 8 * i + 8 <= |asdu.seqData|
  {
    WaveSample(
      (rxTimeNs + i * SAMPLE_INTERVAL_NS) % WORD64,
      Scaled(ToInt32(BigEndian(asdu.seqData[8 * i + 4..8 * i + 8])), d.voltageScale),
      Scaled(ToInt32(BigEndian(asdu.seqData[8 * i..8 * i + 4])), d.currentScale),
      (asdu.smpCnt + i) % WORD32)
  }

  /** What eight octets say: four of current and four of voltage, each a signed word times its scale. */
  ghost predicate SampleSays(s: WaveSample, d: Decoder, octets: bytes, smpCnt: nat, rxTimeNs: nat, i: nat) {
    |octets| == 8 && SampleHas(s, d, SignedWord(octets[0], octets[1], octets[2], octets[3]),
                               SignedWord(octets[4], octets[5], octets[6], octets[7]), smpCnt, rxTimeNs, i)
  }

  ghost predicate SampleHas(s: WaveSample, d: Decoder, current: int, voltage: int, smpCnt: nat, rxTimeNs: nat, i: nat) {
    && s.timestampNs == (rxTimeNs + 10_000 * i) % 0x1_0000_0000_0000_0000 && s.seqNo == (smpCnt + i) % 0x1_0000_0000
    && s.current == current as real * d.currentScale && s.voltage == voltage as real * d.voltageScale
  }

  /** Four octets, the first one signed. */
  function SignedWord(a: byte, b: byte, c: byte, d: byte): int {
    if a < 0x80 then Word(a, b, c, d) else Word(a, b, c, d) - 0x1_0000_0000
  }

  lemma SignedOctets(bs: bytes, a: byte, b: byte, c: byte, d: byte)
    requires bs == [a, b, c, d]
    ensures ToInt32(BigEndian(bs)) == SignedWord(a, b, c, d)
  {
    FourOctets(a, b, c, d);
  }

  lemma SampleIs(d: Decoder, asdu: Asdu, rxTimeNs: nat, i: nat)
    requires 8 * i + 8 <= |asdu.seqData|
    ensures SampleSays(SampleAt(d, asdu, rxTimeNs, i), d, asdu.seqData[8 * i..8 * i + 8], asdu.smpCnt, rxTimeNs, i)
  {
    var o := asdu.seqData[8 * i..8 * i + 8];
    Halves(asdu.seqData, 8 * i);
    SignedOctets(asdu.seqData[8 * i..8 * i + 4], o[0], o[1], o[2], o[3]);
    SignedOctets(asdu.seqData[8 * i + 4..8 * i + 8], o[4], o[5], o[6], o[7]);
    WordsAre(d, asdu, rxTimeNs, i, SignedWord(o[0], o[1], o[2], o[3]), SignedWord(o[4], o[5], o[6], o[7]));
  }

  lemma WordsAre(d: Decoder, asdu: Asdu, rxTimeNs: nat, i: nat, current: int, voltage: int)
    requires 8 * i + 8 <= |asdu.seqData|
    requires ToInt32(BigEndian(asdu.seqData[8 * i..8 * i + 4])) == current
    requires ToInt32(BigEndian(asdu.seqData[8 * i + 4..8 * i + 8])) == voltage
    ensures SampleHas(SampleAt(d, asdu, rxTimeNs, i), d, current, voltage, asdu.smpCnt, rxTimeNs, i)
  {
  }

  lemma Halves(data: bytes, at: nat)
    requires at + 8 <= |data|
    ensures var octets := data[at..at + 8];
            && data[at..at + 4] == [octets[0], octets[1], octets[2], octets[3]]
            && data[at + 4..at + 8] == [octets[4], octets[5], octets[6], octets[7]]
  {
  }

  function SamplesOf(d: Decoder, asdu: Asdu, rxTimeNs: nat): (s: seq<WaveSample>)
    ensures |s| == |asdu.seqData| / 8
  {
    seq(|asdu.seqData| / 8, i requires 0 <= i < |asdu.seqData| / 8 => SampleAt(d, asdu, rxTimeNs, i))
  }

  method ExtractSamples(d: Decoder, asdu: Asdu, rxTimeNs: nat) returns (samples: seq<WaveSample>)
    ensures samples == SamplesOf(d, asdu, rxTimeNs)
    ensures |samples| == |asdu.seqData| / 8
    ensures forall i :: 0 <= i < |samples| ==> SampleSays(samples[i], d, asdu.seqData[8 * i..8 * i + 8], asdu.smpCnt, rxTimeNs, i)
  {
    if |asdu.seqData| < 8 {
      return [];
    }
    var numSamples := |asdu.seqData| / 8;
    samples := [];
    for i := 0 to numSamples
      invariant samples == SamplesOf(d, asdu, rxTimeNs)[..i]
    {
      samples := samples + [SampleAt(d, asdu, rxTimeNs, i)];
    }
    forall i | 0 <= i < |samples| ensures SampleSays(samples[i], d, asdu.seqData[8 * i..8 * i + 8], asdu.smpCnt, rxTimeNs, i) {
      SampleIs(d, asdu, rxTimeNs, i);
    }
  }

  /** A time on the publisher's clock, or on the receiver's when the ASDU carries none, and nanoseconds after it. */
  datatype Instant = Instant(refrTm: Option<UtcTime>, afterNs: nat)

  datatype DataElement = DataElement(time: Instant, quality: nat, voltage: real, current: real, statusBits: nat)

  /** The samples again, with good quality, at the nominal distance from the reference time on. */
  function ElementsOf(refrTm: Option<UtcTime>, samples: seq<WaveSample>): (es: seq<DataElement>)
    ensures |es| == |samples|
  {
    seq(|samples|, i requires 0 <= i < |samples| =>
      DataElement(Instant(refrTm, i * SAMPLE_INTERVAL_NS), 0, samples[i].voltage, samples[i].current, 0))
  }

  method ListElements(refrTm: Option<UtcTime>, samples: seq<WaveSample>) returns (es: seq<DataElement>)
    ensures es == ElementsOf(refrTm, samples)
  {
    es := [];
    for i := 0 to |samples|
      invariant es == ElementsOf(refrTm, samples)[..i]
    {
      es := es + [DataElement(Instant(refrTm, i * SAMPLE_INTERVAL_NS), 0, samples[i].voltage, samples[i].current, 0)];
    }
  }

  datatype ParsedAsdu = ParsedAsdu(typeId: nat, sqc: nat, cot: nat, addr: nat, seqNo: nat, elements: seq<DataElement>)

  datatype Decoded = Decoded(parsed: ParsedAsdu, samples: seq<WaveSample>)

  /** What the decoder makes of a header and a payload. */
  function Assemble(d: Decoder, header: Result<SvHeader>, payload: Result<SvPayload>, rxTimeNs: nat): Result<Decoded> {
    match header
    case Err(e) => Err(e)
    case Ok(hdr) =>
      match payload
      case Err(e) => Err(e)
      case Ok(p) =>
        if p.asdus == [] then Err(UnsupportedAsdu)
        else
          var a := p.asdus[0];
          var samples := SamplesOf(d, a, rxTimeNs);
          var elements := ElementsOf(a.refrTm, samples);
          Ok(Decoded(ParsedAsdu(hdr.appId % 256, a.smpSynch, a.confRev % 256, a.confRev, a.smpCnt, elements), samples))
  }

  /** What the header fields of a result are taken from, and that its elements repeat its samples. */
  ghost predicate Carries(r: Decoded, appIdLow: nat, a: Asdu) {
    && r.parsed.typeId == appIdLow && r.parsed.sqc == a.smpSynch && r.parsed.cot == a.confRev % 256 && r.parsed.addr == a.confRev
    && r.parsed.seqNo == a.smpCnt && |r.parsed.elements| == |r.samples| == |a.seqData| / 8
    && forall i :: 0 <= i < |r.samples| ==>
         r.parsed.elements[i] == DataElement(Instant(a.refrTm, 10_000 * i), 0, r.samples[i].voltage, r.samples[i].current, 0)
  }

  /** Everything after the Ethernet header. */
  function DecodeFrom(d: Decoder, payload: bytes, offset: nat, rxTimeNs: nat): Result<Decoded> {
    Assemble(d, HeaderOf(payload, offset), ApduOf(payload, offset + 8), rxTimeNs)
  }

  function DecodeOf(d: Decoder, payload: bytes, length: nat, rxTimeNs: nat): Result<Decoded>
    requires length <= |payload|
  {
    match EthernetOf(payload, length)
    case Err(e) => Err(e)
    case Ok(e) => DecodeFrom(d, payload, e.offset, rxTimeNs)
  }

  lemma AssembledCarries(d: Decoder, header: Result<SvHeader>, payload: Result<SvPayload>, rxTimeNs: nat)
    requires Assemble(d, header, payload, rxTimeNs).Ok?
    ensures header.Ok? && payload.Ok? && payload.value.asdus != []
    ensures Carries(Assemble(d, header, payload, rxTimeNs).value, header.value.appId % 256, payload.value.asdus[0])
  {
  }

  lemma LowOctet(payload: bytes, at: nat)
    requires HeaderOf(payload, at).Ok?
    ensures at + 8 <= |payload| && HeaderOf(payload, at).value.appId % 256 == payload[at + 1]
  {
  }

  /** Where the fields of a decoded frame come from: the low octet of the application identifier and the first ASDU. */
  lemma DecodedCarries(d: Decoder, payload: bytes, length: nat, rxTimeNs: nat)
    requires length <= |payload| && DecodeOf(d, payload, length, rxTimeNs).Ok?
    ensures EthernetOf(payload, length).Ok?
    ensures var at := EthernetOf(payload, length).value.offset;
            && at + 8 <= |payload| && ApduOf(payload, at + 8).Ok? && ApduOf(payload, at + 8).value.asdus != []
            && Carries(DecodeOf(d, payload, length, rxTimeNs).value, payload[at + 1], ApduOf(payload, at + 8).value.asdus[0])
  {
    var at := EthernetOf(payload, length).value.offset;
    AssembledCarries(d, HeaderOf(payload, at), ApduOf(payload, at + 8), rxTimeNs);
    LowOctet(payload, at);
  }

  method DecodeFull(d: Decoder, raw: RawFrame) returns (r: Result<Decoded>)
    requires raw.length <= |raw.payload|
    modifies raw
    ensures r == DecodeOf(d, raw.payload, raw.length, raw.rxTimeNs)
  {
    var eth := ParseEthernetHeader(raw);
    if eth.Err? {
      return Err(eth.error);
    }
    var hdr := HeaderOf(raw.payload, eth.value);
    if hdr.Err? {
      return Err(hdr.error);
    }
    var p, _ := ParseApdu(raw.payload, eth.value + 8);
    if p.Err? {
      return Err(p.error);
    }
    if |p.value.asdus| == 0 {
      return Err(UnsupportedAsdu);
    }
    var a := p.value.asdus[0];
    var samples := ExtractSamples(d, a, raw.rxTimeNs);
    var elements := ListElements(a.refrTm, samples);
    return Ok(Decoded(ParsedAsdu(hdr.value.appId % 256, a.smpSynch, a.confRev % 256, a.confRev, a.smpCnt, elements), samples));
  }

  // ---- 802.1Q tags ---------------------------------------------------------------------------------------

  lemma ApduShift(pre: bytes, buf: bytes, offset: nat, at: nat)
    requires at == |pre| + offset
    ensures ApduOf(pre + buf, at) == ApduOf(buf, offset)
  {
    ReadShift(pre, buf, offset);
    SameContents(pre + buf, at, buf, offset);
  }

  lemma SameContents(a: bytes, i: nat, b: bytes, j: nat)
    requires ReadTlv(a, i).Ok? <==> ReadTlv(b, j).Ok?
    requires ReadTlv(a, i).Ok? ==> ReadTlv(a, i).value.tlv == ReadTlv(b, j).value.tlv
    requires ReadTlv(a, i).Err? ==> ReadTlv(a, i) == ReadTlv(b, j)
    ensures ApduOf(a, i) == ApduOf(b, j)
  {
  }

  lemma HeaderShift(pre: bytes, buf: bytes, offset: nat)
    ensures HeaderOf(pre + buf, |pre| + offset) == HeaderOf(buf, offset)
  {
    assert forall i :: 0 <= i < |buf| ==> (pre + buf)[|pre| + i] == buf[i];
  }

  /** Nothing before the offset matters. */
  lemma DropPrefix(buf: bytes, offset: nat, rest: bytes)
    requires offset <= |buf| && rest == buf[offset..]
    ensures HeaderOf(buf, offset) == HeaderOf(rest, 0) && ApduOf(buf, offset + 8) == ApduOf(rest, 8)
  {
    assert buf == buf[..offset] + rest;
    ApduShift(buf[..offset], rest, 8, offset + 8);
    HeaderShift(buf[..offset], rest, 0);
  }

  /** Decoding depends only on what stands from the offset on. */
  lemma DecodeShift(d: Decoder, a: bytes, i: nat, b: bytes, j: nat, rxTimeNs: nat)
    requires i <= |a| && j <= |b| && a[i..] == b[j..]
    ensures DecodeFrom(d, a, i, rxTimeNs) == DecodeFrom(d, b, j, rxTimeNs)
  {
    DropPrefix(a, i, a[i..]);
    DropPrefix(b, j, a[i..]);
    SameParts(d, a, i, b, j, rxTimeNs);
  }

  lemma SameParts(d: Decoder, a: bytes, i: nat, b: bytes, j: nat, rxTimeNs: nat)
    requires HeaderOf(a, i) == HeaderOf(b, j) && ApduOf(a, i + 8) == ApduOf(b, j + 8)
    ensures DecodeFrom(d, a, i, rxTimeNs) == DecodeFrom(d, b, j, rxTimeNs)
  {
  }

  function InsertVlan(payload: bytes, tci: bytes): bytes
    requires |payload| >= 12
  {
    payload[..12] + ([0x81, 0x00] + tci) + payload[12..]
  }

  /** Inserting a tag after the addresses of an untagged frame changes nothing that is decoded. */
  lemma VlanTransparent(d: Decoder, payload: bytes, tci: bytes, rxTimeNs: nat)
    requires |payload| >= 14 && |tci| == 2 && U16(payload, 12) != 0x8100
    ensures DecodeOf(d, InsertVlan(payload, tci), |payload| + 4, rxTimeNs) == DecodeOf(d, payload, |payload|, rxTimeNs)
  {
    var macs, rest := payload[..12], payload[12..];
    var tag := [0x81, 0x00] + tci;
    VlanHeader(macs, tag, rest);
    assert payload == macs + rest && InsertVlan(payload, tci) == (macs + tag) + rest;
    assert payload[14..] == rest[2..] == InsertVlan(payload, tci)[18..];
    DecodeShift(d, InsertVlan(payload, tci), 18, payload, 14, rxTimeNs);
  }

  lemma VlanHeader(macs: bytes, tag: bytes, rest: bytes)
    requires |macs| == 12 && |tag| == 4 && tag[0] == 0x81 && tag[1] == 0x00 && |rest| >= 2 && U16(rest, 0) != 0x8100
    ensures U16(macs + rest, 12) == U16(rest, 0)
    ensures var a, b := EthernetOf((macs + tag) + rest, |rest| + 16), EthernetOf(macs + rest, |rest| + 12);
            (a.Ok? <==> b.Ok?) && (a.Ok? ==> a.value.offset == 18 && b.value.offset == 14) && (a.Err? ==> a == b)
  {
    var p, q := (macs + tag) + rest, macs + rest;
    assert p[12] == 0x81 && p[13] == 0x00 && p[16] == rest[0] && p[17] == rest[1];
    assert q[12] == rest[0] && q[13] == rest[1];
  }

  /** A frame that already carries a tag is always refused with a second one. */
  lemma DoubleTagRefused(d: Decoder, payload: bytes, tci: bytes, rxTimeNs: nat)
    requires |payload| >= 14 && |tci| == 2 && U16(payload, 12) == 0x8100
    ensures DecodeOf(d, InsertVlan(payload, tci), |payload| + 4, rxTimeNs) == Err(InvalidEtherType)
  {
    var p := InsertVlan(payload, tci);
    assert p[12] == 0x81 && p[13] == 0x00 && p[16] == payload[12] && p[17] == payload[13];
  }

  /** So a tag changes nothing exactly for an untagged frame and for one that is refused for its type anyway. */
  lemma VlanHarmlessIff(d: Decoder, payload: bytes, tci: bytes, rxTimeNs: nat)
    requires |payload| >= 14 && |tci| == 2
    ensures DecodeOf(d, InsertVlan(payload, tci), |payload| + 4, rxTimeNs) == DecodeOf(d, payload, |payload|, rxTimeNs) <==>
            (U16(payload, 12) != 0x8100 || DecodeOf(d, payload, |payload|, rxTimeNs) == Err(InvalidEtherType))
  {
    if U16(payload, 12) != 0x8100 {
      VlanTransparent(d, payload, tci, rxTimeNs);
    } else {
      DoubleTagRefused(d, payload, tci, rxTimeNs);
    }
  }
}
