/** The frame builder of the capture simulator, and the round trip through the decoder. */
module SvFrame {
  import opened Basics
  import opened Ber
  import opened SvDecoder

  datatype RawSample = RawSample(current: int, voltage: int)

  predicate IsInt32(v: int) { -WORD32 / 2 <= v < WORD32 / 2 }

  predicate Int32Samples(raws: seq<RawSample>) {
    forall r :: r in raws ==> IsInt32(r.current) && IsInt32(r.voltage)
  }

  /** The four octets of a 32-bit word, most significant first. */
  function WordBytes(v: int): (bs: bytes)
    ensures |bs| == 4
  {
    var w := v % WORD32;
    [(w / 0x100_0000) % 256, (w / 0x1_0000) % 256, (w / 0x100) % 256, w % 256]
  }

  lemma WordRoundTrip(v: int)
    ensures BigEndian(WordBytes(v)) == v % WORD32
    ensures IsInt32(v) ==> ToInt32(BigEndian(WordBytes(v))) == v
    ensures Integer32(WordBytes(v)) == Ok(v % WORD32)
  {
    WordIs(v);
    assert Pow256(1) == 256 && Pow256(2) == 65536;
    assert Pow256(3) == 16777216 && Pow256(4) == WORD32;
  }

  lemma WordIs(v: int)
    ensures BigEndian(WordBytes(v)) == v % WORD32
  {
    var bs := WordBytes(v);
    assert bs == [bs[0], bs[1], bs[2], bs[3]];
    FourOctets(bs[0], bs[1], bs[2], bs[3]);
    FourDigits(v % WORD32);
  }

  lemma FourDigits(w: nat)
    requires w < WORD32
    ensures Word((w / 0x100_0000) % 256, (w / 0x1_0000) % 256, (w / 0x100) % 256, w % 256) == w
  {
    assert w / 0x1_0000 == (w / 0x100) / 256 && w / 0x100_0000 == (w / 0x1_0000) / 256;
  }

  const SVID: bytes := [0x57, 0x42, 0x42, 0x4F, 0x4E, 0x44, 0x30, 0x31]

  function SampleBytes(r: RawSample): (bs: bytes)
    ensures |bs| == 8
  {
    WordBytes(r.current) + WordBytes(r.voltage)
  }

  function SeqData(raws: seq<RawSample>): (bs: bytes)
    ensures |bs| == 8 * |raws|
  {
    if raws == [] then [] else SeqData(raws[..|raws| - 1]) + SampleBytes(raws[|raws| - 1])
  }

  function AsduTlvs(smpcnt: nat, raws: seq<RawSample>): seq<Tlv> {
    [Tlv(0x80, SVID), Tlv(0x82, WordBytes(smpcnt)), Tlv(0x83, [0, 0, 0, 1]), Tlv(0x85, [1]), Tlv(0x87, SeqData(raws))]
  }

  function AsduHead(smpcnt: nat): (bs: bytes)
    ensures |bs| == 25
  {
    WriteTlv(0x80, SVID) + WriteTlv(0x82, WordBytes(smpcnt)) + WriteTlv(0x83, [0, 0, 0, 1]) + WriteTlv(0x85, [1])
  }

  function AsduBytes(smpcnt: nat, raws: seq<RawSample>): bytes { AsduHead(smpcnt) + WriteTlv(0x87, SeqData(raws)) }

  function SequenceBytes(smpcnt: nat, raws: seq<RawSample>): bytes { WriteTlv(0x30, AsduBytes(smpcnt, raws)) }

  function InnerBytes(smpcnt: nat, raws: seq<RawSample>): bytes {
    WriteTlv(0x80, [1]) + WriteTlv(0xA2, SequenceBytes(smpcnt, raws))
  }

  function HeaderBytes(apduLen: nat): (bs: bytes)
    ensures |bs| == 22
  {
    [1, 1, 1, 1, 1, 1] + [2, 2, 2, 2, 2, 2] + [0x88, 0xBA] +
    [0x00, 0x01] + [(apduLen / 256) % 256, apduLen % 256] + [0, 0, 0, 0]
  }

  function FrameBytes(smpcnt: nat, raws: seq<RawSample>): bytes {
    var apdu := WriteTlv(0x60, InnerBytes(smpcnt, raws));
    HeaderBytes(|apdu|) + apdu
  }

  /** The fixed octets of a frame: both addresses, the EtherType, application identifier one, the length of what
      follows the header, and the tag of the APDU. */
  lemma FrameStarts(smpcnt: nat, raws: seq<RawSample>)
    ensures var p := FrameBytes(smpcnt, raws);
            && |p| > 22 && p[..16] == [1, 1, 1, 1, 1, 1, 2, 2, 2, 2, 2, 2, 0x88, 0xBA, 0, 1]
            && Word(0, 0, p[16], p[17]) == (|p| - 22) % 65536 && p[18..23] == [0, 0, 0, 0, 0x60]
  {
    var apdu := WriteTlv(0x60, InnerBytes(smpcnt, raws));
    HeaderIs(|apdu|);
    assert FrameBytes(smpcnt, raws)[..22] == HeaderBytes(|apdu|);
    assert FrameBytes(smpcnt, raws)[22] == apdu[0];
    TwoDigits(|apdu|);
  }

  lemma HeaderIs(n: nat)
    ensures HeaderBytes(n) == [1, 1, 1, 1, 1, 1, 2, 2, 2, 2, 2, 2, 0x88, 0xBA, 0, 1, (n / 256) % 256, n % 256, 0, 0, 0, 0]
  {
  }

  /** The ASDU block of `buildSVFramePureGo`, on raw samples instead of a synthesised sine. */
  method BuildAsdu(smpcnt: nat, raws: seq<RawSample>) returns (asdu: bytes)
    ensures asdu == AsduBytes(smpcnt, raws)
  {
    asdu := [];
    ShortTlv(asdu, 0x80, SVID);
    asdu := asdu + [0x80, 8] + SVID;
    ShortTlv(asdu, 0x82, WordBytes(smpcnt));
    asdu := asdu + [0x82, 0x04] + WordBytes(smpcnt);
    ShortTlv(asdu, 0x83, [0, 0, 0, 1]);
    asdu := asdu + [0x83, 0x04] + [0x00, 0x00, 0x00, 0x01];
    ShortTlv(asdu, 0x85, [1]);
    asdu := asdu + [0x85, 0x01] + [0x01];
    NoPrefix(WriteTlv(0x80, SVID));
    var seqData := BuildSeqData(raws);
    LongTlv(asdu, 0x87, seqData);
    asdu := asdu + [0x87] + WriteLength(|seqData|) + seqData;
  }

  lemma NoPrefix(a: bytes)
    ensures [] + a == a
  {
  }

  lemma ShortTlv(buf: bytes, tag: byte, data: bytes)
    requires |data| < 0x80
    ensures buf + [tag, |data|] + data == buf + WriteTlv(tag, data)
  {
  }

  lemma LongTlv(buf: bytes, tag: byte, data: bytes)
    ensures buf + [tag] + WriteLength(|data|) + data == buf + WriteTlv(tag, data)
  {
  }

  method BuildSeqData(raws: seq<RawSample>) returns (seqData: bytes)
    ensures seqData == SeqData(raws)
  {
    seqData := [];
    for i := 0 to |raws|
      invariant seqData == SeqData(raws[..i])
    {
      assert raws[..i + 1][..i] == raws[..i];
      seqData := seqData + (WordBytes(raws[i].current) + WordBytes(raws[i].voltage));
    }
    assert raws[..|raws|] == raws;
  }

  /** `buildSVFramePureGo`. */
  method BuildFrame(smpcnt: nat, raws: seq<RawSample>, rxNs: nat) returns (rf: RawFrame)
    ensures fresh(rf) && rf.rxTimeNs == rxNs && rf.payload == FrameBytes(smpcnt, raws)
    ensures rf.length == |rf.payload| && rf.etherType == 0x88BA
    ensures rf.dstMac == rf.payload[0..6] && rf.srcMac == rf.payload[6..12]
  {
    var asdu := BuildAsdu(smpcnt, raws);
    var seqAsdu := [0x30] + WriteLength(|asdu|);
    seqAsdu := seqAsdu + asdu;
    var apduInner := [0x80, 0x01, 0x01] + [0xA2];
    apduInner := apduInner + WriteLength(|seqAsdu|);
    apduInner := apduInner + seqAsdu;
    InnerLayout(seqAsdu);
    var apdu := [0x60] + WriteLength(|apduInner|);
    apdu := apdu + apduInner;
    var buf: bytes := [1, 1, 1, 1, 1, 1] + [2, 2, 2, 2, 2, 2] + [0x88, 0xBA] + [0x00, 0x01];
    buf := buf + [(|apdu| / 256) % 256, |apdu| % 256];
    buf := buf + [0, 0, 0, 0];
    buf := buf + apdu;
    rf := new RawFrame(rxNs, buf, |buf|, 0x88BA);
    rf.dstMac, rf.srcMac := [1, 1, 1, 1, 1, 1], [2, 2, 2, 2, 2, 2];
  }

  lemma InnerLayout(seqAsdu: bytes)
    ensures [0x80, 0x01, 0x01] + [0xA2] + WriteLength(|seqAsdu|) + seqAsdu == WriteTlv(0x80, [1]) + WriteTlv(0xA2, seqAsdu)
  {
  }

  lemma {:induction false} WriteSnoc(ts: seq<Tlv>, t: Tlv)
    ensures WriteAll(ts + [t]) == WriteAll(ts) + WriteTlv(t.tag, t.data)
  {
    if ts == [] {
      assert ([t])[1..] == [];
    } else {
      assert (ts + [t])[1..] == ts[1..] + [t];
      WriteSnoc(ts[1..], t);
      Assoc(WriteTlv(ts[0].tag, ts[0].data), WriteAll(ts[1..]), WriteTlv(t.tag, t.data));
    }
  }

  lemma WriteOne(t: Tlv)
    ensures WriteAll([t]) == WriteTlv(t.tag, t.data)
  {
    assert [t][1..] == [];
  }

  /** The ASDU block is the printed list of its five TLVs. */
  lemma AsduLayout(smpcnt: nat, raws: seq<RawSample>)
    ensures AsduBytes(smpcnt, raws) == WriteAll(AsduTlvs(smpcnt, raws))
  {
    var ts := AsduTlvs(smpcnt, raws);
    WriteOne(ts[0]);
    WriteSnoc([ts[0]], ts[1]);
    assert [ts[0]] + [ts[1]] == [ts[0], ts[1]];
    WriteSnoc([ts[0], ts[1]], ts[2]);
    assert [ts[0], ts[1]] + [ts[2]] == [ts[0], ts[1], ts[2]];
    WriteSnoc([ts[0], ts[1], ts[2]], ts[3]);
    assert [ts[0], ts[1], ts[2]] + [ts[3]] == [ts[0], ts[1], ts[2], ts[3]];
    WriteSnoc([ts[0], ts[1], ts[2], ts[3]], ts[4]);
    assert [ts[0], ts[1], ts[2], ts[3]] + [ts[4]] == ts;
  }

  /** The most samples whose frame keeps every nested length below 65536. */
  const MAX_SAMPLES: nat := 8186

  lemma Sizes(smpcnt: nat, raws: seq<RawSample>)
    ensures |AsduBytes(smpcnt, raws)| == 26 + |WriteLength(8 * |raws|)| + 8 * |raws|
    ensures |SequenceBytes(smpcnt, raws)| == 1 + |WriteLength(|AsduBytes(smpcnt, raws)|)| + |AsduBytes(smpcnt, raws)|
    ensures |InnerBytes(smpcnt, raws)| == 4 + |WriteLength(|SequenceBytes(smpcnt, raws)|)| + |SequenceBytes(smpcnt, raws)|
    ensures |raws| >= 32 ==> |InnerBytes(smpcnt, raws)| == 40 + 8 * |raws|
  {
  }

  // ---- the round trip ------------------------------------------------------------------------------------

  /** Sample `i` of a frame built from raw pair `r`: scaled, numbered from `smpcnt` on and stamped
      every 10000 ns from the reception time. */
  function Expected(d: Decoder, smpcnt: nat, rxNs: nat, r: RawSample, i: nat): WaveSample {
    WaveSample((rxNs + 10_000 * i) % 0x1_0000_0000_0000_0000, r.voltage as real * d.voltageScale,
               r.current as real * d.currentScale, (smpcnt + i) % 0x1_0000_0000)
  }

  predicate Recovers(d: Decoder, smpcnt: nat, rxNs: nat, raws: seq<RawSample>, samples: seq<WaveSample>) {
    |samples| == |raws| && forall i :: 0 <= i < |raws| ==> samples[i] == Expected(d, smpcnt, rxNs, raws[i], i)
  }

  lemma {:induction false} SeqDataAt(raws: seq<RawSample>, i: nat)
    requires i < |raws|
    ensures SeqData(raws)[8 * i..8 * i + 4] == WordBytes(raws[i].current)
    ensures SeqData(raws)[8 * i + 4..8 * i + 8] == WordBytes(raws[i].voltage)
  {
    var rest, last := SeqData(raws[..|raws| - 1]), SampleBytes(raws[|raws| - 1]);
    assert SeqData(raws) == rest + last;
    if i < |raws| - 1 {
      SeqDataAt(raws[..|raws| - 1], i);
      SliceLeft(rest, last, 8 * i, 8 * i + 4);
      SliceLeft(rest, last, 8 * i + 4, 8 * i + 8);
    } else {
      SliceRight(rest, WordBytes(raws[i].current), WordBytes(raws[i].voltage));
    }
  }

  lemma SliceLeft(a: bytes, b: bytes, i: nat, j: nat)
    requires i <= j <= |a|
    ensures (a + b)[i..j] == a[i..j]
  {
  }

  lemma SliceRight(a: bytes, b: bytes, c: bytes)
    requires |b| == 4 == |c|
    ensures (a + (b + c))[|a|..|a| + 4] == b && (a + (b + c))[|a| + 4..|a| + 8] == c
  {
  }

  lemma RawAt(raws: seq<RawSample>, i: nat)
    requires i < |raws| && Int32Samples(raws)
    ensures ToInt32(BigEndian(SeqData(raws)[8 * i..8 * i + 4])) == raws[i].current
    ensures ToInt32(BigEndian(SeqData(raws)[8 * i + 4..8 * i + 8])) == raws[i].voltage
  {
    SeqDataAt(raws, i);
    WordRoundTrip(raws[i].current);
    WordRoundTrip(raws[i].voltage);
  }

  lemma ExtractRecovers(d: Decoder, a: Asdu, smpcnt: nat, rxNs: nat, raws: seq<RawSample>)
    requires a.seqData == SeqData(raws) && a.smpCnt == smpcnt && Int32Samples(raws)
    ensures Recovers(d, smpcnt, rxNs, raws, SamplesOf(d, a, rxNs))
  {
    forall i | 0 <= i < |raws|
      ensures SampleAt(d, a, rxNs, i) == Expected(d, smpcnt, rxNs, raws[i], i)
    {
      RawAt(raws, i);
      SameSample(d, a, smpcnt, rxNs, raws[i], i);
    }
  }

  lemma SameSample(d: Decoder, a: Asdu, smpcnt: nat, rxNs: nat, r: RawSample, i: nat)
    requires 8 * i + 8 <= |a.seqData| && a.smpCnt == smpcnt
    requires ToInt32(BigEndian(a.seqData[8 * i..8 * i + 4])) == r.current
    requires ToInt32(BigEndian(a.seqData[8 * i + 4..8 * i + 8])) == r.voltage
    ensures SampleAt(d, a, rxNs, i) == Expected(d, smpcnt, rxNs, r, i)
  {
  }

  /** The fold over the builder's TLVs: what the decoder finds in a built ASDU. */
  lemma FoldBuilt(smpcnt: nat, raws: seq<RawSample>)
    requires smpcnt < WORD32
    ensures var a := FoldTlvs(EMPTY_ASDU, AsduTlvs(smpcnt, raws));
            a.seqData == SeqData(raws) && a.smpCnt == smpcnt && a.confRev == 1 && a.smpSynch == 1
            && a.svId == [0x57, 0x42, 0x42, 0x4F, 0x4E, 0x44, 0x30, 0x31]
  {
    var ts := AsduTlvs(smpcnt, raws);
    WordRoundTrip(smpcnt);
    assert Integer32([0, 0, 0, 1]) == Ok(1) by {
      assert WordBytes(1) == [0, 0, 0, 1];
      WordRoundTrip(1);
    }
    var a1 := ApplyTlv(EMPTY_ASDU, ts[0]);
    var a2 := ApplyTlv(a1, ts[1]);
    var a3 := ApplyTlv(a2, ts[2]);
    var a4 := ApplyTlv(a3, ts[3]);
    var a5 := ApplyTlv(a4, ts[4]);
    assert ts[1..][1..] == ts[2..] && ts[2..][1..] == ts[3..] && ts[3..][1..] == ts[4..] && ts[4..][1..] == [];
    assert FoldTlvs(a4, ts[4..]) == a5;
    assert FoldTlvs(a3, ts[3..]) == a5;
    assert FoldTlvs(a2, ts[2..]) == a5;
    assert FoldTlvs(a1, ts[1..]) == a5;
  }

  lemma AsduParses(smpcnt: nat, raws: seq<RawSample>)
    requires smpcnt < WORD32 && 8 * |raws| < 65536
    ensures AsduOf(AsduBytes(smpcnt, raws)) == Ok(FoldTlvs(EMPTY_ASDU, AsduTlvs(smpcnt, raws)))
  {
    AsduLayout(smpcnt, raws);
    ListRoundTrip([], AsduTlvs(smpcnt, raws));
    assert [] + AsduBytes(smpcnt, raws) == AsduBytes(smpcnt, raws);
  }

  /** A frame that fits: every nested length is below 65536. */
  lemma FrameFits(smpcnt: nat, raws: seq<RawSample>)
    requires |raws| <= MAX_SAMPLES
    ensures |AsduBytes(smpcnt, raws)| < 65536 && |SequenceBytes(smpcnt, raws)| < 65536 && |InnerBytes(smpcnt, raws)| < 65536
  {
    Sizes(smpcnt, raws);
  }

  /** The APDU loop over the builder's contents finds its one ASDU. */
  lemma InnerParses(smpcnt: nat, raws: seq<RawSample>)
    requires smpcnt < WORD32 && |raws| <= MAX_SAMPLES
    ensures PayloadOf(InnerBytes(smpcnt, raws)) == SvPayload(1, [FoldTlvs(EMPTY_ASDU, AsduTlvs(smpcnt, raws))])
  {
    var inner, s, asdu := InnerBytes(smpcnt, raws), SequenceBytes(smpcnt, raws), AsduBytes(smpcnt, raws);
    FrameFits(smpcnt, raws);
    CountAndSequence(s);
    assert EnterSequence(SkipCount(inner)) == Inner(1, s, 0);
    OnePiece(asdu);
    AsduParses(smpcnt, raws);
    AsdusCons(Piece(0, |s|, asdu), []);
    assert [Piece(0, |s|, asdu)] + [] == [Piece(0, |s|, asdu)];
  }

  lemma CountAndSequence(s: bytes)
    requires |s| < 65536
    ensures var inner := WriteTlv(0x80, [1]) + WriteTlv(0xA2, s); EnterSequence(SkipCount(inner)) == Inner(1, s, 0)
  {
    var c, q := WriteTlv(0x80, [1]), WriteTlv(0xA2, s);
    var inner := c + q;
    ReadWrittenTlv([], 0x80, [1], q);
    assert [] + c + q == inner;
    ReadWrittenTlv(c, 0xA2, s, []);
    assert c + q + [] == inner;
    BigEndianOne(1);
    assert Integer32([1]) == Ok(1);
    assert inner[0] == 0x80 && inner[3] == 0xA2;
  }

  lemma OnePiece(asdu: bytes)
    requires |asdu| < 65536
    ensures var s := WriteTlv(0x30, asdu); Pieces(s, 0, 0, 1) == [Piece(0, |s|, asdu)]
  {
    var s := WriteTlv(0x30, asdu);
    ReadWrittenTlv([], 0x30, asdu, []);
    assert [] + s + [] == s;
    assert Pieces(s, |s|, 1, 1) == [];
  }

  /** What both directions start from: the decoder reaches the APDU of a built frame. */
  lemma BuiltReaches(d: Decoder, smpcnt: nat, raws: seq<RawSample>, rxNs: nat)
    ensures var p := FrameBytes(smpcnt, raws);
            |p| >= 22 && DecodeOf(d, p, |p|, rxNs) == DecodeFrom(d, p, 14, rxNs) && HeaderOf(p, 14).Ok?
  {
    var p := FrameBytes(smpcnt, raws);
    var h := HeaderBytes(|WriteTlv(0x60, InnerBytes(smpcnt, raws))|);
    assert forall i :: 0 <= i < 22 ==> p[i] == h[i];
    assert h[12] == 0x88 && h[13] == 0xBA;
  }

  /** The round trip: every list of at most 8186 raw pairs comes back exactly. */
  lemma RoundTrip(d: Decoder, smpcnt: nat, raws: seq<RawSample>, rxNs: nat)
    requires smpcnt < WORD32 && Int32Samples(raws) && |raws| <= MAX_SAMPLES
    ensures var p := FrameBytes(smpcnt, raws);
            var r := DecodeOf(d, p, |p|, rxNs);
            r.Ok? && Recovers(d, smpcnt, rxNs, raws, r.value.samples) && r.value.parsed.seqNo == smpcnt
  {
    var p, inner := FrameBytes(smpcnt, raws), InnerBytes(smpcnt, raws);
    var apdu := WriteTlv(0x60, inner);
    BuiltReaches(d, smpcnt, raws, rxNs);
    FrameFits(smpcnt, raws);
    ReadWrittenTlv(HeaderBytes(|apdu|), 0x60, inner, []);
    assert HeaderBytes(|apdu|) + apdu + [] == p;
    InnerParses(smpcnt, raws);
    FoldBuilt(smpcnt, raws);
    ExtractRecovers(d, FoldTlvs(EMPTY_ASDU, AsduTlvs(smpcnt, raws)), smpcnt, rxNs, raws);
  }

  // ---- and no further -------------------------------------------------------------------------------------

  lemma {:induction false} AsdusWithin(ps: seq<Piece>, limit: nat)
    requires forall p :: p in ps ==> |p.asdu| <= limit
    ensures forall a :: a in AsdusOf(ps) ==> SvDecoder.Fits(a, limit)
  {
    if ps != [] {
      AsdusWithin(ps[1..], limit);
      AsduWithin(ps[0].asdu);
    }
  }

  lemma {:induction false} PiecesWithin(inner: bytes, offset: nat, i: nat, count: nat)
    ensures forall p :: p in Pieces(inner, offset, i, count) ==> |p.asdu| <= |inner|
    decreases |inner| - offset
  {
    var ps := Pieces(inner, offset, i, count);
    if ps != [] {
      assert ps == [ps[0]] + Pieces(inner, ps[0].end, i + 1, count);
      PiecesWithin(inner, ps[0].end, i + 1, count);
    }
  }

  lemma PayloadWithin(apdu: bytes)
    ensures forall a :: a in PayloadOf(apdu).asdus ==> SvDecoder.Fits(a, |apdu|)
  {
    var n := EnterSequence(SkipCount(apdu));
    PiecesWithin(n.data, n.offset, 0, n.count);
    AsdusWithin(Pieces(n.data, n.offset, 0, n.count), |n.data|);
    AsduWithin(n.data);
  }

  /** Past 8186 samples the outer length is truncated to what is left modulo 65536. */
  lemma TruncatedApdu(smpcnt: nat, raws: seq<RawSample>)
    requires |raws| > MAX_SAMPLES
    ensures var r := ReadTlv(FrameBytes(smpcnt, raws), 22);
            r.Ok? && |r.value.tlv.data| == (40 + 8 * |raws|) % 65536
  {
    var inner := InnerBytes(smpcnt, raws);
    Sizes(smpcnt, raws);
    ReadOversizedTlv(HeaderBytes(|WriteTlv(0x60, inner)|), 0x60, inner);
  }

  lemma FewSamples(d: Decoder, header: Result<SvHeader>, data: bytes, n: nat, rxNs: nat)
    requires n > MAX_SAMPLES && |data| == (40 + 8 * n) % 65536
    ensures var r := Assemble(d, header, Ok(PayloadOf(data)), rxNs); r.Ok? ==> |r.value.samples| < n
  {
    PayloadWithin(data);
    var p := PayloadOf(data);
    if p.asdus != [] {
      assert p.asdus[0] in p.asdus;
      TooFew(n, |data|, |p.asdus[0].seqData|);
    }
  }

  /** What the decoder then gets to see is too short for as many samples as were put in. */
  lemma TooManyComeBackShort(d: Decoder, smpcnt: nat, raws: seq<RawSample>, rxNs: nat)
    requires |raws| > MAX_SAMPLES
    ensures var p := FrameBytes(smpcnt, raws);
            var r := DecodeFrom(d, p, 14, rxNs);
            r.Ok? ==> |r.value.samples| < |raws|
  {
    var p := FrameBytes(smpcnt, raws);
    TruncatedApdu(smpcnt, raws);
    FewSamples(d, HeaderOf(p, 14), ReadTlv(p, 22).value.tlv.data, |raws|, rxNs);
  }

  /** The exact range: the round trip holds for a list of raw pairs if and only if there are at most
      8186 of them. Beyond that the decoder never returns as many samples as were put in. */
  lemma RoundTripIff(d: Decoder, smpcnt: nat, raws: seq<RawSample>, rxNs: nat)
    requires smpcnt < WORD32 && Int32Samples(raws)
    ensures var p := FrameBytes(smpcnt, raws);
            var r := DecodeOf(d, p, |p|, rxNs);
            (r.Ok? && Recovers(d, smpcnt, rxNs, raws, r.value.samples)) <==> |raws| <= MAX_SAMPLES
  {
    if |raws| <= MAX_SAMPLES {
      RoundTrip(d, smpcnt, raws, rxNs);
    } else {
      BuiltReaches(d, smpcnt, raws, rxNs);
      TooManyComeBackShort(d, smpcnt, raws, rxNs);
    }
  }

  lemma TooFew(n: nat, len: nat, m: nat)
    requires n > MAX_SAMPLES && len == (40 + 8 * n) % 65536 && m <= len
    ensures m / 8 < n
  {
    if n < 8192 {
      assert len == 40 + 8 * n - 65536;
    }
  }
}
