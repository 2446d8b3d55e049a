/** The 32-bit identifier of a fuse frame: five fields packed and unpacked. */
module CanId {
  datatype Fields = Fields(priority: bv8, device: bv8, cmd: bv8, reason: bv8, seqNo: bv8)

  function Pack(f: Fields): bv32 {
    (((f.priority as bv32) & 0x03) << 30) | (((f.device as bv32) & 0x3F) << 24) | (((f.cmd as bv32) & 0xFF) << 16)
    | (((f.reason as bv32) & 0xFF) << 8) | ((f.seqNo as bv32) & 0xFF)
  }

  function Unpack(id: bv32): Fields {
    Fields(((id >> 30) & 0x03) as bv8, ((id >> 24) & 0x3F) as bv8, ((id >> 16) & 0xFF) as bv8, ((id >> 8) & 0xFF) as bv8,
           (id & 0xFF) as bv8)
  }

  /** Where each field stands: two bits of priority and six of device in the top octet, then an octet each. */
  lemma PackLayout(f: Fields)
    ensures Pack(f) >> 24 == ((f.priority << 6) | (f.device & 63)) as bv32
    ensures (Pack(f) >> 16) & 255 == f.cmd as bv32 && (Pack(f) >> 8) & 255 == f.reason as bv32 && Pack(f) & 255 == f.seqNo as bv32
  {
  }

  /** What a field keeps of its value. */
  function Trimmed(f: Fields): Fields { f.(priority := f.priority & 0x03, device := f.device & 0x3F) }

  /** Unpacking returns the fields, the priority modulo 4 and the device modulo 64. */
  lemma UnpackPack(f: Fields)
    ensures Unpack(Pack(f)) == Trimmed(f)
  {
  }

  /** Every identifier is the packing of its fields: the five fields cover all 32 bits. */
  lemma PackUnpack(id: bv32)
    ensures Pack(Unpack(id)) == id
  {
  }

  /** Two frames share an identifier exactly when their trimmed fields agree. */
  lemma PackInjective(f: Fields, g: Fields)
    ensures Pack(f) == Pack(g) <==> Trimmed(f) == Trimmed(g)
  {
    UnpackPack(f);
    UnpackPack(g);
    PackUnpack(Pack(f));
    PackUnpack(Pack(g));
  }
}
