/** The byte codecs of version-3 metadata. The one hash they use is a parameter. */
module Codec {
  import opened Bytes
  import opened Blocks

  type U32 = n: nat | n < 0x1_0000_0000
  type U64 = n: nat | n <= MAX_U64
  type Hash = Bytes -> U64

  const SIZE: nat := 4096
  const SEALED: nat := 4088
  const FRAMED: nat := 40
  /** "VBLF" and "VBLC". */
  function RecordMagic(): (r: Bytes) ensures |r| == 4 { [0x56, 0x42, 0x4C, 0x46] }
  function RootMagic(): (r: Bytes) ensures |r| == 4 { [0x56, 0x42, 0x4C, 0x43] }

  datatype RecordKind = Data | MappingPage

  datatype RecordHeader = RecordHeader(kind: RecordKind, volume: U64, lsn: U64, prev: U32, boundary: U32)

  datatype DataRecord = DataRecord(header: RecordHeader, lbas: seq<U32>, sums: seq<U64>)

  datatype MappingRecord = MappingRecord(header: RecordHeader, page: U32, addresses: seq<U32>, sums: seq<U64>)

  lemma Widths()
    ensures Power(4) == 0x1_0000_0000 && Power(8) == MAX_U64 + 1
  {
    assert Power(4) == 256 * (256 * (256 * (256 * 1)));
    assert Power(8) == 256 * (256 * (256 * (256 * Power(4))));
  }

  function Read32(b: Bytes, at: nat): U32
    requires at + 4 <= |b|
  {
    Widths();
    Decode(b[at..at + 4])
  }

  function Read64(b: Bytes, at: nat): U64
    requires at + 8 <= |b|
  {
    Widths();
    Decode(b[at..at + 8])
  }

  // ---- sealed blocks ----

  function Seal(hash: Hash, body: Bytes): (r: Bytes)
    requires |body| == SEALED
    ensures |r| == SIZE
  {
    body + Encode(hash(body + Zeros(8)), 8)
  }

  /** Length, magic, version and whole-block checksum. */
  predicate MetadataOk(hash: Hash, b: Bytes, magic: Bytes) {
    && |b| == SIZE && b[..4] == magic && b[4] == VERSION
    && Read64(b, SEALED) == hash(b[..SEALED] + Zeros(8))
  }

  /** A block passes the checksum exactly when it is the seal of its body. */
  lemma SealedIff(hash: Hash, b: Bytes)
    requires |b| == SIZE
    ensures Read64(b, SEALED) == hash(b[..SEALED] + Zeros(8)) <==> b == Seal(hash, b[..SEALED])
  {
    var sum, h := b[SEALED..], hash(b[..SEALED] + Zeros(8));
    assert b[SEALED..SEALED + 8] == sum && b == b[..SEALED] + sum;
    Widths();
    EncodeDecode(sum);
    DecodeEncode(h, 8);
    assert Seal(hash, b[..SEALED])[SEALED..] == Encode(h, 8);
  }

  // ---- record headers ----

  predicate HeaderOk(h: RecordHeader) {
    && h.lsn != 0
    && if h.kind == MappingPage then h.boundary == h.prev + 1 else h.prev + 2 <= h.boundary <= h.prev + 339
  }

  predicate PlaceOk(v: Vol, h: RecordHeader) {
    v.LogStart() <= h.prev + 1 && h.boundary < v.backing && HeaderOk(h)
  }

  function HeaderBytes(h: RecordHeader): (r: Bytes)
    ensures |r| == 32
  {
    RecordMagic() + [3, if h.kind == Data then 1 else 2, 0, 0] + Encode(h.volume, 8) + Encode(h.lsn, 8)
    + Encode(h.prev, 4) + Encode(h.boundary, 4)
  }

  function DecodeHeader(b: Bytes): Result<RecordHeader>
    requires |b| >= 32
  {
    if b[..4] != RecordMagic() || b[4] != VERSION || b[6] != 0 || b[7] != 0 || (b[5] != 1 && b[5] != 2)
    then Err(InvalidData)
    else
      var h := RecordHeader(if b[5] == 1 then Data else MappingPage,
                            Read64(b, 8), Read64(b, 16), Read32(b, 24), Read32(b, 28));
      if HeaderOk(h) then Ok(h) else Err(InvalidData)
  }

  lemma HeaderSlices(h: RecordHeader)
    ensures var b := HeaderBytes(h);
            && b[..4] == RecordMagic() && b[4] == 3 && b[5] == (if h.kind == Data then 1 else 2) && b[6] == b[7] == 0
            && b[8..16] == Encode(h.volume, 8) && b[16..24] == Encode(h.lsn, 8)
            && b[24..28] == Encode(h.prev, 4) && b[28..32] == Encode(h.boundary, 4)
  {
    hide Encode;
  }

  lemma HeaderRoundTrip(h: RecordHeader, rest: Bytes)
    requires HeaderOk(h)
    ensures DecodeHeader(HeaderBytes(h) + rest) == Ok(h)
  {
    hide Encode, Decode, Power;
    var b, head := HeaderBytes(h) + rest, HeaderBytes(h);
    HeaderSlices(h);
    Widths();
    assert b[..4] == head[..4] && b[8..16] == head[8..16] && b[16..24] == head[16..24] && b[24..28] == head[24..28]
           && b[28..32] == head[28..32];
    DecodeEncode(h.volume, 8);
    DecodeEncode(h.lsn, 8);
    DecodeEncode(h.prev, 4);
    DecodeEncode(h.boundary, 4);
  }

  lemma HeaderCanonical(b: Bytes, h: RecordHeader)
    requires |b| >= 32 && DecodeHeader(b) == Ok(h)
    ensures b[..32] == HeaderBytes(h)
  {
    hide Encode, Decode, Power;
    EncodeDecode(b[8..16]);
    EncodeDecode(b[16..24]);
    EncodeDecode(b[24..28]);
    EncodeDecode(b[28..32]);
    assert b[..32] == b[..4] + [b[4], b[5], b[6], b[7]] + b[8..16] + b[16..24] + b[24..28] + b[28..32];
  }

  lemma SealedMetadata(hash: Hash, body: Bytes, h: RecordHeader)
    requires |body| == SEALED && Seal(hash, body)[..32] == HeaderBytes(h)
    ensures MetadataOk(hash, Seal(hash, body), RecordMagic())
  {
    hide Encode, Decode, Power;
    var b := Seal(hash, body);
    assert b[..SEALED] == body;
    SealedIff(hash, b);
    HeaderSlices(h);
    assert b[..4] == b[..32][..4] && b[4] == b[..32][4];
  }

  // ---- data footers ----

  predicate DataValid(v: Vol, r: DataRecord) {
    && r.header.kind == Data && PlaceOk(v, r.header)
    && |r.lbas| == |r.sums| == MAX_PAYLOADS
    && var count := r.header.boundary - r.header.prev - 1;
    && Distinct(r.lbas[..count])
    && (forall i :: 0 <= i < count ==> r.lbas[i] < v.blocks)
    && forall i :: count <= i < MAX_PAYLOADS ==> r.lbas[i] == r.sums[i] == 0
  }

  function DataBody(r: DataRecord): (b: Bytes)
    requires |r.lbas| == |r.sums| == MAX_PAYLOADS
    ensures |b| == SEALED
  {
    HeaderBytes(r.header) + Pack(r.lbas, 4) + Pack(r.sums, 8)
  }

  function EncodeData(hash: Hash, v: Vol, r: DataRecord): Result<Bytes> {
    if DataValid(v, r) then Ok(Seal(hash, DataBody(r))) else Err(InvalidData)
  }

  function Unpack32(b: Bytes, at: nat, count: nat): (r: seq<U32>)
    requires at + count * 4 <= |b|
    ensures r == Unpack(b[at..at + count * 4], count, 4)
  {
    var s := b[at..at + count * 4];
    var r := Unpack(s, count, 4);
    assert forall i :: 0 <= i < |r| ==> r[i] < 0x1_0000_0000 by {
      forall i | 0 <= i < |r| ensures r[i] < 0x1_0000_0000 { UnpackAt(s, count, 4, i); Widths(); }
    }
    r
  }

  function Unpack64(b: Bytes, at: nat, count: nat): (r: seq<U64>)
    requires at + count * 8 <= |b|
    ensures r == Unpack(b[at..at + count * 8], count, 8)
  {
    var s := b[at..at + count * 8];
    var r := Unpack(s, count, 8);
    assert forall i :: 0 <= i < |r| ==> r[i] <= MAX_U64 by {
      forall i | 0 <= i < |r| ensures r[i] <= MAX_U64 { UnpackAt(s, count, 8, i); Widths(); }
    }
    r
  }

  lemma Unpacked32(b: Bytes, at: nat, xs: seq<U32>)
    requires at + |xs| * 4 <= |b| && b[at..at + |xs| * 4] == Pack(xs, 4)
    ensures Unpack32(b, at, |xs|) == xs
  {
    Widths();
    hide Power;
    UnpackPack(xs, 4);
  }

  lemma Unpacked64(b: Bytes, at: nat, xs: seq<U64>)
    requires at + |xs| * 8 <= |b| && b[at..at + |xs| * 8] == Pack(xs, 8)
    ensures Unpack64(b, at, |xs|) == xs
  {
    Widths();
    hide Power;
    UnpackPack(xs, 8);
  }

  function DecodeData(hash: Hash, v: Vol, b: Bytes): Result<DataRecord> {
    if !MetadataOk(hash, b, RecordMagic()) then Err(InvalidData)
    else
      match DecodeHeader(b)
      case Err(e) => Err(e)
      case Ok(h) =>
        if h.volume != v.id then Err(InvalidData)
        else
          var r := DataRecord(h, Unpack32(b, 32, MAX_PAYLOADS), Unpack64(b, 1384, MAX_PAYLOADS));
          if DataValid(v, r) then Ok(r) else Err(InvalidData)
  }

  lemma DataSlices(hash: Hash, r: DataRecord)
    requires |r.lbas| == |r.sums| == MAX_PAYLOADS
    ensures var b := Seal(hash, DataBody(r));
            && b[..SEALED] == DataBody(r) && b[..32] == HeaderBytes(r.header)
            && b[32..1384] == Pack(r.lbas, 4) && b[1384..4088] == Pack(r.sums, 8)
  {
    hide Encode, Pack, HeaderBytes;
  }

  lemma DataRoundTrip(hash: Hash, v: Vol, r: DataRecord)
    requires DataValid(v, r) && r.header.volume == v.id
    ensures DecodeData(hash, v, EncodeData(hash, v, r).value) == Ok(r)
  {
    assert |r.lbas| == |r.sums| == MAX_PAYLOADS && HeaderOk(r.header);
    hide Encode, Decode, Power, Pack, Unpack, Unpack32, Unpack64, DataValid, DecodeHeader, HeaderBytes, Seal, DataBody,
         Zeros, MetadataOk;
    var b := Seal(hash, DataBody(r));
    DataSlices(hash, r);
    SealedMetadata(hash, DataBody(r), r.header);
    assert b == b[..32] + b[32..];
    HeaderRoundTrip(r.header, b[32..]);
    Unpacked32(b, 32, r.lbas);
    Unpacked64(b, 1384, r.sums);
  }

  lemma DataCanonical(hash: Hash, v: Vol, b: Bytes, r: DataRecord)
    requires DecodeData(hash, v, b) == Ok(r)
    ensures EncodeData(hash, v, r) == Ok(b)
  {
    hide Encode, Decode, Power, Pack, Unpack, DataValid, DecodeHeader, HeaderBytes;
    HeaderCanonical(b, r.header);
    PackUnpack(b[32..1384], MAX_PAYLOADS, 4);
    PackUnpack(b[1384..4088], MAX_PAYLOADS, 8);
    assert b[..SEALED] == b[..32] + b[32..1384] + b[1384..4088];
    SealedIff(hash, b);
  }

  // ---- mapping snapshots ----

  function PageEntries(v: Vol, page: nat): nat
    requires page < v.Pages()
  {
    if v.blocks - page * 336 < 336 then v.blocks - page * 336 else 336
  }

  predicate MappingValid(v: Vol, r: MappingRecord) {
    && r.header.kind == MappingPage && PlaceOk(v, r.header) && r.page < v.Pages()
    && |r.addresses| == |r.sums| == ENTRIES
    && forall i :: 0 <= i < ENTRIES ==>
         && (r.addresses[i] == 0 ==> r.sums[i] == 0)
         && (i >= PageEntries(v, r.page) ==> r.addresses[i] == r.sums[i] == 0)
         && (r.addresses[i] != 0 ==> v.LogStart() <= r.addresses[i] < r.header.boundary)
  }

  function FramingBytes(r: MappingRecord): (b: Bytes)
    ensures |b| == FRAMED
  {
    HeaderBytes(r.header) + Encode(r.page, 4) + Zeros(4)
  }

  function MappingBody(hash: Hash, r: MappingRecord): (b: Bytes)
    requires |r.addresses| == |r.sums| == ENTRIES
    ensures |b| == SEALED
  {
    FramingBytes(r) + Pack(r.addresses, 4) + Pack(r.sums, 8) + Encode(hash(FramingBytes(r)), 8) + Zeros(8)
  }

  function EncodeMapping(hash: Hash, v: Vol, r: MappingRecord): Result<Bytes> {
    if MappingValid(v, r) then Ok(Seal(hash, MappingBody(hash, r))) else Err(InvalidData)
  }

  /** The traversal fields alone: trusted from the header checksum, whatever the entries hold. */
  function DecodeFraming(hash: Hash, v: Vol, b: Bytes): Result<RecordHeader> {
    if |b| != SIZE || Read64(b, 4072) != hash(b[..FRAMED]) || b[36..40] != Zeros(4) then Err(InvalidData)
    else
      match DecodeHeader(b)
      case Err(e) => Err(e)
      case Ok(h) =>
        if h.kind != MappingPage || h.volume != v.id || !PlaceOk(v, h) || Read32(b, 32) >= v.Pages()
        then Err(InvalidData)
        else Ok(h)
  }

  function DecodeMapping(hash: Hash, v: Vol, b: Bytes, page: U32, at: U32, maxLsn: U64): Result<MappingRecord> {
    match DecodeFraming(hash, v, b)
    case Err(e) => Err(e)
    case Ok(h) =>
      if !MetadataOk(hash, b, RecordMagic()) then Err(InvalidData)
      else if h.boundary != at || h.lsn > maxLsn || Read32(b, 32) != page || b[36..40] != Zeros(4)
              || b[4080..4088] != Zeros(8)
      then Err(InvalidData)
      else
        var r := MappingRecord(h, page, Unpack32(b, 40, ENTRIES), Unpack64(b, 1384, ENTRIES));
        if MappingValid(v, r) then Ok(r) else Err(InvalidData)
  }

  /** Where the parts of an encoded snapshot lie. */
  lemma MappingSlices(hash: Hash, r: MappingRecord)
    requires |r.addresses| == |r.sums| == ENTRIES
    ensures var b := Seal(hash, MappingBody(hash, r));
            && b[..SEALED] == MappingBody(hash, r) && b[..32] == HeaderBytes(r.header) && b[..FRAMED] == FramingBytes(r)
            && b[32..36] == Encode(r.page, 4) && b[36..40] == Zeros(4)
            && b[40..1384] == Pack(r.addresses, 4) && b[1384..4072] == Pack(r.sums, 8)
            && b[4072..4080] == Encode(hash(FramingBytes(r)), 8) && b[4080..4088] == Zeros(8)
  {
    hide Encode, Pack, HeaderBytes, Zeros;
    var f, a, s, c := FramingBytes(r), Pack(r.addresses, 4), Pack(r.sums, 8), Encode(hash(FramingBytes(r)), 8);
    var b := Seal(hash, MappingBody(hash, r));
    assert b == f + (a + (s + (c + (Zeros(8) + b[4088..]))));
    assert b[..FRAMED] == f;
    assert f[..32] == HeaderBytes(r.header) && f[32..36] == Encode(r.page, 4) && f[36..40] == Zeros(4);
    assert b[..32] == f[..32] && b[32..36] == f[32..36] && b[36..40] == f[36..40];
  }

  lemma FramingRoundTrip(hash: Hash, v: Vol, r: MappingRecord)
    requires MappingValid(v, r) && r.header.volume == v.id
    ensures DecodeFraming(hash, v, EncodeMapping(hash, v, r).value) == Ok(r.header)
  {
    hide Encode, Decode, Power, Pack, Unpack, DecodeHeader, HeaderBytes, Zeros, Seal, MappingBody, FramingBytes;
    var b := Seal(hash, MappingBody(hash, r));
    MappingSlices(hash, r);
    assert b == b[..32] + b[32..];
    HeaderRoundTrip(r.header, b[32..]);
    Widths();
    DecodeEncode(hash(FramingBytes(r)), 8);
    DecodeEncode(r.page, 4);
  }

  lemma MappingRoundTrip(hash: Hash, v: Vol, r: MappingRecord, maxLsn: U64)
    requires MappingValid(v, r) && r.header.volume == v.id && r.header.lsn <= maxLsn
    ensures DecodeMapping(hash, v, EncodeMapping(hash, v, r).value, r.page, r.header.boundary, maxLsn) == Ok(r)
  {
    assert |r.addresses| == |r.sums| == ENTRIES;
    FramingRoundTrip(hash, v, r);
    hide Encode, Decode, Power, Pack, Unpack, Unpack32, Unpack64, DecodeHeader, HeaderBytes, Zeros, Seal, MappingBody,
         FramingBytes, MappingValid, DecodeFraming, MetadataOk;
    var b := Seal(hash, MappingBody(hash, r));
    MappingSlices(hash, r);
    SealedMetadata(hash, MappingBody(hash, r), r.header);
    Widths();
    DecodeEncode(r.page, 4);
    Unpacked32(b, 40, r.addresses);
    Unpacked64(b, 1384, r.sums);
  }

  lemma MappingCanonical(hash: Hash, v: Vol, b: Bytes, page: U32, at: U32, maxLsn: U64, r: MappingRecord)
    requires DecodeMapping(hash, v, b, page, at, maxLsn) == Ok(r)
    ensures EncodeMapping(hash, v, r) == Ok(b)
    ensures r.page == page && r.header.boundary == at && r.header.lsn <= maxLsn && r.header.volume == v.id
  {
    hide Encode, Decode, Power, Pack, Unpack, DecodeHeader, HeaderBytes, Zeros, MappingValid;
    HeaderCanonical(b, r.header);
    EncodeDecode(b[32..36]);
    EncodeDecode(b[4072..4080]);
    assert b[..FRAMED] == b[..32] + b[32..36] + b[36..40];
    PackUnpack(b[40..1384], ENTRIES, 4);
    PackUnpack(b[1384..4072], ENTRIES, 8);
    assert b[..SEALED] == b[..FRAMED] + b[40..1384] + b[1384..4072] + b[4072..4080] + b[4080..4088];
    SealedIff(hash, b);
  }

  /** Framing depends on bytes 0 to 39 and the header checksum alone. */
  lemma FramingLocal(hash: Hash, v: Vol, b: Bytes, c: Bytes)
    requires |b| == |c| == SIZE && b[..FRAMED] == c[..FRAMED] && b[4072..4080] == c[4072..4080]
    ensures DecodeFraming(hash, v, b) == DecodeFraming(hash, v, c)
  {
    hide Encode, Decode, Power, Zeros;
    forall i | 0 <= i < FRAMED ensures b[i] == c[i] {
      assert b[i] == b[..FRAMED][i] && c[i] == c[..FRAMED][i];
    }
    assert b[..4] == c[..4] && b[8..16] == c[8..16] && b[16..24] == c[16..24] && b[24..28] == c[24..28];
    assert b[28..32] == c[28..32] && b[32..36] == c[32..36] && b[36..40] == c[36..40];
  }

  /** Whatever the full decoder accepts, framing accepted with the same header. */
  lemma FramingAgrees(hash: Hash, v: Vol, b: Bytes, page: U32, at: U32, maxLsn: U64, r: MappingRecord)
    requires DecodeMapping(hash, v, b, page, at, maxLsn) == Ok(r)
    ensures DecodeFraming(hash, v, b) == Ok(r.header)
  {
  }
}
