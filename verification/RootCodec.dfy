/** The byte codecs of checkpoint descriptors and of the mapping-page index. */
module RootCodec {
  import opened Bytes
  import opened Blocks
  import opened Codec

  datatype RootRecord = RootRecord(
    slot: nat, volume: U64, blocks: U32, backing: U64, lsn: U64, boundary: U32, indexSum: U64, generation: U64)

  function LogStartOf(blocks: nat): nat { 2 + 2 * (((blocks + 335) / 336 + 1023) / 1024) }

  predicate RootValid(d: RootRecord) {
    && 0 < d.blocks <= MAX_VOLUME && d.backing <= MAX_BACKING && LogStartOf(d.blocks) + 3 <= d.backing
    && LogStartOf(d.blocks) <= d.boundary + 1 && d.boundary < d.backing
    && (d.lsn == 0 <==> d.boundary + 1 == LogStartOf(d.blocks))
    && (d.generation == 0 ==> d.lsn == 0)
    && d.lsn <= d.boundary + 1 - LogStartOf(d.blocks)
    && d.slot < 2
  }

  function RootFields(d: RootRecord): (b: Bytes)
    requires d.slot < 2
    ensures |b| == 60
  {
    RootMagic() + [3, d.slot, 0, 0] + Encode(d.volume, 8) + Encode(SIZE, 4) + Encode(d.blocks, 4) + Encode(d.backing, 8)
    + Encode(d.lsn, 8) + Encode(d.boundary, 4) + Encode(d.indexSum, 8) + Encode(d.generation, 8)
  }

  function EncodeRoot(hash: Hash, d: RootRecord): Result<Bytes> {
    if RootValid(d) then Ok(Seal(hash, RootFields(d) + Zeros(4028))) else Err(InvalidData)
  }

  function DecodeRoot(hash: Hash, b: Bytes, slot: nat, backing: U64): Result<RootRecord>
    requires slot < 2
  {
    if !MetadataOk(hash, b, RootMagic()) then Err(InvalidData)
    else if b[5] != slot || b[6] != 0 || b[7] != 0 || Read32(b, 16) != SIZE || Read64(b, 24) != backing
            || b[60..SEALED] != Zeros(4028)
    then Err(InvalidData)
    else
      var d := RootRecord(slot, Read64(b, 8), Read32(b, 20), backing, Read64(b, 32), Read32(b, 40), Read64(b, 44),
                          Read64(b, 52));
      if RootValid(d) then Ok(d) else Err(InvalidData)
  }

  lemma RootSlices(d: RootRecord)
    requires d.slot < 2
    ensures var b := RootFields(d);
            && b[..4] == RootMagic() && b[4] == 3 && b[5] == d.slot && b[6] == b[7] == 0
            && b[8..16] == Encode(d.volume, 8) && b[16..20] == Encode(SIZE, 4) && b[20..24] == Encode(d.blocks, 4)
            && b[24..32] == Encode(d.backing, 8) && b[32..40] == Encode(d.lsn, 8) && b[40..44] == Encode(d.boundary, 4)
            && b[44..52] == Encode(d.indexSum, 8) && b[52..60] == Encode(d.generation, 8)
  {
    hide Encode;
  }

  lemma SameSlices(a: Bytes, b: Bytes)
    requires |a| >= 60 && |b| >= 60 && a[..60] == b[..60]
    ensures a[..4] == b[..4] && a[4] == b[4] && a[5] == b[5] && a[6] == b[6] && a[7] == b[7]
    ensures a[8..16] == b[8..16] && a[16..20] == b[16..20] && a[20..24] == b[20..24] && a[24..32] == b[24..32]
    ensures a[32..40] == b[32..40] && a[40..44] == b[40..44] && a[44..52] == b[44..52] && a[52..60] == b[52..60]
  {
    forall i | 0 <= i < 60 ensures a[i] == b[i] {
      assert a[i] == a[..60][i] && b[i] == b[..60][i];
    }
  }

  lemma RootRoundTrip(hash: Hash, d: RootRecord)
    requires RootValid(d)
    ensures DecodeRoot(hash, EncodeRoot(hash, d).value, d.slot, d.backing) == Ok(d)
  {
    var fields := RootFields(d);
    var body := fields + Zeros(4028);
    var b := Seal(hash, body);
    assert b[..SEALED] == body;
    assert fields[..60] == fields && b[..60] == fields && b[60..SEALED] == Zeros(4028);
    SealedIff(hash, b);
    hide Encode, Decode, Power, RootValid, RootFields, Seal, Zeros;
    RootSlices(d);
    SameSlices(b, fields);
    Widths();
    DecodeEncode(d.volume, 8);
    DecodeEncode(SIZE, 4);
    DecodeEncode(d.blocks, 4);
    DecodeEncode(d.backing, 8);
    DecodeEncode(d.lsn, 8);
    DecodeEncode(d.boundary, 4);
    DecodeEncode(d.indexSum, 8);
    DecodeEncode(d.generation, 8);
  }

  lemma RootCanonical(hash: Hash, b: Bytes, slot: nat, backing: U64, d: RootRecord)
    requires slot < 2 && DecodeRoot(hash, b, slot, backing) == Ok(d)
    ensures EncodeRoot(hash, d) == Ok(b) && d.slot == slot && d.backing == backing
  {
    assert d.slot < 2;
    hide Encode, Decode, Power, RootValid, Zeros;
    EncodeDecode(b[8..16]);
    EncodeDecode(b[16..20]);
    EncodeDecode(b[20..24]);
    EncodeDecode(b[24..32]);
    EncodeDecode(b[32..40]);
    EncodeDecode(b[40..44]);
    EncodeDecode(b[44..52]);
    EncodeDecode(b[52..60]);
    assert b[..60] == b[..4] + [b[4], b[5], b[6], b[7]] + b[8..16] + b[16..20] + b[20..24] + b[24..32]
                      + b[32..40] + b[40..44] + b[44..52] + b[52..60];
    assert b[..SEALED] == b[..60] + b[60..SEALED];
    SealedIff(hash, b);
  }

  // ---- the index ----

  predicate ShapeOk(v: Vol, index: seq<U32>, block: nat) {
    |index| == v.Pages() && block < v.IndexBlocks()
  }

  /** How many pointers index block `block` holds. */
  function Held(index: seq<U32>, block: nat): (n: nat)
    requires block * 1024 <= |index|
    ensures n <= 1024 && block * 1024 + n <= |index|
  {
    if block * 1024 + 1024 <= |index| then 1024 else |index| - block * 1024
  }

  lemma ShapeBound(v: Vol, index: seq<U32>, block: nat)
    requires ShapeOk(v, index, block)
    ensures block * 1024 < |index|
  {
  }

  function Part(index: seq<U32>, block: nat): (r: seq<U32>)
    requires block * 1024 <= |index|
  {
    index[block * 1024..block * 1024 + Held(index, block)]
  }

  predicate PointersOk(v: Vol, pointers: seq<U32>, boundary: nat) {
    forall i :: 0 <= i < |pointers| ==> PointerOk(v, pointers[i], boundary)
  }

  function PartBytes(part: seq<U32>): (b: Bytes)
    requires |part| <= 1024
    ensures |b| == SIZE
  {
    Pack(part, 4) + Zeros(SIZE - |part| * 4)
  }

  function EncodeIndex(v: Vol, boundary: nat, index: seq<U32>, block: nat): Result<Bytes> {
    if !ShapeOk(v, index, block) then Err(InvalidData)
    else
      ShapeBound(v, index, block);
      if PointersOk(v, Part(index, block), boundary) then Ok(PartBytes(Part(index, block))) else Err(InvalidData)
  }

  function Splice(index: seq<U32>, block: nat, part: seq<U32>): (r: seq<U32>)
    requires block * 1024 + |part| <= |index|
    ensures |r| == |index|
  {
    index[..block * 1024] + part + index[block * 1024 + |part|..]
  }

  /** The index with one decoded block written into it; an error leaves nothing changed. */
  function DecodeIndex(v: Vol, boundary: nat, index: seq<U32>, block: nat, b: Bytes): Result<seq<U32>> {
    if !ShapeOk(v, index, block) then Err(InvalidData)
    else
      ShapeBound(v, index, block);
      var n := Held(index, block);
      if |b| != SIZE || b[n * 4..] != Zeros(SIZE - n * 4) then Err(InvalidData)
      else
        var part := Unpack32(b, 0, n);
        if PointersOk(v, part, boundary) then Ok(Splice(index, block, part)) else Err(InvalidData)
  }

  /** Decoding an encoded block into any index of the same shape copies exactly that block's pointers. */
  lemma IndexRoundTrip(v: Vol, boundary: nat, index: seq<U32>, other: seq<U32>, block: nat)
    requires EncodeIndex(v, boundary, index, block).Ok? && |other| == |index|
    ensures block * 1024 < |index|
    ensures DecodeIndex(v, boundary, other, block, EncodeIndex(v, boundary, index, block).value)
            == Ok(Splice(other, block, Part(index, block)))
  {
    hide Pack, Unpack32, Zeros;
    ShapeBound(v, index, block);
    var part := Part(index, block);
    var b := PartBytes(part);
    assert b[0..0 + |part| * 4] == Pack(part, 4) && b[|part| * 4..] == Zeros(SIZE - |part| * 4);
    Unpacked32(b, 0, part);
  }

  /** An accepted block is what encoding the updated index gives back. */
  lemma IndexCanonical(v: Vol, boundary: nat, index: seq<U32>, block: nat, b: Bytes)
    requires DecodeIndex(v, boundary, index, block, b).Ok?
    ensures EncodeIndex(v, boundary, DecodeIndex(v, boundary, index, block, b).value, block) == Ok(b)
  {
    hide Pack, Unpack, Zeros;
    ShapeBound(v, index, block);
    var n := Held(index, block);
    var part := Unpack32(b, 0, n);
    var after := Splice(index, block, part);
    assert Part(after, block) == part;
    PackUnpack(b[0..0 + n * 4], n, 4);
    assert b == b[0..0 + n * 4] + b[n * 4..];
  }

  predicate AllPointersOk(v: Vol, boundary: nat, index: seq<U32>) {
    |index| == v.Pages() && PointersOk(v, index, boundary)
  }

  /** Loading: every encoded block in turn, decoded into a fresh index. */
  function Restore(v: Vol, boundary: nat, index: seq<U32>, blank: seq<U32>, blocks: nat): Result<seq<U32>>
    requires AllPointersOk(v, boundary, index) && blocks <= v.IndexBlocks()
  {
    if blocks == 0 then Ok(blank)
    else
      match Restore(v, boundary, index, blank, blocks - 1)
      case Err(e) => Err(e)
      case Ok(sofar) =>
        match EncodeIndex(v, boundary, index, blocks - 1)
        case Err(e) => Err(e)
        case Ok(b) => DecodeIndex(v, boundary, sofar, blocks - 1, b)
  }

  lemma {:induction false} RestorePrefix(v: Vol, boundary: nat, index: seq<U32>, blank: seq<U32>, blocks: nat)
    requires AllPointersOk(v, boundary, index) && blocks <= v.IndexBlocks() && |blank| == |index|
    ensures var r := Restore(v, boundary, index, blank, blocks);
            && r.Ok? && |r.value| == |index|
            && forall i :: 0 <= i < |index| && i < blocks * 1024 ==> r.value[i] == index[i]
  {
    hide DecodeIndex, EncodeIndex, PointersOk, Vol.Pages, Vol.IndexBlocks, Splice, Part;
    if blocks > 0 {
      RestorePrefix(v, boundary, index, blank, blocks - 1);
      var sofar := Restore(v, boundary, index, blank, blocks - 1).value;
      PartEncodes(v, boundary, index, blocks - 1);
      IndexRoundTrip(v, boundary, index, sofar, blocks - 1);
      SpliceCopies(index, sofar, blocks - 1);
    }
  }

  lemma PartEncodes(v: Vol, boundary: nat, index: seq<U32>, block: nat)
    requires AllPointersOk(v, boundary, index) && block < v.IndexBlocks()
    ensures EncodeIndex(v, boundary, index, block).Ok?
  {
    ShapeBound(v, index, block);
    hide Vol.Pages, Vol.IndexBlocks, Vol.LogStart, PartBytes;
    assert PointersOk(v, Part(index, block), boundary);
  }

  lemma SpliceCopies(index: seq<U32>, other: seq<U32>, block: nat)
    requires |other| == |index| && block * 1024 <= |index|
    ensures var r := Splice(other, block, Part(index, block));
            forall i :: 0 <= i < |index| ==>
              r[i] == if block * 1024 <= i < block * 1024 + 1024 then index[i] else other[i]
  {
  }

  lemma IndexCovers(v: Vol)
    ensures v.Pages() <= v.IndexBlocks() * 1024
  {
  }

  /** A whole index survives encoding and loading. */
  lemma IndexRestored(v: Vol, boundary: nat, index: seq<U32>, blank: seq<U32>)
    requires AllPointersOk(v, boundary, index) && |blank| == |index|
    ensures Restore(v, boundary, index, blank, v.IndexBlocks()) == Ok(index)
  {
    hide Restore, Vol.Pages, Vol.IndexBlocks, PointersOk;
    IndexCovers(v);
    RestorePrefix(v, boundary, index, blank, v.IndexBlocks());
    var r := Restore(v, boundary, index, blank, v.IndexBlocks()).value;
    assert r == index;
  }
}
