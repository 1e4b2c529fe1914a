/** The codecs as the program runs them: a block buffer filled in place, arrays read out entry by entry. */
module CodecLoops {
  import opened Bytes
  import opened Blocks
  import opened Codec

  /** Copies a slice into the buffer. */
  method CopyInto(buffer: array<Byte>, at: nat, s: Bytes)
    requires at + |s| <= buffer.Length
    modifies buffer
    ensures buffer[at..at + |s|] == s
    ensures forall j :: 0 <= j < buffer.Length && !(at <= j < at + |s|) ==> buffer[j] == old(buffer[j])
  {
    var i := 0;
    while i < |s|
      invariant i <= |s|
      invariant forall j :: 0 <= j < i ==> buffer[at + j] == s[j]
      invariant forall j :: 0 <= j < buffer.Length && !(at <= j < at + i) ==> buffer[j] == old(buffer[j])
    {
      buffer[at + i] := s[i];
      i := i + 1;
    }
    assert buffer[at..at + |s|] == s;
  }

  method EncodeHeader(h: RecordHeader, buffer: array<Byte>)
    requires buffer.Length == SIZE
    modifies buffer
    ensures buffer[..32] == HeaderBytes(h) && forall j :: 32 <= j < SIZE ==> buffer[j] == 0
  {
    hide Encode;
    var i := 0;
    while i < SIZE
      invariant i <= SIZE && forall j :: 0 <= j < i ==> buffer[j] == 0
    {
      buffer[i] := 0;
      i := i + 1;
    }
    CopyInto(buffer, 0, HeaderBytes(h));
    assert buffer[..32] == buffer[0..0 + 32];
  }

  /** Writes entry `i` of both packed arrays. */
  method PutEntry(buffer: array<Byte>, at: nat, i: nat, ghost xs: seq<nat>, x: U32, ghost ys: seq<nat>, y: U64)
    requires buffer.Length == SIZE && at + 4 * i + 4 <= 1384 && 1384 + 8 * i + 8 <= SIZE && |xs| == |ys| == i
    requires buffer[at..at + 4 * i] == Pack(xs, 4) && buffer[1384..1384 + 8 * i] == Pack(ys, 8)
    modifies buffer
    ensures buffer[at..at + 4 * i + 4] == Pack(xs + [x], 4) && buffer[1384..1384 + 8 * i + 8] == Pack(ys + [y], 8)
    ensures forall j :: 0 <= j < SIZE && (j < at || at + 4 * i + 4 <= j < 1384 || 1384 + 8 * i + 8 <= j) ==>
              buffer[j] == old(buffer[j])
  {
    hide Encode, Pack;
    ghost var b0 := buffer[..];
    CopyInto(buffer, at + 4 * i, Encode(x, 4));
    assert buffer[at..at + 4 * i] == b0[at..at + 4 * i];
    CopyInto(buffer, 1384 + 8 * i, Encode(y, 8));
    PackAppend(xs, x, 4);
    PackAppend(ys, y, 8);
    assert buffer[1384..1384 + 8 * i] == b0[1384..1384 + 8 * i];
    assert buffer[at..at + 4 * i] == b0[at..at + 4 * i];
    assert buffer[at + 4 * i..at + 4 * i + 4] == Encode(x, 4);
    assert buffer[at..at + 4 * i + 4] == buffer[at..at + 4 * i] + buffer[at + 4 * i..at + 4 * i + 4];
    assert buffer[1384..1384 + 8 * i + 8] == buffer[1384..1384 + 8 * i] + buffer[1384 + 8 * i..1384 + 8 * i + 8];
  }

  /** Writes both packed arrays of a metadata block, entry by entry. */
  method PutEntries(buffer: array<Byte>, at: nat, xs: seq<U32>, ys: seq<U64>)
    requires buffer.Length == SIZE && |xs| == |ys| && at + 4 * |xs| <= 1384 && 1384 + 8 * |ys| <= SIZE
    modifies buffer
    ensures buffer[at..at + 4 * |xs|] == Pack(xs, 4) && buffer[1384..1384 + 8 * |ys|] == Pack(ys, 8)
    ensures forall j :: 0 <= j < SIZE && (j < at || at + 4 * |xs| <= j < 1384 || 1384 + 8 * |ys| <= j) ==>
              buffer[j] == old(buffer[j])
  {
    hide Pack;
    var i := 0;
    assert xs[..0] == [] && ys[..0] == [];
    EmptyPacks(buffer, at);
    while i < |xs|
      invariant i <= |xs|
      invariant buffer[at..at + 4 * i] == Pack(xs[..i], 4) && buffer[1384..1384 + 8 * i] == Pack(ys[..i], 8)
      invariant forall j :: 0 <= j < SIZE && (j < at || at + 4 * |xs| <= j < 1384 || 1384 + 8 * |ys| <= j) ==>
                  buffer[j] == old(buffer[j])
    {
      PutEntry(buffer, at, i, xs[..i], xs[i], ys[..i], ys[i]);
      assert xs[..i + 1] == xs[..i] + [xs[i]] && ys[..i + 1] == ys[..i] + [ys[i]];
      i := i + 1;
    }
    assert xs[..i] == xs && ys[..i] == ys;
  }

  lemma EmptyPacks(buffer: array<Byte>, at: nat)
    requires buffer.Length == SIZE && at <= SIZE
    ensures buffer[at..at + 4 * 0] == Pack([], 4) && buffer[1384..1384 + 8 * 0] == Pack([], 8)
  {
  }

  method SealInPlace(hash: Hash, buffer: array<Byte>)
    requires buffer.Length == SIZE
    modifies buffer
    ensures buffer[..] == Seal(hash, old(buffer[..SEALED]))
  {
    hide Encode, Zeros;
    ghost var body := buffer[..SEALED];
    var sum := hash(buffer[..SEALED] + Zeros(8));
    CopyInto(buffer, SEALED, Encode(sum, 8));
    assert buffer[..SEALED] == body && buffer[..] == buffer[..SEALED] + buffer[SEALED..SEALED + 8];
  }

  /** A data footer written into a reused buffer, whatever it held before. */
  method EncodeDataInPlace(hash: Hash, v: Vol, r: DataRecord, buffer: array<Byte>) returns (ok: bool)
    requires buffer.Length == SIZE
    modifies buffer
    ensures ok <==> EncodeData(hash, v, r).Ok?
    ensures ok ==> EncodeData(hash, v, r) == Ok(buffer[..])
    ensures !ok ==> buffer[..] == old(buffer[..])
  {
    hide Pack, HeaderBytes, Seal, PlaceOk, Distinct;
    if !DataValid(v, r) { return false; }
    EncodeHeader(r.header, buffer);
    ghost var head := buffer[..32];
    PutEntries(buffer, 32, r.lbas, r.sums);
    assert buffer[..32] == head;
    assert buffer[..SEALED] == buffer[..32] + buffer[32..1384] + buffer[1384..4088];
    SealInPlace(hash, buffer);
    ok := true;
  }

  /** A mapping snapshot written into a reused buffer, with its framing checksum. */
  method EncodeMappingInPlace(hash: Hash, v: Vol, r: MappingRecord, buffer: array<Byte>) returns (ok: bool)
    requires buffer.Length == SIZE
    modifies buffer
    ensures ok <==> EncodeMapping(hash, v, r).Ok?
    ensures ok ==> EncodeMapping(hash, v, r) == Ok(buffer[..])
    ensures !ok ==> buffer[..] == old(buffer[..])
  {
    hide Pack, HeaderBytes, Seal, Encode, Zeros, MappingValid;
    if !MappingValid(v, r) { return false; }
    EncodeHeader(r.header, buffer);
    ghost var head := buffer[..32];
    CopyInto(buffer, 32, Encode(r.page, 4));
    assert buffer[..32] == head;
    assert buffer[36..40] == Zeros(4);
    assert buffer[..40] == buffer[..32] + buffer[32..36] + buffer[36..40];
    assert |r.addresses| == |r.sums| == ENTRIES by { Shape(v, r); }
    ghost var framing := buffer[..40];
    PutEntries(buffer, 40, r.addresses, r.sums);
    assert buffer[..40] == framing;
    FinishMapping(hash, r, buffer);
    ok := true;
  }

  lemma Shape(v: Vol, r: MappingRecord)
    requires MappingValid(v, r)
    ensures |r.addresses| == |r.sums| == ENTRIES
  {
  }

  method FinishMapping(hash: Hash, r: MappingRecord, buffer: array<Byte>)
    requires buffer.Length == SIZE && |r.addresses| == |r.sums| == ENTRIES
    requires buffer[..40] == FramingBytes(r) && (forall j :: 4072 <= j < SIZE ==> buffer[j] == 0)
    requires buffer[40..1384] == Pack(r.addresses, 4) && buffer[1384..4072] == Pack(r.sums, 8)
    modifies buffer
    ensures buffer[..] == Seal(hash, MappingBody(hash, r))
  {
    hide Pack, Seal, Encode, Zeros, FramingBytes;
    ghost var before := buffer[..4072];
    CopyInto(buffer, 4072, Encode(hash(buffer[..40]), 8));
    assert buffer[..4072] == before;
    assert buffer[..40] == before[..40] && buffer[40..1384] == before[40..1384] && buffer[1384..4072] == before[1384..];
    assert buffer[4080..4088] == Zeros(8);
    assert buffer[4072..4080] == Encode(hash(FramingBytes(r)), 8);
    assert buffer[..SEALED] ==
           buffer[..40] + buffer[40..1384] + buffer[1384..4072] + buffer[4072..4080] + buffer[4080..4088];
    assert buffer[..SEALED] == MappingBody(hash, r);
    SealInPlace(hash, buffer);
  }

  lemma NestedSlice(b: Bytes, at: nat, length: nat, i: nat, w: nat)
    requires at + length <= |b| && i + w <= length
    ensures b[at..at + length][i..i + w] == b[at + i..at + i + w]
  {
    var s := b[at..at + length];
    var inner, outer := s[i..i + w], b[at + i..at + i + w];
    forall k | 0 <= k < w ensures inner[k] == outer[k] {
      assert inner[k] == s[i + k] == b[at + (i + k)];
    }
  }

  /** Reads both arrays of a metadata block out entry by entry. */
  method ReadArrays(b: Bytes, at: nat, count: nat) returns (xs: seq<U32>, ys: seq<U64>)
    requires |b| == SIZE && at + count * 4 <= 1384 && 1384 + count * 8 <= SIZE
    ensures xs == Unpack32(b, at, count) && ys == Unpack64(b, 1384, count)
  {
    hide Decode, Unpack, Power;
    xs, ys := [], [];
    var i := 0;
    while i < count
      invariant i <= count && xs == Unpack32(b, at, count)[..i] && ys == Unpack64(b, 1384, count)[..i]
    {
      UnpackAt(b[at..at + count * 4], count, 4, i);
      UnpackAt(b[1384..1384 + count * 8], count, 8, i);
      NestedSlice(b, at, count * 4, i * 4, 4);
      NestedSlice(b, 1384, count * 8, i * 8, 8);
      xs := xs + [Read32(b, at + i * 4)];
      ys := ys + [Read64(b, 1384 + i * 8)];
      i := i + 1;
    }
  }
}
