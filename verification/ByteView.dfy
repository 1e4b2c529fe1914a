/** The decoded blocks that the engine's model works on, as views of real bytes: the two decoders agree. */
module ByteView {
  import opened Bytes
  import opened Blocks
  import opened Codec
  import Log
  import Disk

  function HeaderView(b: Bytes): Header
    requires |b| == SIZE
  {
    Header(b[4], b[5], Read64(b, 8), Read64(b, 16), Read32(b, 24), Read32(b, 28))
  }

  predicate SealIntact(hash: Hash, b: Bytes)
    requires |b| == SIZE
  {
    Read64(b, SEALED) == hash(b[..SEALED] + Zeros(8))
  }

  predicate Padded(b: Bytes)
    requires |b| == SIZE
  {
    b[6] == 0 && b[7] == 0
  }

  predicate UnusedZero(lbas: seq<U32>, sums: seq<U64>, count: nat)
    requires |lbas| == |sums| == MAX_PAYLOADS
  {
    forall i :: count <= i < MAX_PAYLOADS ==> lbas[i] == 0 && sums[i] == 0
  }

  function FooterView(hash: Hash, b: Bytes): Body
    requires |b| == SIZE
  {
    FooterBody(HeaderView(b), SealIntact(hash, b) && Padded(b),
               Unpack32(b, 32, MAX_PAYLOADS), Unpack64(b, 1384, MAX_PAYLOADS))
  }

  function Entries(addresses: seq<U32>, sums: seq<U64>): (r: seq<Entry>)
    requires |addresses| == |sums|
    ensures |r| == |sums| && forall i :: 0 <= i < |sums| ==> r[i] == Entry(addresses[i], sums[i])
  {
    seq(|sums|, i requires 0 <= i < |sums| => Entry(addresses[i], sums[i]))
  }

  function SnapshotView(hash: Hash, b: Bytes): Body
    requires |b| == SIZE
  {
    if Read64(b, 4072) != hash(b[..FRAMED]) || b[36..40] != Zeros(4) || !Padded(b) then Damaged
    else if !SealIntact(hash, b) || b[4080..4088] != Zeros(8) then Framing(Read32(b, 32))
    else Page(Read32(b, 32), Entries(Unpack32(b, 40, ENTRIES), Unpack64(b, 1384, ENTRIES)))
  }

  /** A block with the record magic, as the engine's model sees it. */
  function View(hash: Hash, b: Bytes): Block
    requires |b| == SIZE
  {
    if b[..4] != RecordMagic() then Raw(Decode(b))
    else Record(HeaderView(b),
                if b[5] == 1 then FooterView(hash, b) else if b[5] == 2 then SnapshotView(hash, b) else Damaged)
  }

  lemma HeaderAgrees(v: Vol, b: Bytes)
    requires |b| == SIZE && b[..4] == RecordMagic() && Padded(b) && b[4] == VERSION && (b[5] == 1 || b[5] == 2)
    ensures var h := HeaderView(b);
            && (DecodeHeader(b).Ok? <==> CountOk(h))
            && (DecodeHeader(b).Ok? ==>
                  DecodeHeader(b).value ==
                  RecordHeader(if h.kind == DATA then Data else MappingPage, h.volume, h.lsn, h.prev, h.boundary))
  {
    hide Decode;
  }

  lemma DataValidAgrees(v: Vol, r: DataRecord)
    requires |r.lbas| == |r.sums| == MAX_PAYLOADS && r.header.kind == Data && HeaderOk(r.header)
    requires r.header.volume == v.id
    ensures var count := r.header.boundary - r.header.prev - 1;
            DataValid(v, r) <==>
              && UnusedZero(r.lbas, r.sums, count)
              && FooterOk(v, Record(Header(VERSION, DATA, v.id, r.header.lsn, r.header.prev, r.header.boundary),
                                    Footer(r.lbas[..count], r.sums[..count])))
  {
    hide Vol.LogStart;
    var count := r.header.boundary - r.header.prev - 1;
    var lbas := r.lbas[..count];
    assert (forall i :: 0 <= i < count ==> r.lbas[i] < v.blocks)
           <==> (forall i :: 0 <= i < |lbas| ==> lbas[i] < v.blocks) by {
      if forall i :: 0 <= i < |lbas| ==> lbas[i] < v.blocks {
        forall i | 0 <= i < count ensures r.lbas[i] < v.blocks { assert lbas[i] < v.blocks; }
      }
    }
  }

  lemma NotFooter(v: Vol, b: Block)
    requires !b.Record? || !b.body.Footer? || b.h.version != VERSION || b.h.kind != DATA || b.h.volume != v.id
    ensures !FooterOk(v, b)
  {
  }

  function Parsed(b: Bytes): DataRecord
    requires |b| == SIZE
  {
    var h := HeaderView(b);
    DataRecord(RecordHeader(Data, h.volume, h.lsn, h.prev, h.boundary),
               Unpack32(b, 32, MAX_PAYLOADS), Unpack64(b, 1384, MAX_PAYLOADS))
  }

  /** What remains to be decided about a block that says it is a data footer. */
  lemma DataBlockDecodes(hash: Hash, v: Vol, b: Bytes)
    requires |b| == SIZE && b[..4] == RecordMagic() && Padded(b) && b[4] == VERSION && b[5] == 1
    ensures DecodeData(hash, v, b).Ok? <==>
              CountOk(HeaderView(b)) && HeaderView(b).volume == v.id && SealIntact(hash, b) && DataValid(v, Parsed(b))
  {
    hide Decode, Unpack, Unpack32, Unpack64, Zeros, DecodeHeader, DataValid;
    HeaderAgrees(v, b);
  }

  function FooterBody(h: Header, intact: bool, lbas: seq<U32>, sums: seq<U64>): Body
    requires |lbas| == |sums| == MAX_PAYLOADS
  {
    if !CountOk(h) || h.kind != DATA || !intact || !UnusedZero(lbas, sums, h.boundary - h.prev - 1) then Damaged
    else Footer(lbas[..h.boundary - h.prev - 1], sums[..h.boundary - h.prev - 1])
  }

  lemma BodyAgrees(v: Vol, h: Header, intact: bool, r: DataRecord)
    requires |r.lbas| == |r.sums| == MAX_PAYLOADS && h.version == VERSION && h.kind == DATA
    requires h.volume == r.header.volume && h.lsn == r.header.lsn && h.prev == r.header.prev
    requires h.boundary == r.header.boundary && r.header.kind == Data
    ensures FooterOk(v, Record(h, FooterBody(h, intact, r.lbas, r.sums))) <==>
            (CountOk(h) && h.volume == v.id && intact && DataValid(v, r))
  {
    hide DataValid, FooterOk, UnusedZero;
    if !CountOk(h) || h.volume != v.id || !intact || !UnusedZero(r.lbas, r.sums, h.boundary - h.prev - 1) {
      NotFooter(v, Record(h, FooterBody(h, intact, r.lbas, r.sums)));
    }
    if CountOk(h) && h.volume == v.id { DataValidAgrees(v, r); }
  }

  function ViewOfHeader(h: RecordHeader): Header {
    Header(VERSION, if h.kind == Data then DATA else MAPPING, h.volume, h.lsn, h.prev, h.boundary)
  }

  /** The engine's footer for a decoded data record. */
  function FooterBlock(r: DataRecord): Block
    requires |r.lbas| == |r.sums| == MAX_PAYLOADS && r.header.kind == Data && HeaderOk(r.header)
  {
    var count := r.header.boundary - r.header.prev - 1;
    Record(ViewOfHeader(r.header), Footer(r.lbas[..count], r.sums[..count]))
  }

  /** The engine's snapshot for a decoded mapping record. */
  function PageBlock(r: MappingRecord): Block
    requires |r.addresses| == |r.sums| == ENTRIES
  {
    Record(ViewOfHeader(r.header), Page(r.page, Entries(r.addresses, r.sums)))
  }

  lemma DecodedData(hash: Hash, v: Vol, b: Bytes)
    requires DecodeData(hash, v, b).Ok?
    ensures |b| == SIZE && b[..4] == RecordMagic() && Padded(b) && b[4] == VERSION && b[5] == 1
    ensures DecodeData(hash, v, b).value == Parsed(b) && SealIntact(hash, b) && DataValid(v, Parsed(b))
  {
    hide Decode, Unpack, Unpack32, Unpack64, Zeros, Distinct;
  }

  /** An accepted footer is seen with exactly its decoded fields. */
  lemma FooterSeen(hash: Hash, v: Vol, b: Bytes, r: DataRecord)
    requires DecodeData(hash, v, b) == Ok(r)
    ensures |b| == SIZE && |r.lbas| == |r.sums| == MAX_PAYLOADS && r.header.kind == Data && HeaderOk(r.header)
    ensures View(hash, b) == FooterBlock(r)
  {
    hide Decode, DecodeData, Unpack, Unpack32, Unpack64, SealIntact, DataValid, UnusedZero, Read32, Read64;
    DecodedData(hash, v, b);
    BodySeen(v, HeaderView(b), r);
  }

  lemma BodySeen(v: Vol, h: Header, r: DataRecord)
    requires DataValid(v, r) && h == ViewOfHeader(r.header)
    ensures |r.lbas| == |r.sums| == MAX_PAYLOADS && r.header.kind == Data && HeaderOk(r.header)
    ensures Record(h, FooterBody(h, true, r.lbas, r.sums)) == FooterBlock(r)
  {
    hide Distinct;
  }

  lemma DataBlockAgrees(hash: Hash, v: Vol, b: Bytes)
    requires |b| == SIZE && b[..4] == RecordMagic() && Padded(b) && b[4] == VERSION && b[5] == 1
    ensures DecodeData(hash, v, b).Ok? <==> FooterOk(v, View(hash, b))
  {
    hide Decode, DecodeData, Unpack, Unpack32, Unpack64, SealIntact, DataValid, FooterOk, UnusedZero, Read32, Read64;
    DataBlockDecodes(hash, v, b);
    BodyAgrees(v, HeaderView(b), SealIntact(hash, b), Parsed(b));
  }

  /** The byte decoder of data footers accepts exactly the blocks whose view the engine accepts. */
  lemma FooterAgrees(hash: Hash, v: Vol, b: Bytes)
    requires |b| == SIZE
    ensures DecodeData(hash, v, b).Ok? <==> FooterOk(v, View(hash, b))
  {
    hide Decode, Unpack, Unpack32, Unpack64, Zeros, DecodeHeader, DataValid, FooterOk;
    if b[..4] == RecordMagic() && b[4] == VERSION && Padded(b) && b[5] == 1 {
      DataBlockAgrees(hash, v, b);
    } else {
      NotFooter(v, View(hash, b));
      if b[..4] == RecordMagic() && b[4] == VERSION && Padded(b) && b[5] == 2 {
        HeaderAgrees(v, b);
        if DecodeHeader(b).Ok? {
          NotData(v, DataRecord(DecodeHeader(b).value, Unpack32(b, 32, MAX_PAYLOADS), Unpack64(b, 1384, MAX_PAYLOADS)));
        }
      } else {
        BadHeader(b);
      }
    }
  }

  lemma NotData(v: Vol, r: DataRecord)
    requires r.header.kind != Data
    ensures !DataValid(v, r)
  {
  }

  lemma BadHeader(b: Bytes)
    requires |b| == SIZE && !(b[..4] == RecordMagic() && b[4] == VERSION && Padded(b) && (b[5] == 1 || b[5] == 2))
    ensures DecodeHeader(b).Err?
  {
  }

  /** So does the framing decoder. */
  lemma FramingAgrees(hash: Hash, v: Vol, b: Bytes)
    requires |b| == SIZE
    ensures DecodeFraming(hash, v, b).Ok? <==> FramingOk(v, View(hash, b))
  {
    hide Decode, Unpack, Unpack32, Unpack64, Zeros, DecodeHeader;
    if b[..4] == RecordMagic() && b[4] == VERSION && Padded(b) && (b[5] == 1 || b[5] == 2) {
      HeaderAgrees(v, b);
    } else {
      BadHeader(b);
    }
  }

  lemma EntriesAgree(v: Vol, r: MappingRecord)
    requires |r.addresses| == |r.sums| == ENTRIES && r.header.kind == MappingPage && PlaceOk(v, r.header)
    requires r.page < v.Pages()
    ensures MappingValid(v, r) <==> EntriesOk(v, r.page, Entries(r.addresses, r.sums), r.header.boundary)
  {
    hide PlaceOk, Vol.LogStart, Vol.Pages;
    var entries := Entries(r.addresses, r.sums);
    if EntriesOk(v, r.page, entries, r.header.boundary) {
      forall i | 0 <= i < ENTRIES
        ensures r.addresses[i] == 0 ==> r.sums[i] == 0
        ensures i >= PageEntries(v, r.page) ==> r.addresses[i] == r.sums[i] == 0
        ensures r.addresses[i] != 0 ==> v.LogStart() <= r.addresses[i] < r.header.boundary
      {
        assert EntryOk(v, r.page, i, entries[i], r.header.boundary);
      }
    }
  }

  /** And the decoder of whole mapping snapshots. */
  lemma PageAgrees(hash: Hash, v: Vol, b: Bytes, page: U32, at: U32, maxLsn: U64)
    requires |b| == SIZE
    ensures DecodeMapping(hash, v, b, page, at, maxLsn).Ok? <==> PageOk(v, View(hash, b), page, at, maxLsn)
  {
    FramingAgrees(hash, v, b);
    if DecodeFraming(hash, v, b).Ok? {
      assert b[..4] == RecordMagic() && b[4] == VERSION && b[5] == 2 && Padded(b);
      HeaderAgrees(v, b);
      var h := DecodeFraming(hash, v, b).value;
      assert PlaceOk(v, h) && h.kind == MappingPage && Read32(b, 32) < v.Pages();
      hide Decode, Unpack, Unpack32, Unpack64, Zeros, DecodeHeader, FramingOk, DecodeFraming, MappingValid, EntriesOk,
           Entries, PlaceOk;
      EntriesAgree(v, MappingRecord(h, Read32(b, 32), Unpack32(b, 40, ENTRIES), Unpack64(b, 1384, ENTRIES)));
    }
  }

  /** An accepted snapshot is seen with exactly its decoded fields. */
  lemma PageSeen(hash: Hash, v: Vol, b: Bytes, page: U32, at: U32, maxLsn: U64, r: MappingRecord)
    requires DecodeMapping(hash, v, b, page, at, maxLsn) == Ok(r)
    ensures |b| == SIZE && |r.addresses| == |r.sums| == ENTRIES
    ensures View(hash, b) == PageBlock(r)
  {
    hide Decode, Unpack, Unpack32, Unpack64, Zeros, PlaceOk, Read32, Read64;
  }

  // ---- the blocks that the engine writes ----

  /** Checksums and the volume identity are 64-bit words. */
  ghost predicate Hashed(v: Vol) { v.id <= MAX_U64 && forall lba, at, data :: v.sum(lba, at, data) <= MAX_U64 }

  /** The data record that the program encodes for record `r` of the log. */
  ghost function Footed(v: Vol, lsn: U64, r: Log.Rec): (d: DataRecord)
    requires v.Ok() && Hashed(v) && r.Data? && Log.RecOk(v, r) && r.prev + r.Size() < v.backing
    ensures |d.lbas| == |d.sums| == MAX_PAYLOADS
    ensures d.lbas[..|r.lbas|] == r.lbas && d.sums[..|r.lbas|] == Disk.Sums(v, r)
    ensures forall k :: |r.lbas| <= k < MAX_PAYLOADS ==> d.lbas[k] == d.sums[k] == 0
    ensures d.header == RecordHeader(Data, v.id, lsn, r.prev, r.prev + r.Size())
  {
    var sums := Disk.Sums(v, r);
    assert forall k :: 0 <= k < |sums| ==> sums[k] == Log.Made(v, r, k).checksum;
    DataRecord(RecordHeader(Data, v.id, lsn, r.prev, r.prev + r.Size()),
               seq(MAX_PAYLOADS, k requires 0 <= k < MAX_PAYLOADS => if k < |r.lbas| then r.lbas[k] else 0),
               seq(MAX_PAYLOADS, k requires 0 <= k < MAX_PAYLOADS => if k < |r.lbas| then sums[k] else 0))
  }

  /** The encoded footer of a log record is the block that the engine's model writes for it. */
  lemma FooterWritten(hash: Hash, v: Vol, lsn: U64, r: Log.Rec)
    requires v.Ok() && Hashed(v) && r.Data? && Log.RecOk(v, r) && v.LogStart() <= r.prev + 1
    requires r.prev + r.Size() < v.backing && lsn > 0
    ensures EncodeData(hash, v, Footed(v, lsn, r)).Ok?
    ensures View(hash, EncodeData(hash, v, Footed(v, lsn, r)).value) == Disk.FooterRecord(v, lsn, r)
  {
    var d := Footed(v, lsn, r);
    assert DataValid(v, d) by {
      forall i | 0 <= i < |r.lbas| ensures d.lbas[i] < v.blocks { assert d.lbas[i] == d.lbas[..|r.lbas|][i]; }
    }
    hide EncodeData, DecodeData, View, DataValid, Hashed;
    DataRoundTrip(hash, v, d);
    FooterSeen(hash, v, EncodeData(hash, v, d).value, d);
  }

  /** The mapping record that the program encodes for a snapshot. */
  function Snapped(v: Vol, lsn: U64, prev: nat, p: nat, entries: seq<Entry>): (d: MappingRecord)
    requires v.Ok() && v.id <= MAX_U64 && prev + 1 < v.backing && p < v.Pages() && EntriesOk(v, p, entries, prev + 1)
    requires forall k :: 0 <= k < |entries| ==> entries[k].checksum <= MAX_U64
    ensures |d.addresses| == |d.sums| == ENTRIES && Entries(d.addresses, d.sums) == entries
    ensures d.header == RecordHeader(MappingPage, v.id, lsn, prev, prev + 1) && d.page == p
  {
    assert forall k :: 0 <= k < ENTRIES ==> EntryOk(v, p, k, entries[k], prev + 1);
    MappingRecord(RecordHeader(MappingPage, v.id, lsn, prev, prev + 1), p,
                  seq(ENTRIES, k requires 0 <= k < ENTRIES => entries[k].physical),
                  seq(ENTRIES, k requires 0 <= k < ENTRIES => entries[k].checksum))
  }

  /** The encoded snapshot of a page is the block that the engine's model writes for it. */
  lemma PageWritten(hash: Hash, v: Vol, lsn: U64, prev: nat, p: nat, entries: seq<Entry>)
    requires v.Ok() && v.id <= MAX_U64 && v.LogStart() <= prev + 1 && prev + 1 < v.backing && lsn > 0 && p < v.Pages()
    requires EntriesOk(v, p, entries, prev + 1) && forall k :: 0 <= k < |entries| ==> entries[k].checksum <= MAX_U64
    ensures EncodeMapping(hash, v, Snapped(v, lsn, prev, p, entries)).Ok?
    ensures View(hash, EncodeMapping(hash, v, Snapped(v, lsn, prev, p, entries)).value) ==
              Disk.PageRecord(v, lsn, prev, p, entries)
  {
    var d := Snapped(v, lsn, prev, p, entries);
    hide EncodeMapping, DecodeMapping, View, MappingValid, EntriesOk;
    EntriesAgree(v, d);
    MappingEncodes(hash, v, d);
    MappingRoundTrip(hash, v, d, lsn);
    PageSeen(hash, v, EncodeMapping(hash, v, d).value, p, prev + 1, lsn, d);
  }

  lemma MappingEncodes(hash: Hash, v: Vol, d: MappingRecord)
    requires MappingValid(v, d)
    ensures EncodeMapping(hash, v, d).Ok?
  {
  }
}
