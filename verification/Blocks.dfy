/** Geometry and decoded views of the 4 KiB blocks of a version-3 backing file.

    A block is modelled by what the format's decoders see in it. `Raw` stands for every
    block without this format's magic: user payloads, zeros and whatever the file held
    before it was formatted. A payload is one number, its 4096 bytes read as an integer,
    so the zero block is 0. The two xxh3 uses are the function fields of `Vol`.
 */
module Blocks {
  const ENTRIES: nat := 336
  const MAX_PAYLOADS: nat := 338
  const RECORD_BLOCKS: nat := 339
  const POINTERS: nat := 1024
  const MAX_VOLUME: nat := 0x8000_0000
  const MAX_BACKING: nat := 0x1_0000_0000
  const MAX_U64: nat := 0xFFFF_FFFF_FFFF_FFFF
  const VERSION: nat := 3
  const DATA: nat := 1
  const MAPPING: nat := 2

  datatype Option<+T> = None | Some(value: T)
  datatype Error = InvalidInput | InvalidData | NoSpace | Io | CacheFault | Failed
  datatype Result<+T> = Ok(value: T) | Err(error: Error)

  datatype Vol = Vol(
    blocks: nat, backing: nat, id: nat,
    sum: (nat, nat, nat) -> nat, indexSum: seq<nat> -> nat)
  {
    function Pages(): nat { (blocks + 335) / 336 }
    function IndexBlocks(): nat { (Pages() + 1023) / 1024 }
    function LogStart(): nat { 2 + 2 * IndexBlocks() }
    predicate Ok() { 0 < blocks <= MAX_VOLUME && backing <= MAX_BACKING && LogStart() + 3 <= backing }
    function Body(slot: nat): nat { if slot == 0 then 2 else 2 + IndexBlocks() }
  }

  datatype Entry = Entry(physical: nat, checksum: nat)
  const NIL := Entry(0, 0)

  datatype Header = Header(version: nat, kind: nat, volume: nat, lsn: nat, prev: nat, boundary: nat)

  /** What the rest of a metadata block decodes to. `Framing` is a mapping record whose
      header checksum holds although the whole block's checksum does not. */
  datatype Body =
    | Footer(lbas: seq<nat>, sums: seq<nat>)
    | Page(page: nat, entries: seq<Entry>)
    | Framing(page: nat)
    | Damaged

  datatype Descriptor = Descriptor(
    slot: nat, volume: nat, blocks: nat, backing: nat,
    lsn: nat, boundary: nat, indexSum: nat, generation: nat)

  datatype Block =
    | Raw(data: nat)
    | Record(h: Header, body: Body)
    | Root(d: Descriptor)
    | Index(pointers: seq<nat>)

  type Image = seq<Block>

  /** An active or candidate checkpoint: one root descriptor and its whole mapping-page index. */
  datatype Checkpoint = Checkpoint(desc: Descriptor, index: seq<nat>)

  datatype Position = Position(lsn: nat, boundary: nat)

  function Other(slot: nat): nat { if slot == 0 then 1 else 0 }

  function At(c: Checkpoint): Position { Position(c.desc.lsn, c.desc.boundary) }

  // ---- record headers ----

  predicate CountOk(h: Header) {
    && h.lsn != 0
    && ((h.kind == MAPPING && h.boundary == h.prev + 1)
        || (h.kind == DATA && h.prev + 2 <= h.boundary <= h.prev + 339))
  }

  predicate LocationOk(v: Vol, h: Header) {
    h.volume == v.id && v.LogStart() <= h.prev + 1 && h.boundary < v.backing && CountOk(h)
  }

  /** The block carries the record magic and this volume's identity. */
  predicate Current(v: Vol, b: Block) { b.Record? && b.h.volume == v.id }

  predicate Unsupported(h: Header) { h.version != VERSION || (h.kind != DATA && h.kind != MAPPING) }

  // ---- decoders ----

  predicate Distinct(s: seq<nat>) { forall i, j :: 0 <= i < j < |s| ==> s[i] != s[j] }

  predicate FramingOk(v: Vol, b: Block) {
    && b.Record?
    && (b.body.Page? || b.body.Framing?)
    && b.h.version == VERSION && b.h.kind == MAPPING
    && LocationOk(v, b.h)
    && b.body.page < v.Pages()
  }

  predicate FooterOk(v: Vol, b: Block) {
    && b.Record? && b.body.Footer?
    && b.h.version == VERSION && b.h.kind == DATA
    && LocationOk(v, b.h)
    && |b.body.lbas| == |b.body.sums| == b.h.boundary - b.h.prev - 1
    && Distinct(b.body.lbas)
    && forall k :: 0 <= k < |b.body.lbas| ==> b.body.lbas[k] < v.blocks
  }

  predicate EntryOk(v: Vol, p: nat, k: nat, e: Entry, limit: nat) {
    && (e.physical == 0 ==> e.checksum == 0)
    && (p * 336 + k >= v.blocks ==> e == NIL)
    && (e.physical != 0 ==> v.LogStart() <= e.physical < limit)
  }

  predicate EntriesOk(v: Vol, p: nat, entries: seq<Entry>, limit: nat) {
    && |entries| == ENTRIES
    && forall k :: 0 <= k < ENTRIES ==> EntryOk(v, p, k, entries[k], limit)
  }

  /** A mapping snapshot accepted for page `p` at block `at`, no newer than `maxLsn`. */
  predicate PageOk(v: Vol, b: Block, p: nat, at: nat, maxLsn: nat) {
    && FramingOk(v, b) && b.body.Page?
    && b.h.boundary == at && b.h.lsn <= maxLsn && b.body.page == p
    && EntriesOk(v, p, b.body.entries, at)
  }

  predicate DescriptorOk(v: Vol, d: Descriptor) {
    && v.Ok()
    && v.LogStart() <= d.boundary + 1 && d.boundary < v.backing
    && (d.lsn == 0 <==> d.boundary + 1 == v.LogStart())
    && (d.generation == 0 ==> d.lsn == 0)
    && d.lsn + v.LogStart() <= d.boundary + 1
    && d.generation <= MAX_U64
  }

  predicate SameVolume(v: Vol, d: Descriptor) {
    d.volume == v.id && d.blocks == v.blocks && d.backing == v.backing
  }

  predicate PointerOk(v: Vol, pointer: nat, boundary: nat) {
    pointer == 0 || (v.LogStart() <= pointer <= boundary && pointer < v.backing)
  }

  /** The pointers stored in index block `b` of a whole index. */
  function Chunk(index: seq<nat>, b: nat): (r: seq<nat>)
    requires b * 1024 <= |index|
    ensures |r| <= 1024
  {
    if b * 1024 + 1024 <= |index| then index[b * 1024 .. b * 1024 + 1024] else index[b * 1024 ..]
  }

  function EmptyPage(): (r: seq<Entry>)
    ensures |r| == 336 && forall k :: 0 <= k < 336 ==> r[k] == NIL
  {
    seq(336, _ => NIL)
  }
}
