/** What a backing file holds, image by image.

    `DiskInv(v, I, recs, c)` ties an image to the log `recs` laid out in it and to the
    checkpoint `c` that a load selects. Each lemma here is one kind of block write.
 */
module Disk {
  import opened Blocks
  import opened Log

  function HeaderOf(v: Vol, recs: seq<Rec>, i: nat): Header
    requires i < |recs|
  {
    Header(VERSION, if recs[i].Data? then DATA else MAPPING, v.id, i + 1, recs[i].prev,
           recs[i].prev + recs[i].Size())
  }

  function Sums(v: Vol, r: Rec): (s: seq<nat>)
    requires r.Data?
    ensures |s| == |r.lbas|
    ensures forall k :: 0 <= k < |s| ==> s[k] == Made(v, r, k).checksum
  {
    seq(|r.lbas|, k requires 0 <= k < |r.lbas| => v.sum(r.Lba(k), r.prev + 1 + k, r.Payload(k)))
  }

  /** The blocks of record `i` are in place. */
  ghost predicate RecAt(v: Vol, I: Image, recs: seq<Rec>, i: nat)
    requires i < |recs|
  {
    var r := recs[i];
    && r.prev + r.Size() < |I|
    && if r.Data? then
         && |r.payloads| == |r.lbas|
         && (forall k :: 0 <= k < |r.lbas| ==> I[r.prev + 1 + k] == Raw(r.payloads[k]))
         && I[r.prev + r.Size()] == Record(HeaderOf(v, recs, i), Footer(r.lbas, Sums(v, r)))
       else
         && I[r.prev + 1].Record? && I[r.prev + 1].h == HeaderOf(v, recs, i)
         && I[r.prev + 1].body.Page? && I[r.prev + 1].body.page == r.page
  }

  /** The image holds exactly the records `recs`; nothing after them looks like a record. */
  ghost predicate LogAt(v: Vol, I: Image, recs: seq<Rec>) {
    && |I| == v.backing && WellFormed(v, recs)
    && (forall i :: 0 <= i < |recs| ==> RecAt(v, I, recs, i))
    && (forall a :: Tail(v, recs) < a < |I| ==> !Current(v, I[a]))
  }

  ghost predicate BodyAt(v: Vol, I: Image, c: Checkpoint) {
    && c.desc.slot < 2 && |c.index| == v.Pages() && v.LogStart() <= |I|
    && forall b :: 0 <= b < v.IndexBlocks() ==> I[v.Body(c.desc.slot) + b] == Index(Chunk(c.index, b))
  }

  ghost predicate PtrAt(v: Vol, I: Image, c: Checkpoint, p: nat)
    requires p < |c.index|
  {
    && PointerOk(v, c.index[p], c.desc.boundary)
    && (c.index[p] != 0 ==> c.index[p] < |I| && PageOk(v, I[c.index[p]], p, c.index[p], c.desc.lsn))
  }

  /** The whole checkpoint is present: its index body and every snapshot it points to. */
  ghost predicate TreeAt(v: Vol, I: Image, c: Checkpoint) {
    && DescriptorOk(v, c.desc) && SameVolume(v, c.desc)
    && BodyAt(v, I, c)
    && c.desc.indexSum == v.indexSum(c.index)
    && forall p :: 0 <= p < |c.index| ==> PtrAt(v, I, c, p)
  }

  ghost predicate RootAt(v: Vol, I: Image, c: Checkpoint) {
    |I| == v.backing && TreeAt(v, I, c) && I[c.desc.slot] == Root(c.desc)
  }

  /** Two roots of one volume: consecutive generations, or the two equal roots of a fresh format. */
  ghost predicate Succeeds(v: Vol, older: Descriptor, newer: Descriptor) {
    && SameVolume(v, older) && DescriptorOk(v, older)
    && (older.generation + 1 == newer.generation
        || (older.generation == newer.generation == 0 && newer.slot == 0
            && older.lsn == newer.lsn && older.boundary == newer.boundary
            && older.indexSum == newer.indexSum))
  }

  ghost predicate OtherAt(v: Vol, I: Image, c: Checkpoint)
    requires |I| >= 2
  {
    var b := I[Other(c.desc.slot)];
    b.Root? && b.d.slot == Other(c.desc.slot) && Succeeds(v, b.d, c.desc)
  }

  /** A load of this image selects `c`. */
  ghost predicate Boots(v: Vol, I: Image, c: Checkpoint) {
    v.Ok() && RootAt(v, I, c) && OtherAt(v, I, c)
  }

  /** The mapping entries that checkpoint `c` gives page `p`. */
  ghost function Entries(I: Image, c: Checkpoint, p: nat): seq<Entry>
    requires p < |c.index|
  {
    var at := c.index[p];
    if 0 < at < |I| && I[at].Record? && I[at].body.Page? then I[at].body.entries else EmptyPage()
  }

  ghost predicate Agrees(v: Vol, I: Image, recs: seq<Rec>, c: Checkpoint) {
    && c.desc.lsn <= |recs| && c.desc.boundary == Boundary(v, recs, c.desc.lsn)
    && forall p :: 0 <= p < |c.index| ==> Entries(I, c, p) == PageAt(v, recs, c.desc.lsn, p)
  }

  /** Every root switch so far came with at least one more block of log. */
  ghost predicate Aged(v: Vol, d: Descriptor) { d.generation + v.LogStart() <= d.boundary + 1 }

  ghost predicate DiskInv(v: Vol, I: Image, recs: seq<Rec>, c: Checkpoint) {
    LogAt(v, I, recs) && Boots(v, I, c) && Agrees(v, I, recs, c)
  }

  /** The active checkpoint is never ahead of the log. */
  lemma CheckpointBehind(v: Vol, I: Image, recs: seq<Rec>, c: Checkpoint)
    requires DiskInv(v, I, recs, c)
    ensures c.desc.boundary <= Tail(v, recs)
    ensures c.desc.lsn == |recs| <==> c.desc.boundary == Tail(v, recs)
  {
    BoundaryGrows(v, recs, c.desc.lsn, |recs|);
  }

  lemma IndexShape(v: Vol, I: Image, recs: seq<Rec>, c: Checkpoint)
    requires DiskInv(v, I, recs, c)
    ensures |c.index| == v.Pages()
  {
  }

  /** A generation that grew no faster than the log has a next one. */
  lemma GenerationLeft(v: Vol, I: Image, recs: seq<Rec>, c: Checkpoint)
    requires DiskInv(v, I, recs, c) && Aged(v, c.desc)
    ensures c.desc.generation < MAX_U64
  {
  }

  // ---- writes that leave the active checkpoint alone ----

  /** Block `a` is outside everything checkpoint `c` is made of. */
  ghost predicate Apart(v: Vol, c: Checkpoint, a: nat) {
    c.desc.boundary < a || v.Body(Other(c.desc.slot)) <= a < v.Body(Other(c.desc.slot)) + v.IndexBlocks()
  }

  lemma KeepTree(v: Vol, I: Image, c: Checkpoint, a: nat, b: Block)
    requires TreeAt(v, I, c) && |I| == v.backing && a < |I| && (Apart(v, c, a) || a < 2)
    ensures TreeAt(v, I[a := b], c)
    ensures forall p :: 0 <= p < |c.index| ==> Entries(I[a := b], c, p) == Entries(I, c, p)
  {
    var J := I[a := b];
    forall q | 0 <= q < v.IndexBlocks()
      ensures J[v.Body(c.desc.slot) + q] == Index(Chunk(c.index, q))
    {
      assert I[v.Body(c.desc.slot) + q] == Index(Chunk(c.index, q));
    }
    forall p | 0 <= p < |c.index|
      ensures PtrAt(v, J, c, p) && Entries(J, c, p) == Entries(I, c, p)
    {
      assert PtrAt(v, I, c, p);
    }
  }

  lemma KeepBoots(v: Vol, I: Image, c: Checkpoint, a: nat, b: Block)
    requires Boots(v, I, c) && a < |I| && Apart(v, c, a)
    ensures Boots(v, I[a := b], c)
    ensures forall p :: 0 <= p < |c.index| ==> Entries(I[a := b], c, p) == Entries(I, c, p)
  {
    KeepTree(v, I, c, a, b);
  }

  lemma KeepRec(v: Vol, I: Image, recs: seq<Rec>, i: nat, a: nat, b: Block)
    requires v.Ok() && LogAt(v, I, recs) && i < |recs| && a < |I|
    requires a < v.LogStart() || Tail(v, recs) < a
    ensures RecAt(v, I[a := b], recs, i)
  {
    assert RecAt(v, I, recs, i) && Linked(v, recs, i);
    BoundaryGrows(v, recs, 0, i);
    BoundaryGrows(v, recs, i + 1, |recs|);
  }

  lemma KeepLog(v: Vol, I: Image, recs: seq<Rec>, a: nat, b: Block)
    requires v.Ok() && LogAt(v, I, recs) && a < |I|
    requires a < v.LogStart() || (Tail(v, recs) < a && !Current(v, b))
    ensures LogAt(v, I[a := b], recs)
  {
    BoundaryGrows(v, recs, 0, |recs|);
    var J := I[a := b];
    forall i | 0 <= i < |recs| ensures RecAt(v, J, recs, i) { KeepRec(v, I, recs, i, a, b); }
  }

  /** A block past the log that is no record: a payload in flight, or a cleared block. */
  lemma WriteQuiet(v: Vol, I: Image, recs: seq<Rec>, c: Checkpoint, a: nat, b: Block)
    requires DiskInv(v, I, recs, c) && Tail(v, recs) < a < |I| && !Current(v, b)
    ensures DiskInv(v, I[a := b], recs, c)
  {
    KeepLog(v, I, recs, a, b);
    BoundaryGrows(v, recs, c.desc.lsn, |recs|);
    KeepBoots(v, I, c, a, b);
  }

  /** A block of the inactive slot's index body. */
  lemma WriteBody(v: Vol, I: Image, recs: seq<Rec>, c: Checkpoint, a: nat, b: Block)
    requires DiskInv(v, I, recs, c)
    requires v.Body(Other(c.desc.slot)) <= a < v.Body(Other(c.desc.slot)) + v.IndexBlocks()
    ensures a < |I| && DiskInv(v, I[a := b], recs, c)
  {
    KeepLog(v, I, recs, a, b);
    KeepBoots(v, I, c, a, b);
  }

  // ---- writes that extend the log ----

  lemma RecStable(v: Vol, I: Image, recs: seq<Rec>, more: seq<Rec>, i: nat)
    requires recs <= more && i < |recs| && RecAt(v, I, recs, i)
    ensures RecAt(v, I, more, i)
  {
    assert more[i] == recs[i];
  }

  lemma ExtendWellFormed(v: Vol, recs: seq<Rec>, r: Rec)
    requires v.Ok() && WellFormed(v, recs) && RecOk(v, r) && r.prev == Tail(v, recs)
    requires r.prev + r.Size() < v.backing
    ensures WellFormed(v, recs + [r])
  {
    hide RecOk;
    var more := recs + [r];
    forall i | 0 <= i < |more| ensures Linked(v, more, i) {
      if i < |recs| { assert Linked(v, recs, i); }
    }
  }

  lemma ExtendLog(v: Vol, I: Image, recs: seq<Rec>, r: Rec, b: Block)
    requires v.Ok() && LogAt(v, I, recs) && RecOk(v, r) && r.prev == Tail(v, recs)
    requires r.prev + r.Size() < v.backing
    requires RecAt(v, I[r.prev + r.Size() := b], recs + [r], |recs|)
    ensures LogAt(v, I[r.prev + r.Size() := b], recs + [r])
  {
    hide RecAt, RecOk;
    var a := r.prev + r.Size();
    var J, more := I[a := b], recs + [r];
    ExtendWellFormed(v, recs, r);
    forall i | 0 <= i < |more| ensures RecAt(v, J, more, i) {
      if i < |recs| {
        KeepRec(v, I, recs, i, a, b);
        RecStable(v, J, recs, more, i);
      }
    }
  }

  lemma KeepAgrees(v: Vol, I: Image, J: Image, recs: seq<Rec>, more: seq<Rec>, c: Checkpoint)
    requires Agrees(v, I, recs, c) && recs <= more
    requires forall p :: 0 <= p < |c.index| ==> Entries(J, c, p) == Entries(I, c, p)
    ensures Agrees(v, J, more, c)
  {
    forall p | 0 <= p < |c.index| ensures Entries(J, c, p) == PageAt(v, more, c.desc.lsn, p) {
      PageStable(v, recs, more, c.desc.lsn, p);
    }
  }

  lemma WriteLast(v: Vol, I: Image, recs: seq<Rec>, c: Checkpoint, r: Rec, b: Block)
    requires DiskInv(v, I, recs, c) && RecOk(v, r) && r.prev == Tail(v, recs)
    requires r.prev + r.Size() < v.backing
    requires RecAt(v, I[r.prev + r.Size() := b], recs + [r], |recs|)
    ensures DiskInv(v, I[r.prev + r.Size() := b], recs + [r], c)
  {
    var a := r.prev + r.Size();
    ExtendLog(v, I, recs, r, b);
    BoundaryGrows(v, recs, c.desc.lsn, |recs|);
    KeepBoots(v, I, c, a, b);
    KeepAgrees(v, I, I[a := b], recs, recs + [r], c);
  }

  // ---- switching the root ----

  /** A candidate whose pages outside `todo` already give the mapping at the end of the log. */
  ghost predicate Staged(v: Vol, I: Image, recs: seq<Rec>, c: Checkpoint, todo: set<nat>) {
    && |c.index| == v.Pages()
    && At(c) == Position(|recs|, Tail(v, recs))
    && forall p :: 0 <= p < |c.index| && p !in todo ==> StagedPage(v, I, recs, c, p)
  }

  ghost predicate StagedPage(v: Vol, I: Image, recs: seq<Rec>, c: Checkpoint, p: nat)
    requires p < |c.index|
  {
    PtrAt(v, I, c, p) && Entries(I, c, p) == PageAt(v, recs, |recs|, p)
  }

  /** The candidate follows `c`: same volume, other slot, next generation. */
  ghost predicate NextRoot(v: Vol, c: Checkpoint, d: Descriptor) {
    && SameVolume(v, d) && d.slot == Other(c.desc.slot)
    && d.generation == c.desc.generation + 1 <= MAX_U64
  }

  lemma NextDescriptorOk(v: Vol, recs: seq<Rec>, c: Checkpoint, d: Descriptor)
    requires v.Ok() && WellFormed(v, recs) && NextRoot(v, c, d)
    requires d.lsn == |recs| && d.boundary == Tail(v, recs)
    ensures DescriptorOk(v, d)
  {
    BoundaryGrows(v, recs, 0, |recs|);
  }

  lemma WriteRoot(v: Vol, I: Image, recs: seq<Rec>, c: Checkpoint, d: Checkpoint)
    requires DiskInv(v, I, recs, c) && NextRoot(v, c, d.desc)
    requires Staged(v, I, recs, d, {}) && BodyAt(v, I, d) && d.desc.indexSum == v.indexSum(d.index)
    ensures DiskInv(v, I[d.desc.slot := Root(d.desc)], recs, d)
  {
    hide PtrAt, PageAt, Entries, RecAt;
    NextDescriptorOk(v, recs, c, d.desc);
    var J := I[d.desc.slot := Root(d.desc)];
    KeepLog(v, I, recs, d.desc.slot, Root(d.desc));
    forall p | 0 <= p < |d.index| ensures PtrAt(v, I, d, p) && Entries(I, d, p) == PageAt(v, recs, |recs|, p) {
      assert StagedPage(v, I, recs, d, p);
    }
    KeepTree(v, I, d, d.desc.slot, Root(d.desc));
  }

  /** A data-record footer; the codec accepts only a valid LBA list at a valid place. */
  function FooterRecord(v: Vol, lsn: nat, r: Rec): (b: Block)
    requires v.Ok() && r.Data? && RecOk(v, r) && v.LogStart() <= r.prev + 1 && r.prev + r.Size() < v.backing && lsn > 0
    ensures FooterOk(v, b)
    ensures b == Record(Header(VERSION, DATA, v.id, lsn, r.prev, r.prev + r.Size()), Footer(r.lbas, Sums(v, r)))
  {
    Record(Header(VERSION, DATA, v.id, lsn, r.prev, r.prev + r.Size()), Footer(r.lbas, Sums(v, r)))
  }

  // ---- staging a snapshot ----

  /** A mapping-page record; the codec accepts only valid entries at a valid place. */
  function PageRecord(v: Vol, lsn: nat, prev: nat, p: nat, entries: seq<Entry>): (b: Block)
    requires v.Ok() && v.LogStart() <= prev + 1 && prev + 1 < v.backing && lsn > 0 && p < v.Pages()
    requires EntriesOk(v, p, entries, prev + 1)
    ensures PageOk(v, b, p, prev + 1, lsn)
    ensures b == Record(Header(VERSION, MAPPING, v.id, lsn, prev, prev + 1), Page(p, entries))
  {
    Record(Header(VERSION, MAPPING, v.id, lsn, prev, prev + 1), Page(p, entries))
  }

  /** The candidate after its next snapshot, of page `p`. */
  function Advance(c: Checkpoint, p: nat): Checkpoint
    requires p < |c.index|
  {
    Checkpoint(c.desc.(lsn := c.desc.lsn + 1, boundary := c.desc.boundary + 1),
               c.index[p := c.desc.boundary + 1])
  }

  lemma StageOther(v: Vol, I: Image, recs: seq<Rec>, d: Checkpoint, p: nat, b: Block, q: nat)
    requires v.Ok() && |d.index| == v.Pages() && p < |d.index| && q < |d.index| && p != q
    requires At(d) == Position(|recs|, Tail(v, recs)) && Tail(v, recs) + 1 < |I|
    requires StagedPage(v, I, recs, d, q)
    ensures StagedPage(v, I[Tail(v, recs) + 1 := b], recs + [Snap(Tail(v, recs), p)], Advance(d, p), q)
  {
    hide PageAt;
    var more := recs + [Snap(Tail(v, recs), p)];
    SnapsKeepPage(v, recs, more, q);
  }

  lemma StageNew(v: Vol, I: Image, recs: seq<Rec>, d: Checkpoint, p: nat)
    requires v.Ok() && WellFormed(v, recs) && |d.index| == v.Pages() && p < |d.index|
    requires At(d) == Position(|recs|, Tail(v, recs)) && Tail(v, recs) + 1 < |I| == v.backing
    requires EntriesOk(v, p, PageAt(v, recs, |recs|, p), Tail(v, recs) + 1) && v.LogStart() <= Tail(v, recs) + 1
    ensures StagedPage(v,
              I[Tail(v, recs) + 1 := PageRecord(v, |recs| + 1, Tail(v, recs), p, PageAt(v, recs, |recs|, p))],
              recs + [Snap(Tail(v, recs), p)], Advance(d, p), p)
  {
    hide PageAt, EntriesOk;
    SnapsKeepPage(v, recs, recs + [Snap(Tail(v, recs), p)], p);
  }

  /** Writing one snapshot moves its page out of `todo`. */
  lemma Stage(v: Vol, I: Image, recs: seq<Rec>, d: Checkpoint, todo: set<nat>, p: nat)
    requires v.Ok() && WellFormed(v, recs) && p < v.Pages() && |I| == v.backing
    requires Staged(v, I, recs, d, todo) && Tail(v, recs) + 1 < v.backing
    requires EntriesOk(v, p, PageAt(v, recs, |recs|, p), Tail(v, recs) + 1) && v.LogStart() <= Tail(v, recs) + 1
    ensures Staged(v,
              I[Tail(v, recs) + 1 := PageRecord(v, |recs| + 1, Tail(v, recs), p, PageAt(v, recs, |recs|, p))],
              recs + [Snap(Tail(v, recs), p)], Advance(d, p), todo - {p})
  {
    hide PageAt, EntriesOk, StagedPage, PageRecord;
    var b := PageRecord(v, |recs| + 1, Tail(v, recs), p, PageAt(v, recs, |recs|, p));
    var J, more, e := I[Tail(v, recs) + 1 := b], recs + [Snap(Tail(v, recs), p)], Advance(d, p);
    forall q | 0 <= q < |e.index| && q !in todo - {p} ensures StagedPage(v, J, more, e, q) {
      if q == p {
        StageNew(v, I, recs, d, p);
      } else {
        StageOther(v, I, recs, d, p, b, q);
      }
    }
  }
}
