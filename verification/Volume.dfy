/** The volume: admission, release of the write-back buffer, reads, flush and close. */
module Volume {
  import opened Blocks
  import opened Sets
  import opened Sorting
  import opened Log
  import opened Live
  import opened Disk
  import opened Device
  import opened Cache
  import opened Publish
  import opened Mapping
  import opened Buffer
  import opened Write

  const BUFFER_LIMIT: nat := 4096
  const PAGE_LIMIT: nat := 6_391_321

  function Records(payloads: nat): nat { (payloads + 337) / 338 }

  datatype Reservation = Reservation(payloads: nat, records: nat, pages: nat, snapshots: nat, total: nat)

  function ForCounts(payloads: nat, pages: nat, dirty: nat): Result<Reservation> {
    if dirty > PAGE_LIMIT then Err(InvalidInput)
    else Ok(Reservation(payloads, Records(payloads), pages, dirty + pages,
                        payloads + Records(payloads) + dirty + pages))
  }

  /** The reservation for the buffered LBAs and one more. */
  function Admit(lbas: seq<nat>, pages: nat, dirty: nat, lba: nat): Result<Reservation> {
    if |lbas| >= BUFFER_LIMIT then Err(InvalidInput)
    else
      var known := exists k :: 0 <= k < |lbas| && lbas[k] / 336 == lba / 336;
      ForCounts(|lbas| + 1, if known then pages else pages + 1, dirty)
  }

  lemma AdmitCounts(lbas: seq<nat>, pages: nat, dirty: nat, lba: nat)
    requires |lbas| < BUFFER_LIMIT && dirty <= PAGE_LIMIT && pages == |PagesOf(lbas)|
    ensures Admit(lbas, pages, dirty, lba).Ok?
    ensures var a := Admit(lbas, pages, dirty, lba).value;
            a.pages == |PagesOf(lbas + [lba])| && a.total == |lbas| + 1 + Records(|lbas| + 1) + dirty + a.pages
  {
    PagesOfSnoc(lbas, lba);
    if exists k :: 0 <= k < |lbas| && lbas[k] / 336 == lba / 336 {
      assert PagesOf(lbas) + {lba / 336} == PagesOf(lbas);
    } else {
      assert lba / 336 !in PagesOf(lbas);
    }
  }

  /** What a reader must see: the buffered payload, or the newest one in the log. */
  ghost function Overlay(recs: seq<Rec>, contents: map<nat, nat>, lba: nat): nat {
    if lba in contents then contents[lba] else Content(recs, |recs|, lba)
  }

  /** At every length the log had since `was`, each LBA holds its old content or the buffered one. */
  ghost predicate Mixed(was: seq<Rec>, recs: seq<Rec>, contents: map<nat, nat>) {
    && was <= recs
    && forall n: nat, lba: nat :: |was| <= n <= |recs| ==>
         Content(recs, n, lba) == Content(was, |was|, lba) || Content(recs, n, lba) == Overlay(was, contents, lba)
  }

  lemma MixedExtend(v: Vol, was: seq<Rec>, recs: seq<Rec>, more: seq<Rec>, contents: map<nat, nat>)
    requires Mixed(was, recs, contents) && recs <= more
    requires forall n: nat, lba: nat :: |recs| < n <= |more| ==>
               || Content(more, n, lba) == Content(recs, |recs|, lba)
               || Content(more, n, lba) == Overlay(was, contents, lba)
    ensures Mixed(was, more, contents)
  {
    hide Content;
    forall n: nat, lba: nat | |was| <= n <= |more|
      ensures Content(more, n, lba) == Content(was, |was|, lba) || Content(more, n, lba) == Overlay(was, contents, lba)
    {
      if n <= |recs| { EntStable(v, recs, more, n); }
    }
  }

  lemma MixedSnaps(v: Vol, was: seq<Rec>, recs: seq<Rec>, more: seq<Rec>, contents: map<nat, nat>)
    requires Mixed(was, recs, contents) && OnlySnaps(recs, more)
    ensures Mixed(was, more, contents)
  {
    hide Content;
    forall n: nat, lba: nat | |recs| < n <= |more| ensures Content(more, n, lba) == Content(recs, |recs|, lba) {
      SnapsKeep(v, recs, more, n);
    }
    MixedExtend(v, was, recs, more, contents);
  }

  lemma ContentSnoc(v: Vol, recs: seq<Rec>, r: Rec, lba: nat)
    ensures Content(recs + [r], |recs| + 1, lba) ==
            if r.Has(lba) then r.Payload(Find(r.lbas, lba)) else Content(recs, |recs|, lba)
  {
    EntStable(v, recs, recs + [r], |recs|);
  }

  /** Record `r` carries buffered payloads. */
  ghost predicate Carries(r: Rec, contents: map<nat, nat>) {
    && r.Data? && |r.payloads| == |r.lbas|
    && forall k :: 0 <= k < |r.lbas| ==> r.lbas[k] in contents && r.payloads[k] == contents[r.lbas[k]]
  }

  lemma MixedData(v: Vol, was: seq<Rec>, recs: seq<Rec>, more: seq<Rec>, r: Rec, contents: map<nat, nat>)
    requires Mixed(was, recs, contents) && Carries(r, contents) && recs <= more <= recs + [r]
    ensures Mixed(was, more, contents)
  {
    hide Content;
    forall n: nat, lba: nat | |recs| < n <= |more|
      ensures || Content(more, n, lba) == Content(recs, |recs|, lba)
              || Content(more, n, lba) == Overlay(was, contents, lba)
    {
      assert more == recs + [r];
      ContentSnoc(v, recs, r, lba);
    }
    MixedExtend(v, was, recs, more, contents);
  }

  lemma StageStart(v: Vol, recs: seq<Rec>, more: seq<Rec>, c: Checkpoint, view: View)
    requires recs <= more && |recs| < |more| && c.desc.lsn <= |recs|
    requires UpToDate(v, recs, view) && Covered(v, recs, c, view)
    ensures Applied(v, more, |recs|, 0, 0, v.Pages(), c, view, LiveCount(v, recs))
  {
    hide PageAt, LiveIn;
    LiveStable(v, recs, more, |recs|, 0, v.Pages());
    forall p: nat
      ensures PageMid(v, more, |recs|, 0, p) == PageAt(v, recs, |recs|, p)
      ensures PageAt(v, more, c.desc.lsn, p) == PageAt(v, recs, c.desc.lsn, p)
    {
      PageStable(v, recs, more, |recs|, p);
      PageStable(v, recs, more, c.desc.lsn, p);
      assert PageMid(v, more, |recs|, 0, p) == PageAt(v, more, |recs|, p);
    }
  }

  lemma StageFinish(v: Vol, recs: seq<Rec>, c: Checkpoint, view: View, live: int)
    requires recs != [] && recs[|recs| - 1].Data? && |recs[|recs| - 1].lbas| > 0 && c.desc.lsn <= |recs|
    requires Applied(v, recs, |recs| - 1, |recs[|recs| - 1].lbas|, 0, v.Pages(), c, view, live)
    ensures UpToDate(v, recs, view) && Covered(v, recs, c, view) && live == LiveCount(v, recs)
  {
    hide PageAt, PageMid, LiveIn;
    var i := |recs| - 1;
    LiveEnd(v, recs, i, 0, v.Pages());
    forall p: nat ensures PageMid(v, recs, i, |recs[i].lbas|, p) == PageAt(v, recs, i + 1, p) {
      PageEnd(v, recs, i, p);
    }
  }

  lemma TracedStep(v: Vol, recs: seq<Rec>, r: Rec, c: Checkpoint, view: View, now: View)
    requires WellFormed(v, recs + [r]) && r.Data? && c.desc.lsn <= |recs| && Traced(v, recs, c, view)
    requires Dirty(now) == Dirty(view) + PagesOf(r.lbas)
    ensures Traced(v, recs + [r], c, now)
  {
    var more := recs + [r];
    TouchedStable(v, recs, more, c.desc.lsn, |recs|);
    TouchedPagesStep(v, more, c.desc.lsn, |recs|);
  }

  /** One data record: append it, then update the mapping, then move the tail. */
  method WriteRecord(m: MappingState, r: Rec, live: int, ghost pages: set<nat>) returns (ok: bool, now: int)
    requires m.Valid() && r.Data? && RecOk(m.v, r) && r.prev == m.tail.boundary
    requires PagesOf(r.lbas) <= pages && |Dirty(m.cache.view) + pages| <= |m.cache.slots|
    requires Tail(m.v, m.Recs()) + r.Size() + |Dirty(m.cache.view) + pages| < m.v.backing
    requires live == LiveCount(m.v, m.Recs())
    modifies m, m.dev, m.dev.faults, m.cache, m.cache.clock
    ensures m.dev.Valid() && old(m.dev.trace) <= m.dev.trace
    ensures old(m.Recs()) <= m.Recs() <= old(m.Recs()) + [r]
    ensures ok ==>
              && m.Valid() && m.Recs() == old(m.Recs()) + [r] && m.c == old(m.c)
              && Dirty(m.cache.view) + pages == old(Dirty(m.cache.view)) + pages
              && |m.cache.slots| == old(|m.cache.slots|)
              && now == LiveCount(m.v, m.Recs())
    ensures !ok ==> m.dev.Faulted()
  {
    hide Device.Intact, Device.Paced, UpToDate, Covered, Traced, Applied, Indexed, RecOk, LiveCount, Dirty, PagesOf,
         TouchedPages, WellFormed, DiskInv, Sums, Cache.Valid;
    ghost var recs, more, was := m.Recs(), m.Recs() + [r], m.cache.view;
    ghost var dirty := Dirty(was);
    now := live;
    ok := AppendRecord(m.v, m.dev, m.tail.lsn + 1, r, m.c);
    if !ok { return; }
    StageStart(m.v, recs, more, m.c, m.cache.view);
    assert Dirty(m.cache.view) <= dirty + pages;
    ok, now := ApplyRecord(m.v, m.dev, m.cache, m.c, r, Sums(m.v, r), now, |recs|, dirty + pages);
    m.lastRead := None;
    if !ok { return; }
    assert |r.lbas| > 0 by { RecSizes(m.v, r); }
    StageFinish(m.v, more, m.c, m.cache.view, now);
    m.dev.Facts();
    TracedStep(m.v, recs, r, m.c, was, m.cache.view);
    m.tail := Position(m.tail.lsn + 1, r.prev + r.Size());
    Smaller(Dirty(m.cache.view), dirty + pages);
  }

  /** Binary search of a sorted LBA list by page. */
  method SearchPage(lbas: seq<nat>, page: nat) returns (found: bool)
    requires Increasing(lbas)
    ensures found <==> page in PagesOf(lbas)
  {
    var lo, hi := 0, |lbas|;
    while lo < hi
      invariant 0 <= lo <= hi <= |lbas|
      invariant forall k :: 0 <= k < lo ==> lbas[k] / 336 < page
      invariant forall k :: hi <= k < |lbas| ==> lbas[k] / 336 > page
    {
      var mid := (lo + hi) / 2;
      if lbas[mid] / 336 < page {
        lo := mid + 1;
      } else if lbas[mid] / 336 > page {
        hi := mid;
      } else {
        return true;
      }
    }
    found := false;
  }

  lemma UnrelatedStep(ids: seq<nat>, j: nat, pages: set<nat>)
    requires Increasing(ids) && j < |ids|
    ensures |Elements(ids[..j + 1]) - pages| == |Elements(ids[..j]) - pages| + if ids[j] in pages then 0 else 1
  {
    assert ids[..j + 1] == ids[..j] + [ids[j]];
    var seen := Elements(ids[..j]) - pages;
    assert Elements(ids[..j + 1]) == Elements(ids[..j]) + {ids[j]};
    if ids[j] in pages {
      assert Elements(ids[..j + 1]) - pages == seen;
    } else {
      assert ids[j] !in ids[..j];
      assert Elements(ids[..j + 1]) - pages == seen + {ids[j]};
    }
  }

  /** The dirty pages that the buffer does not touch. */
  method UnrelatedDirty(cache: Cache, lbas: seq<nat>) returns (n: nat)
    requires cache.Valid() && Increasing(lbas)
    ensures n == |Dirty(cache.view) - PagesOf(lbas)|
  {
    var ids := cache.DirtyIds();
    assert Elements(ids) == Dirty(cache.view);
    hide Indexed, PagesOf, Elements, Increasing, Dirty;
    n := 0;
    var j := 0;
    assert Elements(ids[..0]) - PagesOf(lbas) == {} by { NoElements(ids[..0]); }
    while j < |ids|
      invariant j <= |ids| && n == |Elements(ids[..j]) - PagesOf(lbas)|
    {
      var related := SearchPage(lbas, ids[j]);
      UnrelatedStep(ids, j, PagesOf(lbas));
      if !related { n := n + 1; }
      j := j + 1;
    }
    assert ids[..j] == ids;
  }

  lemma NoElements(s: seq<nat>)
    requires s == []
    ensures Elements(s) == {}
  {
  }

  lemma UnionSize(a: set<nat>, b: set<nat>)
    ensures |a + b| == |a - b| + |b| && |a + b| <= |a| + |b|
  {
    assert a + b == (a - b) + b;
    Smaller(a - b, a);
  }

  function Min(a: nat, b: nat): nat { if a < b then a else b }

  ghost predicate InRange(lbas: seq<nat>, blocks: nat) { forall k :: 0 <= k < |lbas| ==> lbas[k] < blocks }

  /** A buffer of distinct LBAs of the volume is bounded by its capacity, by the volume and by its pages. */
  lemma BufferBounds(v: Vol, lbas: seq<nat>)
    requires v.Ok() && Distinct(lbas) && InRange(lbas, v.blocks)
    ensures |lbas| <= v.blocks && |PagesOf(lbas)| <= v.Pages() && |PagesOf(lbas)| <= |lbas|
  {
    DistinctSize(lbas);
    SmallSet(Elements(lbas), v.blocks);
    SmallSet(PagesOf(lbas), v.Pages());
    PagesOfSize(lbas);
  }

  class Volume {
    const m: MappingState
    const buffer: WriteBackBuffer
    const checkpointAfter: nat
    var pages: nat
    var live: int
    var failed: bool

    ghost function Repr(): set<object> { {this, m, m.dev, m.cache, m.cache.clock, buffer} }

    ghost function Recs(): seq<Rec>
      reads m, m.dev
    {
      m.Recs()
    }

    /** What `open` checked about buffer, cache and replay bound. */
    ghost predicate Configured()
      reads m, m.cache, buffer
    {
      && 0 < |buffer.arena| <= BUFFER_LIMIT
      && Min(|buffer.arena|, m.v.Pages()) <= |m.cache.slots|
      && (Min(|buffer.arena|, m.v.blocks) + Records(Min(|buffer.arena|, m.v.blocks))) * 4096 <= checkpointAfter
    }

    /** Every append still due fits the log: payloads, footers, snapshots of dirty and of buffered pages. */
    ghost predicate Reserved()
      reads this, m, m.dev, m.cache, buffer
    {
      Due() < m.v.backing
    }

    /** The block that the log ends at once all that is dirty or buffered is appended. */
    ghost function Due(): nat
      reads this, m, m.dev, m.cache, buffer
    {
      m.Committed() + |buffer.lbas| + Records(|buffer.lbas|) + pages
    }

    ghost predicate Ready()
      reads Repr()
    {
      && m.Valid() && buffer.Valid() && Configured() && Reserved()
      && InRange(buffer.lbas, m.v.blocks) && pages == |PagesOf(buffer.lbas)|
      && live == LiveCount(m.v, Recs())
    }

    ghost predicate Operational()
      reads Repr()
    {
      Ready() && |buffer.lbas| < |buffer.arena|
    }

    /** A failed volume keeps a recoverable device and nothing else. */
    ghost predicate Valid()
      reads Repr()
    {
      m.dev.Valid() && (!failed ==> Operational())
    }

    /** The logical block that a read must return. */
    ghost function Logical(lba: nat): nat
      reads m, m.dev, buffer
    {
      Overlay(Recs(), buffer.contents, lba)
    }

    ghost predicate ReplayBounded(extra: nat)
      reads m
    {
      m.c.desc.boundary <= m.tail.boundary && (m.tail.boundary - m.c.desc.boundary + extra) * 4096 <= checkpointAfter
    }

    /** An open volume starts with an empty buffer. */
    constructor (m: MappingState, buffer: WriteBackBuffer, checkpointAfter: nat, live: int)
      requires m.Valid() && buffer.Valid() && buffer.lbas == []
      requires 0 < |buffer.arena| <= BUFFER_LIMIT && Min(|buffer.arena|, m.v.Pages()) <= |m.cache.slots|
      requires (Min(|buffer.arena|, m.v.blocks) + Records(Min(|buffer.arena|, m.v.blocks))) * 4096 <= checkpointAfter
      requires live == LiveCount(m.v, m.Recs())
      ensures Operational() && !failed && this.m == m && this.buffer == buffer && this.live == live
    {
      hide UpToDate, Covered, Traced, Indexed, LiveCount, Dirty, Device.Intact, Device.Paced, Cache.Valid;
      this.m, this.buffer, this.checkpointAfter := m, buffer, checkpointAfter;
      pages, this.live, failed := 0, live, false;
      new;
      assert PagesOf(buffer.lbas) == {};
    }

    /** A checkpoint in between: the log up to here is published and no page is dirty. */
    method Relieve() returns (r: Result<()>)
      requires Ready() && m.c.desc.boundary < m.Committed()
      modifies m`c, m`tail, m.dev, m.dev.faults, m.cache
      ensures m.dev.Valid() && old(m.dev.trace) <= m.dev.trace && OnlySnaps(old(Recs()), Recs())
      ensures r.Ok? ==>
                Ready() && Dirty(m.cache.view) == {} && At(m.c) == m.tail && |m.cache.slots| == old(|m.cache.slots|)
      ensures r.Ok? ==> Due() == old(Due())
      ensures r.Err? ==> r.error == Io && m.dev.Faulted()
    {
      hide Device.Intact, Device.Paced, UpToDate, Covered, Traced, Indexed, LiveCount, PagesOf, DiskInv, OnlySnaps,
           Records;
      ghost var was := Recs();
      r := m.Checkpoint();
      if r.Ok? {
        assert LiveCount(m.v, Recs()) == LiveCount(m.v, was) by { LiveCountSnaps(m.v, was, Recs()); }
      }
    }

    method PrepareRelease() returns (r: Result<()>)
      requires Ready() && Increasing(buffer.lbas)
      modifies m`c, m`tail, m.dev, m.dev.faults, m.cache
      ensures m.dev.Valid() && old(m.dev.trace) <= m.dev.trace && OnlySnaps(old(Recs()), Recs())
      ensures r.Ok? ==> Ready() && ReplayBounded(|buffer.lbas| + Records(|buffer.lbas|)) && Due() == old(Due())
      ensures r.Ok? ==> |Dirty(m.cache.view) + PagesOf(buffer.lbas)| <= |m.cache.slots|
      ensures r.Err? ==> r.error == Io
      ensures r.Err? ==> m.dev.Faulted()
    {
      hide Device.Intact, Device.Paced, UpToDate, Covered, Traced, Indexed, LiveCount, Dirty, PagesOf, DiskInv,
           Increasing, OnlySnaps, Cache.Valid, Vol.Pages, Content;
      var payloads := |buffer.lbas|;
      var unrelated := UnrelatedDirty(m.cache, buffer.lbas);
      UnionSize(Dirty(m.cache.view), PagesOf(buffer.lbas));
      BufferBounds(m.v, buffer.lbas);
      m.dev.Facts();
      CheckpointBehind(m.v, m.dev.image, Recs(), m.c);
      var pressure := unrelated + pages > |m.cache.slots|;
      var since := m.tail.boundary - m.c.desc.boundary;
      assert OnlySnaps(Recs(), Recs()) by { NoSnaps(Recs()); }
      if pressure || (since + payloads + Records(payloads)) * 4096 > checkpointAfter {
        RecordsGrow(payloads, Min(|buffer.arena|, m.v.blocks));
        assert pressure ==> Dirty(m.cache.view) != {};
        r := Relieve();
        if r.Err? { return; }
        assert Dirty(m.cache.view) + PagesOf(buffer.lbas) == PagesOf(buffer.lbas);
      }
      r := Ok(());
    }

    /** The first `start` buffered LBAs, in order, are in the log and in the mapping. */
    ghost predicate Releasing(was: seq<Rec>, start: nat, most: nat)
      reads Repr()
    {
      && m.Valid() && buffer.Valid() && Configured() && InRange(buffer.lbas, m.v.blocks) && start <= |buffer.lbas|
      && |Dirty(m.cache.view) + PagesOf(buffer.lbas)| <= |m.cache.slots|
      && Tail(m.v, Recs()) + (|buffer.lbas| - start) + Records(|buffer.lbas| - start)
         + |Dirty(m.cache.view) + PagesOf(buffer.lbas)| <= most < m.v.backing
      && ReplayBounded(|buffer.lbas| - start + Records(|buffer.lbas| - start))
      && live == LiveCount(m.v, Recs())
      && Mixed(was, Recs(), buffer.contents) && Done(was, Recs(), buffer.lbas[..start], buffer.contents)
    }

    /** Packs up to 338 buffered payloads into one record. */
    method ReleaseChunk(start: nat, ghost was: seq<Rec>, ghost most: nat) returns (ok: bool, end: nat)
      requires Releasing(was, start, most) && start < |buffer.lbas|
      modifies m, m.dev, m.dev.faults, m.cache, m.cache.clock, this`live
      ensures m.dev.Valid() && old(m.dev.trace) <= m.dev.trace && Mixed(was, Recs(), buffer.contents)
      ensures ok ==> start < end <= |buffer.lbas| && Releasing(was, end, most)
      ensures !ok ==> m.dev.Faulted()
    {
      hide Device.Intact, Device.Paced, UpToDate, Covered, Traced, Indexed, LiveCount, Dirty, PagesOf, Mixed, Done,
           Carries, InRange, RecOk, Distinct, Records, DiskInv, WellFormed;
      hide Cache.Valid, Device.Faulted, Content, Vol.Pages, Elements, Increasing;
      ghost var recs, n := Recs(), |buffer.lbas|;
      end := Min(start + MAX_PAYLOADS, |buffer.lbas|);
      var payloads := buffer.Payloads(start, end);
      var r := Data(m.tail.boundary, buffer.lbas[start..end], payloads);
      ChunkOk(m.v, buffer.lbas, start, end, r.prev, payloads, buffer.contents);
      RecordsStep(n - start, n - end);
      var now;
      ok, now := WriteRecord(m, r, live, PagesOf(buffer.lbas));
      MixedData(m.v, was, recs, Recs(), r, buffer.contents);
      if !ok { return; }
      live := now;
      DoneStep(m.v, was, recs, r, buffer.lbas, start, end, buffer.contents);
    }

    method StartRelease()
      requires Ready() && !failed
      modifies buffer`lbas
      ensures Ready() && Increasing(buffer.lbas) && |buffer.lbas| == old(|buffer.lbas|) && Due() == old(Due())
    {
      hide Device.Intact, Device.Paced, UpToDate, Covered, Traced, Indexed, LiveCount, Dirty;
      ghost var lbas := buffer.lbas;
      buffer.SortByLba();
      PagesOfSame(lbas, buffer.lbas);
      SameRange(lbas, buffer.lbas, m.v.blocks);
    }

    lemma BeginReleasing(was: seq<Rec>, most: nat)
      requires Ready() && Due() <= most < m.v.backing && ReplayBounded(|buffer.lbas| + Records(|buffer.lbas|))
      requires |Dirty(m.cache.view) + PagesOf(buffer.lbas)| <= |m.cache.slots|
      requires Mixed(was, Recs(), buffer.contents) && OnlySnaps(was, Recs())
      ensures Releasing(was, 0, most)
    {
      hide Device.Intact, Device.Paced, UpToDate, Covered, Traced, Indexed, LiveCount, Dirty, PagesOf, Mixed, InRange,
           Content, Records, Distinct;
      SnapsKeep(m.v, was, Recs(), |Recs()|);
      UnionSize(Dirty(m.cache.view), PagesOf(buffer.lbas));
    }

    method FinishRelease(ghost was: seq<Rec>, ghost contents: map<nat, nat>, ghost most: nat)
      requires Releasing(was, |buffer.lbas|, most) && buffer.contents == contents
      modifies buffer, this`pages
      ensures Operational() && ReplayBounded(0) && buffer.lbas == [] && buffer.contents == map[] && Due() <= most
      ensures forall lba: nat :: Logical(lba) == Overlay(was, contents, lba)
    {
      hide Device.Intact, Device.Paced, UpToDate, Covered, Traced, Indexed, LiveCount, Dirty, Mixed, Content;
      assert buffer.lbas[..|buffer.lbas|] == buffer.lbas;
      assert forall lba: nat :: lba in buffer.contents <==> lba in buffer.lbas;
      ghost var dirty := Dirty(m.cache.view);
      Smaller(dirty, dirty + PagesOf(buffer.lbas));
      buffer.Clear();
      pages := 0;
      assert PagesOf(buffer.lbas) == {};
    }

    /** Writes the whole buffer to the log, sorted by LBA. It cannot run out of space. */
    method Release() returns (r: Result<()>)
      requires Ready() && !failed
      modifies Repr(), m.dev.faults
      ensures Valid() && old(m.dev.trace) <= m.dev.trace && Mixed(old(Recs()), Recs(), old(buffer.contents))
      ensures failed <==> r.Err?
      ensures r.Ok? ==>
                buffer.lbas == [] && buffer.contents == map[] && forall lba: nat :: Logical(lba) == old(Logical(lba))
      ensures r.Ok? && old(buffer.lbas) != [] ==> ReplayBounded(0)
      ensures r.Ok? ==> Due() <= old(Due())
      ensures r.Err? ==> r.error == Io
      ensures r.Err? ==> m.dev.Faulted()
    {
      hide Device.Intact, Device.Paced, UpToDate, Covered, Traced, Indexed, LiveCount, Dirty, PagesOf, Mixed, Done,
           InRange, Records, Content;
      ghost var was, contents, most := Recs(), buffer.contents, Due();
      MixedSelf(was, contents);
      if |buffer.lbas| == 0 {
        Emptied(buffer);
        return Ok(());
      }
      hide Configured, Reserved;
      StartRelease();
      var prepared := PrepareRelease();
      assert Mixed(was, Recs(), contents) by { MixedSnaps(m.v, was, was, Recs(), contents); }
      if prepared.Err? {
        failed := true;
        return prepared;
      }
      BeginReleasing(was, most);
      var start: nat := 0;
      while start < |buffer.lbas|
        invariant Releasing(was, start, most) && buffer.contents == contents && old(m.dev.trace) <= m.dev.trace
        invariant !failed
        invariant buffer.lbas != []
        decreases |buffer.lbas| - start
      {
        var ok, end := ReleaseChunk(start, was, most);
        if !ok {
          failed := true;
          return Err(Io);
        }
        start := end;
      }
      FinishRelease(was, contents, most);
      r := Ok(());
    }

    /** Blocks that admitting one more LBA commits the log to. */
    ghost function Demand(lba: nat): nat
      reads this, m, m.dev, m.cache, buffer
    {
      m.Committed() + |buffer.lbas| + 1 + Records(|buffer.lbas| + 1) + |PagesOf(buffer.lbas + [lba])|
    }

    /** A new LBA asks for at most a payload, a footer and a snapshot more. */
    lemma DemandNear(lba: nat)
      requires pages == |PagesOf(buffer.lbas)|
      ensures Demand(lba) <= Due() + 3
    {
      RecordsNext(|buffer.lbas|);
      PagesOfSnoc(buffer.lbas, lba);
    }

    /** Admits one LBA into the buffer, or finds that the log cannot take it. */
    method AdmitBlock(lba: nat, data: nat) returns (r: Result<()>)
      requires Operational() && !failed && lba < m.v.blocks && lba !in buffer.contents
      modifies this`pages, buffer
      ensures r.Ok? <==> old(Demand(lba)) < m.v.backing
      ensures r.Err? ==> r.error == NoSpace && unchanged(this) && unchanged(buffer)
      ensures r.Ok? ==> Ready() && buffer.contents == old(buffer.contents)[lba := data] && Due() == old(Demand(lba))
    {
      hide Device.Intact, Device.Paced, UpToDate, Covered, Traced, Indexed, LiveCount, DiskInv, Admit, Records,
           PagesOf, Cache.Valid, Vol.Pages, Content;
      var dirty := m.cache.DirtyCount();
      DirtyLimit(m.v, m.Recs(), m.cache.view);
      hide Dirty;
      AdmitCounts(buffer.lbas, pages, dirty, lba);
      m.dev.Facts();
      var a := Admit(buffer.lbas, pages, dirty, lba).value;
      var space := EnsureSpace(m.tail.boundary, m.v.backing, a.total);
      if space.Err? { return Err(space.error); }
      var added := buffer.Store(lba, data);
      pages := a.pages;
      r := Ok(());
    }

    method Coalesce(lba: nat, data: nat)
      requires Operational() && !failed && lba in buffer.contents
      modifies buffer
      ensures Operational() && buffer.contents == old(buffer.contents)[lba := data] && Due() == old(Due())
    {
      hide Device.Intact, Device.Paced, UpToDate, Covered, Traced, Indexed, LiveCount, Dirty, Content, Records;
      var added := buffer.Store(lba, data);
    }

    /** A write is buffered; it is in the log once it is flushed or the buffer filled up. */
    method WriteBlock(lba: nat, data: nat) returns (r: Result<()>)
      requires Valid()
      modifies Repr(), m.dev.faults
      ensures Valid() && old(m.dev.trace) <= m.dev.trace
      ensures Mixed(old(Recs()), Recs(), old(buffer.contents)[lba := data])
      ensures r.Ok? ==> !failed && forall x: nat :: Logical(x) == if x == lba then data else old(Logical(x))
      ensures r.Ok? ==> buffer.contents == old(buffer.contents)[lba := data] || buffer.contents == map[]
      ensures r.Ok? ==> Due() <= old(Due()) + 3
      ensures old(failed) ==> r == Err(Failed)
      ensures !old(failed) && lba >= m.v.blocks ==> r == Err(InvalidInput)
      ensures !old(failed) && lba < m.v.blocks ==>
                (r == Err(NoSpace) <==> lba !in old(buffer.contents) && old(Demand(lba)) >= m.v.backing)
      ensures r.Err? && r.error in {Failed, InvalidInput, NoSpace} ==>
                failed == old(failed) && buffer.contents == old(buffer.contents) && m.dev.trace == old(m.dev.trace)
      ensures r.Err? && r.error !in {Failed, InvalidInput, NoSpace} ==> failed
      ensures r.Err? && r.error !in {Failed, InvalidInput, NoSpace} ==> r.error == Io && m.dev.Faulted()
      ensures r.Err? && r.error in {Failed, InvalidInput, NoSpace} ==>
                m.dev.faults.struck == old(m.dev.faults.struck) && buffer.lbas == old(buffer.lbas)
      ensures (r == Err(Failed) <==> old(failed)) && (r == Err(InvalidInput) <==> !old(failed) && lba >= m.v.blocks)
    {
      hide Device.Intact, Device.Paced, UpToDate, Covered, Traced, Indexed, LiveCount, Dirty, PagesOf, Mixed, Content,
           InRange, Records, Configured, Reserved, Demand;
      MixedSelf(Recs(), buffer.contents[lba := data]);
      if failed { return Err(Failed); }
      if lba >= m.v.blocks { return Err(InvalidInput); }
      if buffer.Get(lba).Some? {
        Coalesce(lba, data);
        return Ok(());
      }
      DemandNear(lba);
      r := AdmitBlock(lba, data);
      if r.Err? { return; }
      if |buffer.lbas| == |buffer.arena| {
        r := Release();
      }
    }

    /** Reads through the mapping; the checksum of a mapped payload always matches. */
    method ReadMapped(lba: nat) returns (r: Result<nat>)
      requires Operational() && !failed && lba < m.v.blocks && lba !in buffer.contents
      modifies Repr(), m.dev.faults
      ensures Valid() && old(m.dev.trace) <= m.dev.trace && OnlySnaps(old(Recs()), Recs())
      ensures buffer.contents == old(buffer.contents) && buffer.lbas == old(buffer.lbas)
      ensures failed <==> r.Err?
      ensures r.Ok? ==> r.value == Content(Recs(), |Recs()|, lba) && Due() == old(Due())
      ensures r.Err? ==> r.error == Io
      ensures r.Err? ==> m.dev.Faulted()
    {
      hide Device.Intact, Device.Paced, UpToDate, Covered, Traced, Indexed, LiveCount, Dirty, PagesOf, Ent, Content,
           OnlySnaps, DiskInv, Records, Distinct;
      ghost var was := Recs();
      var e := m.Lookup(lba / 336, lba % 336);
      if e.Err? {
        failed := true;
        return Err(e.error);
      }
      assert LiveCount(m.v, Recs()) == LiveCount(m.v, was) by { LiveCountSnaps(m.v, was, Recs()); }
      m.dev.Facts();
      MappedBlock(m.v, m.dev.image, Recs(), m.c, lba);
      if e.value.physical == 0 { return Ok(0); }
      var ok, b := m.dev.Read(e.value.physical);
      if !ok {
        failed := true;
        return Err(Io);
      }
      assert m.v.sum(lba, e.value.physical, b.data) == e.value.checksum;
      r := Ok(b.data);
    }

    /** A read returns the newest write, wherever it is. */
    method ReadBlock(lba: nat) returns (r: Result<nat>)
      requires Valid()
      modifies Repr(), m.dev.faults
      ensures Valid() && old(m.dev.trace) <= m.dev.trace && OnlySnaps(old(Recs()), Recs())
      ensures buffer.contents == old(buffer.contents)
      ensures forall x: nat :: Logical(x) == old(Logical(x))
      ensures r.Ok? ==> r.value == old(Logical(lba)) && !failed && Due() == old(Due())
      ensures old(failed) ==> r == Err(Failed) && failed
      ensures !old(failed) && lba >= m.v.blocks ==> r == Err(InvalidInput) && !failed
      ensures !old(failed) && lba < m.v.blocks ==> (failed <==> r.Err?)
      ensures r.Err? && !old(failed) && lba < m.v.blocks ==> r.error == Io && m.dev.Faulted()
      ensures old(failed) || lba >= m.v.blocks ==>
                m.dev.faults.struck == old(m.dev.faults.struck) && m.dev.trace == old(m.dev.trace)
      ensures buffer.lbas == old(buffer.lbas)
    {
      hide Device.Intact, Device.Paced, UpToDate, Covered, Traced, Indexed, LiveCount, Dirty, PagesOf, Content,
           Configured, Reserved;
      ghost var was := Recs();
      assert OnlySnaps(Recs(), Recs()) by { NoSnaps(Recs()); }
      if failed { return Err(Failed); }
      if lba >= m.v.blocks { return Err(InvalidInput); }
      var buffered := buffer.Get(lba);
      if buffered.Some? { return Ok(buffered.value); }
      r := ReadMapped(lba);
      SnapsKeep(m.v, was, Recs(), |Recs()|);
    }

    /** Everything written so far is in the log and synced. */
    method Flush() returns (r: Result<()>)
      requires Valid()
      modifies Repr(), m.dev.faults
      ensures Valid() && old(m.dev.trace) <= m.dev.trace && Mixed(old(Recs()), Recs(), old(buffer.contents))
      ensures old(failed) ==> r == Err(Failed) && m.dev.trace == old(m.dev.trace)
      ensures r.Ok? ==>
                !failed && buffer.contents == map[] && m.dev.Now().may == Synced(m.dev.image) && Due() <= old(Due())
      ensures r.Ok? ==> forall x: nat :: Content(Recs(), |Recs()|, x) == old(Logical(x))
      ensures r.Err? ==> failed && r.error == if old(failed) then Failed else Io
      ensures r.Err? && !old(failed) ==> m.dev.Faulted()
      ensures old(failed) ==>
                && failed && m.dev.faults.struck == old(m.dev.faults.struck)
                && buffer.contents == old(buffer.contents) && buffer.lbas == old(buffer.lbas)
    {
      hide Device.Intact, Device.Paced, UpToDate, Covered, Traced, Indexed, LiveCount, Dirty, PagesOf, Mixed, Content,
           Configured, InRange, Records;
      MixedSelf(Recs(), buffer.contents);
      if failed { return Err(Failed); }
      r := Release();
      if r.Err? { return; }
      var ok := m.dev.Sync();
      if !ok {
        failed := true;
        r := Err(Io);
      }
    }

    /** The checkpoint of a close; a failure latches the volume. */
    method CloseCheckpoint() returns (r: Result<()>)
      requires Operational() && !failed && m.c.desc.lsn < m.tail.lsn
      modifies m`c, m`tail, m.dev, m.dev.faults, m.cache, this`failed
      ensures Valid() && old(m.dev.trace) <= m.dev.trace && OnlySnaps(old(Recs()), Recs())
      ensures failed <==> r.Err?
      ensures r.Ok? ==> At(m.c) == m.tail
      ensures r.Err? ==> r.error == Io
      ensures r.Err? ==> m.dev.Faulted()
    {
      hide Device.Intact, Device.Paced, UpToDate, Covered, Traced, Indexed, LiveCount, PagesOf, OnlySnaps, Records,
           Distinct;
      ghost var was := Recs();
      m.dev.Facts();
      CheckpointBehind(m.v, m.dev.image, Recs(), m.c);
      r := m.Checkpoint();
      if r.Err? {
        failed := true;
      } else {
        assert LiveCount(m.v, Recs()) == LiveCount(m.v, was) by { LiveCountSnaps(m.v, was, Recs()); }
      }
    }

    /** After a clean close the checkpoint covers the whole log. */
    method Close() returns (r: Result<()>)
      requires Valid()
      modifies Repr(), m.dev.faults
      ensures Valid() && old(m.dev.trace) <= m.dev.trace && Mixed(old(Recs()), Recs(), old(buffer.contents))
      ensures r.Ok? ==> m.dev.Holds(Recs(), m.c) && m.c.desc.lsn == |Recs()|
      ensures r.Ok? ==> forall x: nat :: Content(Recs(), |Recs()|, x) == old(Logical(x))
      ensures r.Err? ==> failed && r.error == if old(failed) then Failed else Io
      ensures r.Err? && !old(failed) ==> m.dev.Faulted()
    {
      hide Device.Intact, Device.Paced, UpToDate, Covered, Traced, Indexed, LiveCount, Dirty, PagesOf, Mixed, Content,
           Configured, InRange, Records;
      ghost var was, contents := Recs(), buffer.contents;
      MixedSelf(was, contents);
      if failed { return Err(Failed); }
      r := Release();
      if r.Err? { return; }
      ghost var released := Recs();
      if m.tail.lsn == m.c.desc.lsn {
        var ok := m.dev.Sync();
        if !ok {
          failed := true;
          r := Err(Io);
        }
      } else {
        m.dev.Facts();
        CheckpointBehind(m.v, m.dev.image, Recs(), m.c);
        r := CloseCheckpoint();
        MixedSnaps(m.v, was, released, Recs(), contents);
        SnapsKeep(m.v, released, Recs(), |Recs()|);
      }
    }
  }

  /** The mapping leads to the newest payload, and its checksum is right. */
  lemma MappedBlock(v: Vol, I: Image, recs: seq<Rec>, c: Checkpoint, lba: nat)
    requires DiskInv(v, I, recs, c)
    ensures var e := Ent(v, recs, |recs|, lba);
            if e.physical == 0 then Content(recs, |recs|, lba) == 0
            else e.physical < |I| && I[e.physical] == Raw(Content(recs, |recs|, lba))
                 && e.checksum == v.sum(lba, e.physical, Content(recs, |recs|, lba))
  {
    var j := Last(recs, |recs|, lba);
    if j >= 0 {
      assert RecAt(v, I, recs, j);
      var k := Find(recs[j].lbas, lba);
      assert I[recs[j].prev + 1 + k] == Raw(recs[j].payloads[k]);
    }
  }

  lemma DirtyLimit(v: Vol, recs: seq<Rec>, view: View)
    requires v.Ok() && UpToDate(v, recs, view)
    ensures |Dirty(view)| <= PAGE_LIMIT
  {
    hide PageAt;
    SmallSet(Dirty(view), v.Pages());
  }

  lemma MixedSelf(was: seq<Rec>, contents: map<nat, nat>)
    ensures Mixed(was, was, contents)
  {
  }

  lemma Emptied(buffer: WriteBackBuffer)
    requires buffer.Valid() && buffer.lbas == []
    ensures buffer.contents == map[]
  {
  }

  lemma SameRange(a: seq<nat>, b: seq<nat>, blocks: nat)
    requires InRange(a, blocks) && forall x :: x in b ==> x in a
    ensures InRange(b, blocks)
  {
    forall k | 0 <= k < |b| ensures b[k] < blocks { assert b[k] in a; }
  }

  lemma RecordsGrow(a: nat, b: nat)
    ensures a <= b ==> Records(a) <= Records(b)
  {
  }

  lemma RecordsNext(n: nat)
    ensures Records(n + 1) <= Records(n) + 1
  {
  }

  lemma RecordsStep(left: nat, rest: nat)
    requires left > 0 && rest == if left <= MAX_PAYLOADS then 0 else left - MAX_PAYLOADS
    ensures Records(left) == Records(rest) + 1
  {
  }

  /** The LBAs in `done` hold their buffered payloads, all others their content in `was`. */
  ghost predicate Done(was: seq<Rec>, recs: seq<Rec>, done: seq<nat>, contents: map<nat, nat>) {
    forall lba: nat :: Content(recs, |recs|, lba) ==
                       if lba in done && lba in contents then contents[lba] else Content(was, |was|, lba)
  }

  lemma DoneStep(v: Vol, was: seq<Rec>, recs: seq<Rec>, r: Rec, lbas: seq<nat>, start: nat, end: nat,
                 contents: map<nat, nat>)
    requires start <= end <= |lbas| && Done(was, recs, lbas[..start], contents)
    requires Carries(r, contents) && r.lbas == lbas[start..end]
    ensures Done(was, recs + [r], lbas[..end], contents)
  {
    hide Content;
    assert lbas[..end] == lbas[..start] + r.lbas;
    forall lba: nat
      ensures Content(recs + [r], |recs| + 1, lba) ==
              if lba in lbas[..end] && lba in contents then contents[lba] else Content(was, |was|, lba)
    {
      ContentSnoc(v, recs, r, lba);
    }
  }

  lemma ChunkOk(v: Vol, lbas: seq<nat>, start: nat, end: nat, prev: nat, payloads: seq<nat>, contents: map<nat, nat>)
    requires Distinct(lbas) && InRange(lbas, v.blocks) && start < end <= |lbas| && end <= start + MAX_PAYLOADS
    requires |payloads| == end - start
    requires forall k :: 0 <= k < |payloads| ==> lbas[start + k] in contents && payloads[k] == contents[lbas[start + k]]
    ensures RecOk(v, Data(prev, lbas[start..end], payloads))
    ensures Carries(Data(prev, lbas[start..end], payloads), contents)
    ensures PagesOf(lbas[start..end]) <= PagesOf(lbas)
  {
    var part: seq<nat> := lbas[start..end];
    forall i, j | 0 <= i < j < |part| ensures part[i] != part[j] {
      assert part[i] == lbas[start + i] && part[j] == lbas[start + j];
    }
    forall k: nat | k < |part|
      ensures part[k] / 336 in PagesOf(lbas) && part[k] < v.blocks
      ensures part[k] in contents && payloads[k] == contents[part[k]]
    {
      var x := payloads[k];
      assert lbas[start + k] in contents && x == contents[lbas[start + k]];
      assert part[k] == lbas[start + k];
    }
  }
}
