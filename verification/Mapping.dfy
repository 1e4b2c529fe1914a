/** The mapping state of an open volume: active checkpoint, cache and log tail. */
module Mapping {
  import opened Blocks
  import opened Log
  import opened Disk
  import opened Device
  import opened Cache
  import opened Publish

  const READ_AHEAD: nat := 4

  /** Resident pages belong to the window `lo..hi` and hold the mapping of a replay stage. */
  ghost predicate CurrentAt(v: Vol, recs: seq<Rec>, i: nat, k: nat, lo: nat, hi: nat, view: View)
    requires StageOk(recs, i, k)
  {
    forall p :: p in view ==> lo <= p < hi && view[p].entries == PageMid(v, recs, i, k, p)
  }

  /** Every page of the window that is not dirty has, in checkpoint `c`, its mapping of that stage. */
  ghost predicate CoveredAt(v: Vol, recs: seq<Rec>, i: nat, k: nat, lo: nat, hi: nat, c: Checkpoint, view: View)
    requires StageOk(recs, i, k) && c.desc.lsn <= |recs|
  {
    forall p :: lo <= p < hi && p !in Dirty(view) ==>
      PageAt(v, recs, c.desc.lsn, p) == PageMid(v, recs, i, k, p)
  }

  lemma AtEnd(v: Vol, recs: seq<Rec>, c: Checkpoint, view: View)
    requires c.desc.lsn <= |recs|
    ensures CurrentAt(v, recs, |recs|, 0, 0, v.Pages(), view) <==> UpToDate(v, recs, view)
    ensures CoveredAt(v, recs, |recs|, 0, 0, v.Pages(), c, view) <==> Covered(v, recs, c, view)
  {
    forall p: nat ensures PageMid(v, recs, |recs|, 0, p) == PageAt(v, recs, |recs|, p) {}
  }

  /** A page read from its snapshot replaces only clean pages and is itself up to date. */
  lemma InstallKeeps(v: Vol, recs: seq<Rec>, i: nat, k: nat, lo: nat, hi: nat, c: Checkpoint, view: View,
                     gone: set<nat>, p: nat, now: View)
    requires StageOk(recs, i, k) && c.desc.lsn <= |recs| && lo <= p < hi && p !in view
    requires CurrentAt(v, recs, i, k, lo, hi, view) && CoveredAt(v, recs, i, k, lo, hi, c, view)
    requires gone <= view.Keys - Dirty(view)
    requires now == (view - gone)[p := Cached(PageAt(v, recs, c.desc.lsn, p), false)]
    ensures CurrentAt(v, recs, i, k, lo, hi, now) && CoveredAt(v, recs, i, k, lo, hi, c, now)
    ensures Dirty(now) == Dirty(view)
  {
    hide PageAt, PageMid;
    assert p !in Dirty(view);
    assert PageAt(v, recs, c.desc.lsn, p) == PageMid(v, recs, i, k, p);
    assert Dirty(now) == Dirty(view);
  }

  lemma SnapshotReadable(v: Vol, I: Image, recs: seq<Rec>, c: Checkpoint, p: nat)
    requires DiskInv(v, I, recs, c) && p < v.Pages()
    ensures |c.index| == v.Pages() && c.desc.lsn <= |recs|
    ensures c.index[p] != 0 ==>
              && c.index[p] < |I| && PageOk(v, I[c.index[p]], p, c.index[p], c.desc.lsn)
              && I[c.index[p]].body.entries == PageAt(v, recs, c.desc.lsn, p)
    ensures c.index[p] == 0 ==> EmptyPage() == PageAt(v, recs, c.desc.lsn, p)
    ensures Installable(v.blocks, p, PageAt(v, recs, c.desc.lsn, p))
  {
    assert PtrAt(v, I, c, p);
    assert Entries(I, c, p) == PageAt(v, recs, c.desc.lsn, p);
    BoundaryGrows(v, recs, c.desc.lsn, |recs|);
    PageValid(v, recs, c.desc.lsn, p, v.backing);
    assert forall k :: 0 <= k < 336 ==> EntryOk(v, p, k, PageAt(v, recs, c.desc.lsn, p)[k], v.backing);
  }

  /** The snapshots of the pages after `p`, as far as `ahead` reaches. */
  ghost predicate Ahead(I: Image, c: Checkpoint, p: nat, ahead: seq<Block>) {
    && p + |ahead| < |c.index|
    && forall o :: 0 <= o < |ahead| ==> AheadAt(I, c, p + 1 + o, ahead[o])
  }

  ghost predicate AheadAt(I: Image, c: Checkpoint, q: nat, b: Block)
    requires q < |c.index|
  {
    0 < c.index[q] < |I| && b == I[c.index[q]]
  }

  /** Reads page `p` of checkpoint `c`, and up to `limit - 1` pages whose snapshots follow it on disk. */
  method ReadPages(v: Vol, dev: Device, c: Checkpoint, p: nat, limit: nat)
    returns (r: Result<seq<Entry>>, ahead: seq<Block>)
    requires v.Ok() && dev.v == v && dev.Holds(dev.Recs(), c) && c.desc.lsn <= |dev.Recs()|
    requires p < v.Pages() && 1 <= limit
    modifies dev.faults
    ensures r.Ok? ==> r.value == PageAt(v, dev.Recs(), c.desc.lsn, p)
    ensures r.Err? ==> r.error == Io
    ensures |ahead| < limit && Ahead(dev.image, c, p, ahead)
    ensures r == Err(Io) ==> dev.Faulted()
  {
    hide Device.Intact, Device.Paced, DiskInv, PageAt, Installable, PageOk;
    ahead := [];
    dev.Facts();
    SnapshotReadable(v, dev.image, dev.Recs(), c, p);
    var boundary := c.index[p];
    if boundary == 0 { return Ok(EmptyPage()), ahead; }
    var ok, first := dev.Read(boundary);
    if !ok { return Err(Io), ahead; }
    assert PageOk(v, first, p, boundary, c.desc.lsn);
    r := Ok(first.body.entries) by { PageShape(v, first, p, boundary, c.desc.lsn); }
    while |ahead| + 1 < limit && p + |ahead| + 1 < |c.index| && c.index[p + |ahead| + 1] == boundary + |ahead| + 1
      invariant |ahead| < limit && Ahead(dev.image, c, p, ahead)
      decreases limit - |ahead|
    {
      SnapshotReadable(v, dev.image, dev.Recs(), c, p + |ahead| + 1);
      var good, b := dev.Read(boundary + |ahead| + 1);
      if !good { return Err(Io), ahead; }
      ahead := ahead + [b];
    }
  }

  lemma PageShape(v: Vol, b: Block, p: nat, at: nat, most: nat)
    requires PageOk(v, b, p, at, most)
    ensures b.Record? && b.body.Page?
  {
  }

  /** Loads page `p` into a replaceable slot at a given replay stage. */
  method Fetch(v: Vol, dev: Device, cache: Cache, c: Checkpoint, s: nat, p: nat, limit: nat,
               ghost i: nat, ghost k: nat, ghost lo: nat, ghost hi: nat)
    returns (r: Result<()>, ahead: seq<Block>)
    requires v.Ok() && dev.v == v && dev.Holds(dev.Recs(), c) && c.desc.lsn <= |dev.Recs()|
    requires cache.Valid() && cache.pages == v.Pages() && cache.blocks == v.blocks
    requires lo <= p < hi <= v.Pages() && 1 <= limit && cache.Replaceable(s, p)
    requires StageOk(dev.Recs(), i, k)
    requires CurrentAt(v, dev.Recs(), i, k, lo, hi, cache.view) && CoveredAt(v, dev.Recs(), i, k, lo, hi, c, cache.view)
    modifies cache, cache.clock, dev.faults
    ensures cache.Valid() && |cache.slots| == old(|cache.slots|) && Dirty(cache.view) == old(Dirty(cache.view))
    ensures CurrentAt(v, dev.Recs(), i, k, lo, hi, cache.view) && CoveredAt(v, dev.Recs(), i, k, lo, hi, c, cache.view)
    ensures r.Ok? ==> p in cache.view && p in cache.lookup && cache.lookup[p] == s
    ensures r.Err? ==> r.error == Io
    ensures |ahead| < limit && Ahead(dev.image, c, p, ahead)
    ensures r == Err(Io) ==> dev.Faulted()
  {
    hide Device.Intact, Device.Paced, DiskInv, PageAt, Installable, PageMid, CurrentAt, CoveredAt, Indexed;
    dev.Facts();
    SnapshotReadable(v, dev.image, dev.Recs(), c, p);
    var read, more := ReadPages(v, dev, c, p, limit);
    ahead := more;
    if read.Err? { return Err(read.error), ahead; }
    ghost var view := cache.view;
    assert p !in view by { ViewKeys(cache, p); }
    var ok, gone := cache.Install(s, p, read.value);
    InstallKeeps(v, dev.Recs(), i, k, lo, hi, c, view, gone, p, cache.view);
    r := Ok(());
  }

  /** One mapping update takes the cache to the next stage and dirties exactly its page. */
  lemma UpdateKeeps(v: Vol, recs: seq<Rec>, i: nat, k: nat, lo: nat, hi: nat, c: Checkpoint, view: View, p: nat,
                    now: View)
    requires i < |recs| && recs[i].Data? && Distinct(recs[i].lbas) && k < |recs[i].lbas| && c.desc.lsn <= |recs|
    requires CurrentAt(v, recs, i, k, lo, hi, view) && CoveredAt(v, recs, i, k, lo, hi, c, view)
    requires p in view && p == recs[i].lbas[k] / 336 && |view[p].entries| == 336
    requires now == view[p := Cached(view[p].entries[recs[i].lbas[k] % 336 := Made(v, recs[i], k)], true)]
    ensures CurrentAt(v, recs, i, k + 1, lo, hi, now) && CoveredAt(v, recs, i, k + 1, lo, hi, c, now)
    ensures Dirty(now) == Dirty(view) + {p}
  {
    hide PageAt, PageMid, Made;
    UpdateDirty(view, p, now);
    PageStep(v, recs, i, k, p);
    forall q | q in now ensures lo <= q < hi && now[q].entries == PageMid(v, recs, i, k + 1, q) {
      if q != p { PageStep(v, recs, i, k, q); }
    }
    forall q | lo <= q < hi && q !in Dirty(now)
      ensures PageAt(v, recs, c.desc.lsn, q) == PageMid(v, recs, i, k + 1, q)
    {
      assert q != p && q !in Dirty(view);
      PageStep(v, recs, i, k, q);
    }
  }

  lemma UpdateDirty(view: View, p: nat, now: View)
    requires p in view && p in now && now == view[p := now[p]] && now[p].dirty
    ensures Dirty(now) == Dirty(view) + {p}
  {
  }

  /** A payload of a page outside the window changes nothing inside it. */
  lemma SkipKeeps(v: Vol, recs: seq<Rec>, i: nat, k: nat, lo: nat, hi: nat, c: Checkpoint, view: View)
    requires i < |recs| && recs[i].Data? && Distinct(recs[i].lbas) && k < |recs[i].lbas| && c.desc.lsn <= |recs|
    requires CurrentAt(v, recs, i, k, lo, hi, view) && CoveredAt(v, recs, i, k, lo, hi, c, view)
    requires !(lo <= recs[i].lbas[k] / 336 < hi)
    ensures CurrentAt(v, recs, i, k + 1, lo, hi, view) && CoveredAt(v, recs, i, k + 1, lo, hi, c, view)
  {
    hide PageAt, PageMid;
    forall q: nat | lo <= q < hi ensures PageMid(v, recs, i, k + 1, q) == PageMid(v, recs, i, k, q) {
      PageStep(v, recs, i, k, q);
    }
  }

  /** `acquire` where no checkpoint may be needed: the dirty pages and this one fit the cache. */
  method Occupy(v: Vol, dev: Device, cache: Cache, c: Checkpoint, p: nat,
                ghost i: nat, ghost k: nat, ghost lo: nat, ghost hi: nat)
    returns (r: Result<nat>)
    requires v.Ok() && dev.v == v && dev.Holds(dev.Recs(), c) && c.desc.lsn <= |dev.Recs()|
    requires cache.Valid() && cache.pages == v.Pages() && cache.blocks == v.blocks
    requires lo <= p < hi <= v.Pages() && |Dirty(cache.view) + {p}| <= |cache.slots|
    requires StageOk(dev.Recs(), i, k)
    requires CurrentAt(v, dev.Recs(), i, k, lo, hi, cache.view) && CoveredAt(v, dev.Recs(), i, k, lo, hi, c, cache.view)
    modifies cache, cache.clock, dev.faults
    ensures cache.Valid() && |cache.slots| == old(|cache.slots|) && Dirty(cache.view) == old(Dirty(cache.view))
    ensures CurrentAt(v, dev.Recs(), i, k, lo, hi, cache.view) && CoveredAt(v, dev.Recs(), i, k, lo, hi, c, cache.view)
    ensures r.Ok? ==> p in cache.lookup && cache.lookup[p] == r.value
    ensures r.Err? ==> r.error == Io
    ensures r == Err(Io) ==> dev.Faulted()
  {
    hide Device.Intact, Device.Paced, CurrentAt, CoveredAt, Indexed;
    var got := cache.Acquire(p);
    if got.value.CheckpointRequired? {
      cache.FullCount();
      assert false;
    }
    r := Ok(got.value.slot);
    if got.value.Vacant? {
      var fetched, _ := Fetch(v, dev, cache, c, got.value.slot, p, 1, i, k, lo, hi);
      if fetched.Err? { r := Err(fetched.error); }
    }
  }

  /** Applies payload `k` of record `i` to its resident page; tells whether its LBA was unmapped. */
  method MapEntry(v: Vol, cache: Cache, c: Checkpoint, s: nat, lba: nat, e: Entry,
                  ghost recs: seq<Rec>, ghost i: nat, ghost k: nat, ghost lo: nat, ghost hi: nat)
    returns (unmapped: bool)
    requires cache.Valid() && cache.blocks == v.blocks && c.desc.lsn <= |recs|
    requires i < |recs| && recs[i].Data? && Distinct(recs[i].lbas) && k < |recs[i].lbas|
    requires lba == recs[i].lbas[k] < v.blocks && e == Made(v, recs[i], k)
    requires lba / 336 in cache.lookup && cache.lookup[lba / 336] == s
    requires CurrentAt(v, recs, i, k, lo, hi, cache.view) && CoveredAt(v, recs, i, k, lo, hi, c, cache.view)
    modifies cache
    ensures cache.Valid() && |cache.slots| == old(|cache.slots|)
    ensures lba / 336 in cache.lookup && cache.lookup[lba / 336] == s
    ensures CurrentAt(v, recs, i, k + 1, lo, hi, cache.view) && CoveredAt(v, recs, i, k + 1, lo, hi, c, cache.view)
    ensures Dirty(cache.view) == old(Dirty(cache.view)) + {lba / 336}
    ensures unmapped == (Mid(v, recs, i, k, lba).physical == 0)
  {
    hide CoveredAt, PageMid, Mid, Made;
    ghost var view, p := cache.view, lba / 336;
    SlotView(cache, p);
    assert view[p].entries == PageMid(v, recs, i, k, p);
    unmapped := cache.slots[s].entries[lba % 336].physical == 0;
    assert e.physical != 0 by { MadeNonzero(v, recs[i], k); }
    var ok := cache.Update(s, lba % 336, e);
    UpdateKeeps(v, recs, i, k, lo, hi, c, view, p, cache.view);
  }

  lemma MadeNonzero(v: Vol, r: Rec, k: nat)
    ensures Made(v, r, k).physical != 0
  {
  }

  lemma SlotView(cache: Cache, p: nat)
    requires cache.Valid() && p in cache.lookup
    ensures cache.lookup[p] < cache.resident <= |cache.slots| && cache.slots[cache.lookup[p]].page == p
    ensures p in cache.view && cache.view[p].entries == cache.slots[cache.lookup[p]].entries
  {
  }

  lemma ViewKeys(cache: Cache, p: nat)
    requires cache.Valid()
    ensures p in cache.view <==> p in cache.lookup
  {
  }

  lemma PublishedFresh(v: Vol, recs: seq<Rec>, more: seq<Rec>, c: Checkpoint, view: View)
    requires UpToDate(v, recs, view) && OnlySnaps(recs, more) && c.desc.lsn == |more|
    ensures UpToDate(v, more, Cleaned(view)) && Covered(v, more, c, Cleaned(view)) && Traced(v, more, c, Cleaned(view))
  {
    hide PageAt;
    TouchedPagesStart(v, more, |more|);
    forall p | p in view ensures PageAt(v, more, |more|, p) == PageAt(v, recs, |recs|, p) {
      SnapsKeepPage(v, recs, more, p);
    }
  }

  class MappingState {
    const v: Vol
    const dev: Device
    const cache: Cache
    var c: Checkpoint
    var tail: Position
    var lastRead: Option<nat>

    ghost function Recs(): seq<Rec>
      reads this, dev
    {
      dev.Recs()
    }

    /** Blocks the log must still be able to take: the snapshots of the dirty pages. */
    ghost function Committed(): nat
      reads this, dev, cache
    {
      Tail(v, dev.Recs()) + |Dirty(cache.view)|
    }

    ghost predicate Shape()
      reads this, dev, cache, cache.clock
    {
      && v.Ok() && dev.v == v && dev.Keeps(dev.Recs(), c) && c.desc.lsn <= |dev.Recs()|
      && cache.Valid() && cache.pages == v.Pages() && cache.blocks == v.blocks
    }

    ghost predicate Sound()
      reads this, dev, cache, cache.clock
    {
      && Shape()
      && tail == Position(|dev.Recs()|, Tail(v, dev.Recs()))
      && UpToDate(v, dev.Recs(), cache.view) && Covered(v, dev.Recs(), c, cache.view)
      && Traced(v, dev.Recs(), c, cache.view) && Committed() < v.backing
    }

    ghost predicate Valid()
      reads this, dev, cache, cache.clock
    {
      Sound() && dev.Paced()
    }

    constructor (v: Vol, dev: Device, cache: Cache, c: Checkpoint, tail: Position)
      requires v.Ok() && dev.v == v && dev.Holds(dev.Recs(), c) && c.desc.lsn <= |dev.Recs()|
      requires cache.Valid() && cache.pages == v.Pages() && cache.blocks == v.blocks
      requires tail == Position(|dev.Recs()|, Tail(v, dev.Recs()))
      requires UpToDate(v, dev.Recs(), cache.view) && Covered(v, dev.Recs(), c, cache.view)
      requires Traced(v, dev.Recs(), c, cache.view)
      requires Tail(v, dev.Recs()) + |Dirty(cache.view)| < v.backing
      ensures Valid() && this.v == v && this.dev == dev && this.cache == cache && this.c == c && this.tail == tail
    {
      this.v, this.dev, this.cache, this.c, this.tail := v, dev, cache, c, tail;
      lastRead := None;
    }

    /** Publishes. The pace is kept where there are new log blocks or dirty pages. */
    method Checkpoint() returns (r: Result<()>)
      requires Sound()
      modifies this`c, this`tail, dev, dev.faults, cache
      ensures old(dev.Paced() && c.desc.boundary < Committed()) ==> dev.Paced()
      ensures dev.Intact() && old(dev.trace) <= dev.trace && OnlySnaps(old(Recs()), Recs())
      ensures |cache.slots| == old(|cache.slots|)
      ensures r.Ok? ==> Sound() && Dirty(cache.view) == {} && At(c) == tail && Committed() == old(Committed())
      ensures r.Err? ==> if r.error == Io then dev.Faulted() else dev.trace == old(dev.trace)
      ensures r.Err? ==> r.error == if old(c.desc.generation) == MAX_U64 then InvalidData else Io
      ensures old(dev.Paced()) ==> old(c.desc.generation) < MAX_U64
    {
      hide UpToDate, Covered, Traced, Device.Intact, Device.Paced, Indexed, PageAt, OnlySnaps;
      ghost var recs, view := dev.Recs(), cache.view;
      var p := Publish.Publish(v, dev, cache, c, tail);
      if p.Err? { return Err(p.error); }
      c := p.value;
      tail := At(c);
      PublishedFresh(v, recs, dev.Recs(), c, view);
      r := Ok(());
    }

    /** Finds a slot for page `p`, publishing a checkpoint when every slot is dirty. */
    method Claim(p: nat) returns (r: Result<Acquisition>)
      requires Valid() && p < v.Pages()
      modifies this`c, this`tail, dev, dev.faults, cache, cache.clock
      ensures dev.Valid() && old(dev.trace) <= dev.trace && OnlySnaps(old(Recs()), Recs())
      ensures r.Ok? ==> Valid() && Committed() == old(Committed()) && !r.value.CheckpointRequired?
      ensures r.Ok? && r.value.Resident? ==> p in cache.lookup && cache.lookup[p] == r.value.slot
      ensures r.Ok? && r.value.Vacant? ==> cache.Replaceable(r.value.slot, p)
      ensures r.Err? ==> r.error == Io
      ensures r.Err? ==> dev.Faulted()
    {
      hide UpToDate, Covered, Traced, Device.Intact, Device.Paced, Indexed, PageAt;
      r := cache.Acquire(p);
      if r.value.CheckpointRequired? {
        cache.FullCount();
        dev.Facts();
        CheckpointBehind(v, dev.image, dev.Recs(), c);
        var done := Checkpoint();
        if done.Err? { return Err(done.error); }
        var again := cache.Resolve(p);
        if again.CheckpointRequired? {
          cache.FullCount();
          assert false;
        }
        r := Ok(again);
      }
    }

    /** Offers the pages that were read along with page `p` to the cache. */
    method InstallAhead(p: nat, ahead: seq<Block>)
      requires Valid() && Ahead(dev.image, c, p, ahead)
      modifies cache, cache.clock
      ensures Valid() && Dirty(cache.view) == old(Dirty(cache.view)) && |cache.slots| == old(|cache.slots|)
    {
      hide UpToDate, Covered, Traced, Device.Intact, Device.Paced, Indexed, PageAt, Dirty, Installable;
      var o := 0;
      while o < |ahead|
        invariant o <= |ahead| && Valid() && Dirty(cache.view) == old(Dirty(cache.view))
        invariant |cache.slots| == old(|cache.slots|)
      {
        InstallOne(p + 1 + o, ahead[o]);
        o := o + 1;
      }
    }

    method InstallOne(q: nat, b: Block)
      requires Valid() && q < |c.index| && AheadAt(dev.image, c, q, b)
      modifies cache, cache.clock
      ensures Valid() && Dirty(cache.view) == old(Dirty(cache.view)) && |cache.slots| == old(|cache.slots|)
    {
      hide UpToDate, Covered, Traced, Device.Intact, Device.Paced, Indexed, PageAt, Dirty, Installable, PageOk,
           DiskInv, Tail, CurrentAt, CoveredAt;
      ghost var view := cache.view;
      dev.Facts();
      assert q < v.Pages() by { IndexShape(v, dev.image, dev.Recs(), c); }
      SnapshotReadable(v, dev.image, dev.Recs(), c, q);
      PageShape(v, b, q, c.index[q], c.desc.lsn);
      var r, gone := cache.Prefetch(q, b.body.entries);
      AtEnd(v, dev.Recs(), c, view);
      if r == Ok(true) {
        InstallKeeps(v, dev.Recs(), |dev.Recs()|, 0, 0, v.Pages(), c, view, gone, q, cache.view);
        AtEnd(v, dev.Recs(), c, cache.view);
        TracedSame(v, dev.Recs(), c, view, cache.view);
      }
    }

    /** `with_page` for a read: the mapping entry of one LBA. */
    method Lookup(p: nat, e: nat) returns (r: Result<Entry>)
      requires Valid() && p < v.Pages() && e < 336
      modifies this, dev, dev.faults, cache, cache.clock
      ensures dev.Valid() && old(dev.trace) <= dev.trace && OnlySnaps(old(Recs()), Recs())
      ensures r.Ok? ==> Valid() && Committed() == old(Committed())
      ensures r.Ok? ==> r.value == Ent(v, Recs(), |Recs()|, p * 336 + e)
      ensures r.Err? ==> r.error == Io
      ensures r.Err? ==> dev.Faulted()
    {
      hide UpToDate, Covered, Traced, Device.Intact, Device.Paced, Indexed, PageAt, Dirty, Ent, CurrentAt, CoveredAt;
      var sequential := lastRead.Some? && lastRead.value + 1 == p;
      lastRead := Some(p);
      var claimed := Claim(p);
      if claimed.Err? { return Err(claimed.error); }
      var s := claimed.value.slot;
      var ahead: seq<Block> := [];
      if claimed.value.Vacant? {
        var limit := 1;
        if sequential { limit := cache.PrefetchLimit(s, p, READ_AHEAD); }
        AtEnd(v, dev.Recs(), c, cache.view);
        ghost var view := cache.view;
        var fetched, more := Fetch(v, dev, cache, c, s, p, limit, |dev.Recs()|, 0, 0, v.Pages());
        if fetched.Err? { return Err(fetched.error); }
        AtEnd(v, dev.Recs(), c, cache.view);
        TracedSame(v, dev.Recs(), c, view, cache.view);
        ahead := more;
      }
      Resident(p, s, e);
      r := Ok(cache.slots[s].entries[e]);
      if claimed.value.Vacant? { InstallAhead(p, ahead); }
    }

    lemma Resident(p: nat, s: nat, e: nat)
      requires Valid() && p in cache.lookup && cache.lookup[p] == s && e < 336
      ensures s < |cache.slots| && |cache.slots[s].entries| == 336
      ensures cache.slots[s].entries[e] == Ent(v, Recs(), |Recs()|, p * 336 + e)
    {
      assert cache.view[p].entries == PageAt(v, Recs(), |Recs()|, p);
    }
  }
}
