/** Checkpoint publication: append the dirty pages, sync, write the index body, sync, switch
    the root descriptor, sync. */
module Publish {
  import opened Blocks
  import opened Sorting
  import opened Log
  import opened Disk
  import opened Device
  import opened Cache

  /** Append space left after `boundary`, as admission and publication check it. */
  function EnsureSpace(boundary: nat, backing: nat, required: nat): Result<()> {
    if backing > MAX_BACKING || boundary >= backing then Err(InvalidInput)
    else if required > backing - (boundary + 1) then Err(NoSpace)
    else Ok(())
  }

  /** The next candidate root for a log that ends at `tail`. */
  function Prepare(active: Checkpoint, snapshots: nat, tail: Position): Result<Checkpoint> {
    var d := active.desc;
    if || tail.lsn < d.lsn || tail.boundary < d.boundary
       || tail.lsn - d.lsn > tail.boundary - d.boundary
       || (tail.lsn == d.lsn) != (tail.boundary == d.boundary)
    then Err(InvalidInput)
    else if EnsureSpace(tail.boundary, d.backing, snapshots).Err?
    then Err(EnsureSpace(tail.boundary, d.backing, snapshots).error)
    else if tail.lsn + snapshots > MAX_U64 then Err(InvalidInput)
    else if d.generation + 1 > MAX_U64 then Err(InvalidData)
    else Ok(active.(desc := d.(slot := Other(d.slot), generation := d.generation + 1,
                               lsn := tail.lsn, boundary := tail.boundary)))
  }

  /** Every page of `view` that is dirty holds the mapping at the end of the log. */
  ghost predicate UpToDate(v: Vol, recs: seq<Rec>, view: View) {
    forall p :: p in view ==> p < v.Pages() && view[p].entries == PageAt(v, recs, |recs|, p)
  }

  /** Every page that is not dirty is right in checkpoint `c`. */
  ghost predicate Covered(v: Vol, recs: seq<Rec>, c: Checkpoint, view: View)
    requires c.desc.lsn <= |recs|
  {
    forall p :: 0 <= p < v.Pages() && p !in Dirty(view) ==>
      PageAt(v, recs, c.desc.lsn, p) == PageAt(v, recs, |recs|, p)
  }

  /** The dirty pages are exactly those that the log touched since checkpoint `c`. */
  ghost predicate Traced(v: Vol, recs: seq<Rec>, c: Checkpoint, view: View) {
    Dirty(view) == TouchedPages(v, recs, c.desc.lsn, |recs|)
  }

  /** The block that the log ends at once the pages touched since checkpoint `c` have their snapshots. */
  ghost function Promised(v: Vol, recs: seq<Rec>, c: Checkpoint): nat {
    Tail(v, recs) + |TouchedPages(v, recs, c.desc.lsn, |recs|)|
  }

  lemma TracedSame(v: Vol, recs: seq<Rec>, c: Checkpoint, view: View, now: View)
    requires Traced(v, recs, c, view) && Dirty(now) == Dirty(view)
    ensures Traced(v, recs, c, now)
  {
  }

  /** The only refusal of publication: a log without room for the snapshots, or the last generation number spent. */
  ghost function Refusal(v: Vol, recs: seq<Rec>, c: Checkpoint, dirty: nat): Option<Error> {
    if Tail(v, recs) + dirty >= v.backing then Some(NoSpace)
    else if c.desc.generation == MAX_U64 then Some(InvalidData)
    else None
  }

  /** In every reachable state publication's own checks find nothing else. */
  lemma Publishable(v: Vol, I: Image, recs: seq<Rec>, c: Checkpoint, dirty: nat)
    requires DiskInv(v, I, recs, c)
    ensures var r, refusal := Prepare(c, dirty, Position(|recs|, Tail(v, recs))), Refusal(v, recs, c, dirty);
            if refusal.Some? then r == Err(refusal.value) else r.Ok?
    ensures Aged(v, c.desc) ==> c.desc.generation < MAX_U64
  {
    BoundaryGrows(v, recs, c.desc.lsn, |recs|);
    BoundaryGrows(v, recs, 0, c.desc.lsn);
  }

  lemma Prepared(v: Vol, I: Image, recs: seq<Rec>, c: Checkpoint, dirty: nat, tail: Position)
    requires DiskInv(v, I, recs, c) && Prepare(c, dirty, tail).Ok?
    ensures Prepare(c, dirty, tail).value.index == c.index && At(Prepare(c, dirty, tail).value) == tail
    ensures NextRoot(v, c, Prepare(c, dirty, tail).value.desc)
  {
  }

  /** A fresh candidate already has every page but the dirty ones. */
  lemma PreparedStaged(v: Vol, I: Image, recs: seq<Rec>, c: Checkpoint, view: View, d: Checkpoint)
    requires DiskInv(v, I, recs, c) && Covered(v, recs, c, view)
    requires d.index == c.index && At(d) == Position(|recs|, Tail(v, recs))
    ensures Staged(v, I, recs, d, Dirty(view))
  {
    hide PageAt, LogAt, Dirty;
    BoundaryGrows(v, recs, c.desc.lsn, |recs|) by { assert LogAt(v, I, recs); LogWellFormed(v, I, recs); }
    forall p | 0 <= p < |d.index| && p !in Dirty(view) ensures StagedPage(v, I, recs, d, p) {
      assert PtrAt(v, I, c, p);
      assert Entries(I, c, p) == PageAt(v, recs, c.desc.lsn, p);
    }
  }

  lemma LogWellFormed(v: Vol, I: Image, recs: seq<Rec>)
    requires LogAt(v, I, recs)
    ensures WellFormed(v, recs)
  {
  }

  /** Appends every dirty page's snapshot, in page order, and points the candidate at them. */
  method AppendSnapshots(v: Vol, dev: Device, cache: Cache, start: Checkpoint, ghost todo: set<nat>,
                         ghost c: Checkpoint)
    returns (ok: bool, cand: Checkpoint)
    requires v.Ok() && dev.v == v && dev.Keeps(dev.Recs(), c) && cache.Valid()
    requires Staged(v, dev.image, dev.Recs(), start, todo)
    requires UpToDate(v, dev.Recs(), cache.view)
    requires Tail(v, dev.Recs()) + |Dirty(cache.view)| < v.backing
    modifies dev, dev.faults
    ensures old(dev.Paced()) ==> dev.Paced()
    ensures dev.Intact() && old(dev.trace) <= dev.trace && OnlySnaps(old(dev.Recs()), dev.Recs())
    ensures ok ==>
              && dev.Keeps(dev.Recs(), c)
              && |dev.Recs()| == |old(dev.Recs())| + |Dirty(cache.view)|
              && Tail(v, dev.Recs()) == Tail(v, old(dev.Recs())) + |Dirty(cache.view)|
              && Staged(v, dev.image, dev.Recs(), cand, todo - Dirty(cache.view))
              && At(cand) == Position(|dev.Recs()|, Tail(v, dev.Recs()))
              && cand.desc == start.desc.(lsn := cand.desc.lsn, boundary := cand.desc.boundary)
    ensures ok ==> |cand.index| == |start.index| &&
                   forall p :: 0 <= p < |start.index| && p !in Dirty(cache.view) ==> cand.index[p] == start.index[p]
    ensures !ok ==> dev.Faulted()
  {
    hide PageAt, Whole, RecAt, Indexed;
    var ids, pages := cache.SortedDirty();
    assert Listed(ids) == Dirty(cache.view);
    assert forall k :: 0 <= k < |ids| ==> ids[k] in Dirty(cache.view);
    ok, cand := AppendPages(v, dev, ids, pages, start, todo, c);
  }

  ghost function Listed(ids: seq<nat>): set<nat> { set p | p in ids }

  method AppendPages(v: Vol, dev: Device, ids: seq<nat>, pages: seq<seq<Entry>>, start: Checkpoint,
                     ghost todo: set<nat>, ghost c: Checkpoint)
    returns (ok: bool, cand: Checkpoint)
    requires v.Ok() && dev.v == v && dev.Keeps(dev.Recs(), c) && |pages| == |ids| && |start.index| == v.Pages()
    requires Staged(v, dev.image, dev.Recs(), start, todo)
    requires forall k :: 0 <= k < |ids| ==>
               ids[k] < v.Pages() && pages[k] == PageAt(v, dev.Recs(), |dev.Recs()|, ids[k])
    requires Tail(v, dev.Recs()) + |ids| < v.backing
    modifies dev, dev.faults
    ensures old(dev.Paced()) ==> dev.Paced()
    ensures dev.Intact() && old(dev.trace) <= dev.trace && OnlySnaps(old(dev.Recs()), dev.Recs())
    ensures ok ==>
              && dev.Keeps(dev.Recs(), c)
              && |dev.Recs()| == |old(dev.Recs())| + |ids|
              && Tail(v, dev.Recs()) == Tail(v, old(dev.Recs())) + |ids|
              && Staged(v, dev.image, dev.Recs(), cand, todo - Listed(ids))
              && cand.desc == start.desc.(lsn := cand.desc.lsn, boundary := cand.desc.boundary)
    ensures ok ==> |cand.index| == |start.index| &&
                   forall p :: 0 <= p < |start.index| && p !in Listed(ids) ==> cand.index[p] == start.index[p]
    ensures !ok ==> dev.Faulted()
  {
    hide Staged, PageAt, Whole, RecAt;
    ghost var was := dev.Recs();
    cand := start;
    var k := 0;
    ghost var left := todo;
    while k < |ids|
      invariant k <= |ids| && dev.Keeps(dev.Recs(), c) && old(dev.trace) <= dev.trace
      invariant old(dev.Paced()) ==> dev.Paced()
      invariant OnlySnaps(was, dev.Recs()) && |dev.Recs()| == |was| + k
      invariant Tail(v, dev.Recs()) == Tail(v, was) + k
      invariant Staged(v, dev.image, dev.Recs(), cand, left) && left == todo - Listed(ids[..k])
      invariant cand.desc == start.desc.(lsn := cand.desc.lsn, boundary := cand.desc.boundary)
      invariant |cand.index| == |start.index|
      invariant forall p :: 0 <= p < |start.index| && p !in Listed(ids) ==> cand.index[p] == start.index[p]
    {
      ok, cand := AppendSnapshot(v, dev, cand, ids[k], pages[k], left, was, c);
      if !ok { return; }
      assert ids[..k + 1] == ids[..k] + [ids[k]];
      left := left - {ids[k]};
      k := k + 1;
    }
    ok := true;
    assert ids[..k] == ids;
  }

  method AppendSnapshot(v: Vol, dev: Device, start: Checkpoint, p: nat, entries: seq<Entry>,
                        ghost todo: set<nat>, ghost was: seq<Rec>, ghost c: Checkpoint)
    returns (ok: bool, cand: Checkpoint)
    requires v.Ok() && dev.v == v && dev.Keeps(dev.Recs(), c) && OnlySnaps(was, dev.Recs())
    requires Staged(v, dev.image, dev.Recs(), start, todo)
    requires p < v.Pages() && entries == PageAt(v, was, |was|, p)
    requires Tail(v, dev.Recs()) + 1 < v.backing
    modifies dev, dev.faults
    ensures old(dev.Paced()) ==> dev.Paced()
    ensures dev.Intact() && old(dev.trace) <= dev.trace && OnlySnaps(was, dev.Recs())
    ensures ok ==>
              && dev.Keeps(dev.Recs(), c)
              && |dev.Recs()| == |old(dev.Recs())| + 1
              && Tail(v, dev.Recs()) == Tail(v, old(dev.Recs())) + 1
              && cand == Advance(start, p)
              && Staged(v, dev.image, dev.Recs(), cand, todo - {p})
    ensures !ok ==> dev.Faulted()
  {
    hide Staged, PageAt, Whole, DiskInv, RecAt;
    ghost var recs := dev.Recs();
    dev.Facts();
    Snapshotable(v, dev.image, recs, c, start, todo, was, p);
    Stage(v, dev.image, recs, start, todo, p);
    var b := PageRecord(v, start.desc.lsn + 1, start.desc.boundary, p, entries);
    ok := dev.WriteEnd(start.desc.boundary + 1, b, Snap(start.desc.boundary, p));
    cand := Advance(start, p);
  }

  lemma Snapshotable(v: Vol, I: Image, recs: seq<Rec>, c: Checkpoint, d: Checkpoint, todo: set<nat>, was: seq<Rec>,
                     p: nat)
    requires DiskInv(v, I, recs, c) && Staged(v, I, recs, d, todo) && OnlySnaps(was, recs)
    requires p < v.Pages() && Tail(v, recs) + 1 < v.backing
    ensures PageAt(v, recs, |recs|, p) == PageAt(v, was, |was|, p)
    ensures EntriesOk(v, p, PageAt(v, recs, |recs|, p), Tail(v, recs) + 1) && v.LogStart() <= Tail(v, recs) + 1
    ensures At(d) == Position(|recs|, Tail(v, recs)) && p < |d.index| && WellFormed(v, recs) && |I| == v.backing
    ensures RecAt(v, I[Tail(v, recs) + 1 := PageRecord(v, |recs| + 1, Tail(v, recs), p, PageAt(v, recs, |recs|, p))],
                  recs + [Snap(Tail(v, recs), p)], |recs|)
  {
    SnapsKeepPage(v, was, recs, p);
    BoundaryGrows(v, recs, 0, |recs|);
    PageValid(v, recs, |recs|, p, Tail(v, recs) + 1);
  }

  lemma StagedKeep(v: Vol, I: Image, recs: seq<Rec>, d: Checkpoint, a: nat, b: Block)
    requires v.Ok() && Staged(v, I, recs, d, {}) && a < |I| && a < v.LogStart()
    ensures Staged(v, I[a := b], recs, d, {})
  {
    hide PageAt;
    var J := I[a := b];
    forall p | 0 <= p < |d.index| ensures StagedPage(v, J, recs, d, p) {
      assert StagedPage(v, I, recs, d, p);
    }
  }

  ghost predicate BodyUpTo(v: Vol, I: Image, c: Checkpoint, n: nat) {
    && c.desc.slot < 2 && |c.index| == v.Pages() && v.LogStart() <= |I| && n <= v.IndexBlocks()
    && forall b :: 0 <= b < n ==> I[v.Body(c.desc.slot) + b] == Index(Chunk(c.index, b))
  }

  /** Writes the candidate's index body into the inactive slot. The active root is untouched. */
  method WriteIndexBody(v: Vol, dev: Device, cand: Checkpoint, ghost c: Checkpoint) returns (ok: bool)
    requires v.Ok() && dev.v == v && dev.Keeps(dev.Recs(), c)
    requires NextRoot(v, c, cand.desc) && Staged(v, dev.image, dev.Recs(), cand, {}) && dev.Settled()
    modifies dev, dev.faults
    ensures old(dev.Paced()) ==> dev.Paced()
    ensures dev.Intact() && old(dev.trace) <= dev.trace && dev.Recs() == old(dev.Recs())
    ensures ok ==> dev.Keeps(dev.Recs(), c) && dev.Settled() && BodyAt(v, dev.image, cand)
    ensures ok ==> Staged(v, dev.image, dev.Recs(), cand, {})
    ensures !ok ==> dev.Faulted()
  {
    hide Whole, DiskInv, StagedPage, Device.Paced;
    dev.Facts();
    var b := 0;
    while b < v.IndexBlocks()
      invariant dev.Keeps(dev.Recs(), c) && dev.Settled() && old(dev.trace) <= dev.trace
      invariant old(dev.Paced()) ==> dev.Paced()
      invariant dev.Recs() == old(dev.Recs())
      invariant |dev.image| == v.backing && BodyUpTo(v, dev.image, cand, b)
      invariant Staged(v, dev.image, dev.Recs(), cand, {})
    {
      ghost var I, a, x := dev.image, v.Body(cand.desc.slot) + b, Index(Chunk(cand.index, b));
      StagedKeep(v, I, dev.Recs(), cand, a, x);
      ok := dev.WriteIndex(v.Body(cand.desc.slot) + b, Chunk(cand.index, b));
      if !ok { return; }
      forall q | 0 <= q < b + 1
        ensures dev.image[v.Body(cand.desc.slot) + q] == Index(Chunk(cand.index, q))
      {
        if q < b { assert I[v.Body(cand.desc.slot) + q] == Index(Chunk(cand.index, q)); }
      }
      b := b + 1;
    }
    ok := true;
  }

  /** Body, sync, descriptor, sync: the switch to a complete candidate. */
  method PersistRoot(v: Vol, dev: Device, start: Checkpoint, ghost c: Checkpoint) returns (ok: bool, cand: Checkpoint)
    requires v.Ok() && dev.v == v && dev.Keeps(dev.Recs(), c)
    requires NextRoot(v, c, start.desc) && Staged(v, dev.image, dev.Recs(), start, {})
    requires dev.Settled()
    modifies dev, dev.faults
    ensures old(dev.Paced()) && c.desc.boundary < start.desc.boundary ==> dev.Paced()
    ensures dev.Intact() && old(dev.trace) <= dev.trace && dev.Recs() == old(dev.Recs())
    ensures cand == start.(desc := start.desc.(indexSum := v.indexSum(start.index)))
    ensures ok ==> dev.Keeps(dev.Recs(), cand) && dev.Settled()
    ensures !ok ==> dev.Faulted()
  {
    hide Whole, DiskInv, StagedPage, BodyAt;
    cand := start.(desc := start.desc.(indexSum := v.indexSum(start.index)));
    assert Staged(v, dev.image, dev.Recs(), cand, {}) by { SameStaged(v, dev.image, dev.Recs(), start, cand); }
    ok := WriteIndexBody(v, dev, cand, c);
    if !ok { return; }
    ok := dev.Sync();
    if !ok { return; }
    ok := dev.WriteDescriptor(cand);
    if !ok { return; }
    ok := dev.Sync();
  }

  lemma SameStaged(v: Vol, I: Image, recs: seq<Rec>, d: Checkpoint, e: Checkpoint)
    requires Staged(v, I, recs, d, {}) && e.index == d.index && At(e) == At(d)
    ensures Staged(v, I, recs, e, {})
  {
    hide PageAt;
    forall p | 0 <= p < |e.index| ensures StagedPage(v, I, recs, e, p) {
      assert StagedPage(v, I, recs, d, p);
    }
  }

  /** A checkpoint of everything in the log. Afterwards no page is dirty and the log past
      the checkpoint is empty. It fails by I/O, or as `Refusal` says and then writes nothing. A root switch that
      comes with new log blocks or dirty pages keeps the pace that leaves one. */
  method Publish(v: Vol, dev: Device, cache: Cache, active: Checkpoint, tail: Position)
    returns (r: Result<Checkpoint>)
    requires v.Ok() && dev.v == v && dev.Keeps(dev.Recs(), active) && cache.Valid()
    requires tail == Position(|dev.Recs()|, Tail(v, dev.Recs()))
    requires active.desc.lsn <= |dev.Recs()|
    requires UpToDate(v, dev.Recs(), cache.view) && Covered(v, dev.Recs(), active, cache.view)
    modifies dev, dev.faults, cache
    ensures old(dev.Paced() && active.desc.boundary < Tail(v, dev.Recs()) + |Dirty(cache.view)|) ==> dev.Paced()
    ensures old(dev.Paced()) ==> active.desc.generation < MAX_U64
    ensures dev.Intact() && old(dev.trace) <= dev.trace && OnlySnaps(old(dev.Recs()), dev.Recs())
    ensures cache.Valid() && |cache.slots| == old(|cache.slots|)
    ensures r.Ok? ==>
              && dev.Keeps(dev.Recs(), r.value)
              && At(r.value) == Position(|dev.Recs()|, Tail(v, dev.Recs()))
              && r.value.desc.boundary == old(Tail(v, dev.Recs()) + |Dirty(cache.view)|)
              && cache.view == Cleaned(old(cache.view)) && Dirty(cache.view) == {}
    ensures r.Err? ==> cache.view == old(cache.view)
    ensures var refusal := old(Refusal(v, dev.Recs(), active, |Dirty(cache.view)|));
            if refusal.Some? then r == Err(refusal.value) && dev.trace == old(dev.trace)
            else r.Err? ==> r.error == Io && dev.Faulted()
  {
    hide Device.Intact, Device.Paced, DiskInv, Covered, Traced, UpToDate, Indexed, Prepare, Staged, PageAt, WellFormed,
         Synced;
    dev.Facts();
    var dirty := cache.DirtyCount();
    Publishable(v, dev.image, dev.Recs(), active, dirty);
    var prepared := Prepare(active, dirty, tail);
    match prepared {
      case Err(e) => return Err(e);
      case Ok(_) =>
    }
    Prepared(v, dev.image, dev.Recs(), active, dirty, tail);
    PreparedStaged(v, dev.image, dev.Recs(), active, cache.view, prepared.value);
    var ok, cand := AppendSnapshots(v, dev, cache, prepared.value, Dirty(cache.view), active);
    if !ok { return Err(Io); }
    ok := dev.Sync();
    if !ok { return Err(Io); }
    assert Dirty(cache.view) - Dirty(cache.view) == {};
    ok, cand := PersistRoot(v, dev, cand, active);
    if !ok { return Err(Io); }
    cache.CheckpointPublished();
    r := Ok(cand);
  }
}
