/** Formatting and opening a volume. */
module Open {
  import opened Blocks
  import opened Log
  import opened Live
  import opened Disk
  import opened Device
  import opened Cache
  import opened Publish
  import opened Mapping
  import opened Buffer
  import opened Load
  import opened Recovery
  import opened Volume
  import Scanner

  /** Zeroes what the scanner could still inspect past the log. */
  method ClearStaleTail(v: Vol, dev: Device, append: nat, ghost c: Checkpoint) returns (ok: bool)
    requires v.Ok() && dev.v == v && dev.Holds(dev.Recs(), c) && append == Tail(v, dev.Recs()) + 1
    modifies dev, dev.faults
    ensures dev.Valid() && old(dev.trace) <= dev.trace && dev.Recs() == old(dev.Recs())
    ensures ok ==> dev.Holds(dev.Recs(), c) && dev.Now().may == Synced(dev.image) && |dev.image| == v.backing
    ensures ok ==>
              forall a :: append <= a <= Scanner.Limit(v, Position(|dev.Recs()|, append - 1)) ==> dev.image[a] == Raw(0)
    ensures ok ==>
              forall a :: 0 <= a < v.backing && !(append <= a <= Scanner.Limit(v, Position(|dev.Recs()|, append - 1)))
                     ==> dev.image[a] == old(dev.image)[a]
    ensures !ok ==> dev.Faulted()
  {
    hide Device.Intact, Device.Paced, DiskInv;
    dev.Facts();
    var count := if append + RECORD_BLOCKS <= v.backing then RECORD_BLOCKS else v.backing - append;
    var k := 0;
    while k < count
      invariant k <= count && dev.Holds(dev.Recs(), c) && dev.Recs() == old(dev.Recs()) && old(dev.trace) <= dev.trace
      invariant |dev.image| == v.backing
      invariant forall a :: append <= a < append + k ==> dev.image[a] == Raw(0)
      invariant forall a :: 0 <= a < v.backing && !(append <= a < append + k) ==> dev.image[a] == old(dev.image)[a]
    {
      ok := dev.WriteRaw(append + k, 0);
      if !ok { return; }
      k := k + 1;
    }
    ok := dev.Sync();
  }

  /** After the clear the scanner finds nothing at the end of the log. */
  lemma ClearedTailEnds(v: Vol, I: Image, recs: seq<Rec>, j: nat)
    requires v.Ok() && WellFormed(v, recs) && j <= |recs| && |I| == v.backing
    requires forall a :: Tail(v, recs) < a <= Scanner.Limit(v, Scanner.PositionAt(v, recs, |recs|)) ==> I[a] == Raw(0)
    ensures Scanner.Next(v, I, Scanner.PositionAt(v, recs, j), Scanner.PositionAt(v, recs, |recs|)) == Ok(None)
  {
    Scanner.CursorInLog(v, recs, j, |recs|);
    Scanner.ClearedStops(v, I, Scanner.PositionAt(v, recs, j), Scanner.PositionAt(v, recs, |recs|));
  }

  datatype Options = Options(checkpointAfter: nat, writeBuffer: nat, cacheSlots: nat)
  {
    predicate Ok() {
      && checkpointAfter % 4096 == 0 && checkpointAfter >= RECORD_BLOCKS * 4096
      && writeBuffer % 4096 == 0 && 4096 <= writeBuffer <= 16 * 1024 * 1024
    }
  }

  function ClampBuffer(writeBuffer: nat, backing: nat, logStart: nat): (blocks: nat)
    ensures 1 <= blocks
    ensures blocks > 1 ==> blocks * 4096 <= writeBuffer && blocks * 4 <= backing - logStart
    ensures (blocks + 1) * 4096 > writeBuffer || (blocks + 1) * 4 > backing - logStart
  {
    var configured := if writeBuffer / 4096 > 1 then writeBuffer / 4096 else 1;
    var capacity := if backing > logStart then backing - logStart else 0;
    Min(configured, if capacity / 4 > 1 then capacity / 4 else 1)
  }

  /** The cache must hold the pages of a full buffer, and the replay bound one packed buffer. */
  predicate CapacityOk(v: Vol, options: Options, blocks: nat) {
    && 1 <= options.cacheSlots && Min(blocks, v.Pages()) <= options.cacheSlots
    && (Min(blocks, v.blocks) + Records(Min(blocks, v.blocks))) * 4096 <= options.checkpointAfter
  }

  /** Exactly when a device without faults opens: sane options and room for replay. */
  ghost predicate Opens(v: Vol, recs: seq<Rec>, c: Checkpoint, options: Options) {
    && options.Ok() && CapacityOk(v, options, ClampBuffer(options.writeBuffer, v.backing, v.LogStart()))
    && SpaceForReplay(v, recs, c)
  }

  /** Opening recovers exactly the log's content. Whatever happens on the way, the log only
      ever gains snapshots, so a crash inside `open` and another `open` recover the same. */
  method OpenVolume(h: Hashes, dev: Device, options: Options, ghost c: Checkpoint) returns (r: Result<Volume>)
    requires dev.Holds(dev.Recs(), c) && h == Hashes(dev.v.sum, dev.v.indexSum)
    modifies dev, dev.faults
    ensures dev.Valid() && old(dev.trace) <= dev.trace && OnlySnaps(old(dev.Recs()), dev.Recs())
    ensures r.Ok? ==> r.value.m.dev == dev && fresh(r.value.Repr() - {dev}) && r.value.m.v == dev.v
    ensures r.Ok? ==> r.value.Operational() && !r.value.failed && r.value.buffer.contents == map[]
    ensures r.Ok? ==> forall lba: nat :: r.value.Logical(lba) == Content(old(dev.Recs()), |old(dev.Recs())|, lba)
    ensures r.Ok? ==> Opens(dev.v, old(dev.Recs()), c, options)
    ensures r.Err? ==> !Opens(dev.v, old(dev.Recs()), c, options) || dev.Faulted()
    ensures r.Ok? ==> r.value.m.Committed() == Promised(dev.v, old(dev.Recs()), c)
    ensures r.Err? ==> dev.Faulted() || dev.trace == old(dev.trace)
  {
    hide Device.Intact, Device.Paced, DiskInv, Loaded, UsedIn, LiveIn, Content, RootOk, PairOk, WellFormed, Boots,
         Overlay, Volume.Operational, DescriptorOk;
    ghost var recs := dev.Recs();
    NoSnaps(recs);
    if !options.Ok() { return Err(InvalidInput); }
    dev.Facts();
    BootsLoads(h, dev.v, dev.image, c) by { InvBoots(dev.v, dev.image, recs, c); }
    var loaded := LoadRoot(h, dev);
    if loaded.Err? { return Err(loaded.error); }
    var (active, live) := loaded.value;
    InvBasics(dev.v, dev.image, recs, c);
    UsedIsLiveIn(dev.v, dev.image, recs, c, |c.index|);
    var v := VolOf(h, active.desc);
    assert v == dev.v;
    r := OpenLoaded(v, dev, active, live, options);
  }

  method OpenLoaded(v: Vol, dev: Device, active: Checkpoint, live: nat, options: Options) returns (r: Result<Volume>)
    requires v.Ok() && dev.v == v && dev.Holds(dev.Recs(), active) && active.desc.lsn <= |dev.Recs()| && options.Ok()
    requires live == |LiveIn(v, dev.Recs(), active.desc.lsn, 0, 0, v.Pages())|
    modifies dev, dev.faults
    ensures dev.Valid() && old(dev.trace) <= dev.trace && OnlySnaps(old(dev.Recs()), dev.Recs())
    ensures r.Ok? ==> r.value.m.dev == dev && fresh(r.value.Repr() - {dev}) && r.value.m.v == v
    ensures r.Ok? ==> r.value.Operational() && !r.value.failed && r.value.buffer.contents == map[]
    ensures r.Ok? ==> forall lba: nat :: r.value.Logical(lba) == Content(old(dev.Recs()), |old(dev.Recs())|, lba)
    ensures r.Ok? ==> Opens(v, old(dev.Recs()), active, options)
    ensures r.Err? ==> !Opens(v, old(dev.Recs()), active, options) || dev.Faulted()
    ensures r.Ok? ==> r.value.m.Committed() == Promised(v, old(dev.Recs()), active)
    ensures r.Err? ==> dev.Faulted() || dev.trace == old(dev.trace)
  {
    hide Device.Intact, Device.Paced, DiskInv, LiveIn, UpToDate, Covered, Traced, LiveCount, Dirty, PageAt, Content,
         ClampBuffer, TouchedPages, Indexed, Synced;
    ghost var recs := dev.Recs();
    NoSnaps(recs);
    dev.Facts();
    InvBacking(v, dev.image, recs, active);
    var blocks := ClampBuffer(options.writeBuffer, active.desc.backing, v.LogStart());
    if !CapacityOk(v, options, blocks) { return Err(InvalidInput); }
    var recovered := Recover(v, dev, active, options.cacheSlots);
    if recovered.Err? { return Err(recovered.error); }
    ghost var more := dev.Recs();
    var rec := recovered.value;
    var ok := ClearStaleTail(v, dev, rec.tail.boundary + 1, rec.c);
    if !ok { return Err(Io); }
    SnapsKeep(v, recs, more, |more|);
    r := Assemble(v, dev, rec, blocks, options.checkpointAfter, live + rec.newly);
  }

  lemma InvBacking(v: Vol, I: Image, recs: seq<Rec>, c: Checkpoint)
    requires DiskInv(v, I, recs, c)
    ensures c.desc.backing == v.backing
  {
  }

  lemma InvBoots(v: Vol, I: Image, recs: seq<Rec>, c: Checkpoint)
    requires DiskInv(v, I, recs, c)
    ensures Boots(v, I, c)
  {
  }

  method Assemble(v: Vol, dev: Device, rec: Recovered, blocks: nat, checkpointAfter: nat, live: int)
    returns (r: Result<Volume>)
    requires v.Ok() && dev.v == v && dev.Holds(dev.Recs(), rec.c) && rec.c.desc.lsn <= |dev.Recs()|
    requires rec.tail == Position(|dev.Recs()|, Tail(v, dev.Recs()))
    requires rec.cache.Valid() && rec.cache.pages == v.Pages() && rec.cache.blocks == v.blocks
    requires UpToDate(v, dev.Recs(), rec.cache.view) && Covered(v, dev.Recs(), rec.c, rec.cache.view)
    requires Traced(v, dev.Recs(), rec.c, rec.cache.view)
    requires Tail(v, dev.Recs()) + |Dirty(rec.cache.view)| < v.backing
    requires 1 <= blocks <= BUFFER_LIMIT && Min(blocks, v.Pages()) <= |rec.cache.slots|
    requires (Min(blocks, v.blocks) + Records(Min(blocks, v.blocks))) * 4096 <= checkpointAfter
    requires live == LiveCount(v, dev.Recs())
    ensures r.Ok? && r.value.m.dev == dev && r.value.m.cache == rec.cache && r.value.m.v == v
    ensures r.value.m.Committed() == Tail(v, dev.Recs()) + |Dirty(rec.cache.view)|
    ensures fresh(r.value) && fresh(r.value.m) && fresh(r.value.buffer)
    ensures r.value.Operational() && !r.value.failed && r.value.buffer.contents == map[]
  {
    hide Device.Intact, Device.Paced, DiskInv, UpToDate, Covered, Traced, LiveCount, Dirty, Indexed;
    var m := new MappingState(v, dev, rec.cache, rec.c, rec.tail);
    var buffer := new WriteBackBuffer(blocks);
    var volume := new Volume(m, buffer, checkpointAfter, live);
    r := Ok(volume);
  }
}
