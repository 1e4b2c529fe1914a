/** Selecting a checkpoint root from whatever a backing file holds. */
module Load {
  import opened Blocks
  import opened Log
  import opened Live
  import opened Disk
  import opened Device

  datatype Hashes = Hashes(sum: (nat, nat, nat) -> nat, indexSum: seq<nat> -> nat)

  function VolOf(h: Hashes, d: Descriptor): Vol { Vol(d.blocks, d.backing, d.volume, h.sum, h.indexSum) }

  predicate RootOk(h: Hashes, b: Block, slot: nat, backing: nat) {
    b.Root? && b.d.slot == slot && b.d.backing == backing && DescriptorOk(VolOf(h, b.d), b.d)
  }

  predicate PairOk(a: Descriptor, b: Descriptor) {
    && a.volume == b.volume && a.blocks == b.blocks && a.backing == b.backing
    && (a.generation == b.generation ==> a.lsn == b.lsn && a.boundary == b.boundary && a.indexSum == b.indexSum)
  }

  /** Index block `b` of a slot: only its own pointers, each inside the checkpoint's log. */
  predicate IndexOk(v: Vol, d: Descriptor, x: Block, b: nat) {
    && x.Index? && b * 1024 <= v.Pages()
    && |x.pointers| == (if b * 1024 + 1024 <= v.Pages() then 1024 else v.Pages() - b * 1024)
    && forall k :: 0 <= k < |x.pointers| ==> PointerOk(v, x.pointers[k], d.boundary)
  }

  ghost predicate BodyOk(v: Vol, I: Image, d: Descriptor, n: nat) {
    forall b :: 0 <= b < n ==> BlockOk(v, I, d, b)
  }

  ghost predicate BlockOk(v: Vol, I: Image, d: Descriptor, b: nat) {
    v.Body(d.slot) + b < |I| && IndexOk(v, d, I[v.Body(d.slot) + b], b)
  }

  /** The pointers of the first `n` index blocks. */
  ghost function Gather(v: Vol, I: Image, d: Descriptor, n: nat): (r: seq<nat>)
    requires BodyOk(v, I, d, n) && n <= v.IndexBlocks()
    ensures |r| == if n * 1024 <= v.Pages() then n * 1024 else v.Pages()
  {
    if n == 0 then []
    else
      assert BlockOk(v, I, d, n - 1);
      Gather(v, I, d, n - 1) + I[v.Body(d.slot) + (n - 1)].pointers
  }

  ghost predicate SnapshotsOk(v: Vol, I: Image, c: Checkpoint, n: nat) {
    n <= |c.index| && forall p :: 0 <= p < n ==> PtrAt(v, I, c, p)
  }

  /** The checkpoint that descriptor `d` names, if all of it is there. */
  ghost function Candidate(h: Hashes, I: Image, d: Descriptor): Option<Checkpoint> {
    var v := VolOf(h, d);
    if !BodyOk(v, I, d, v.IndexBlocks()) then None
    else
      var c := Checkpoint(d, Gather(v, I, d, v.IndexBlocks()));
      if v.indexSum(c.index) != d.indexSum || !SnapshotsOk(v, I, c, |c.index|) then None else Some(c)
  }

  /** The newest root that loads completely; an older one only if the newest does not. */
  ghost function Loaded(h: Hashes, I: Image): Option<Checkpoint>
    requires |I| >= 2
  {
    var green, blue := RootOk(h, I[0], 0, |I|), RootOk(h, I[1], 1, |I|);
    if green && blue then
      if !PairOk(I[0].d, I[1].d) then None
      else
        var (first, second) := if I[1].d.generation > I[0].d.generation then (I[1].d, I[0].d) else (I[0].d, I[1].d);
        if Candidate(h, I, first).Some? then Candidate(h, I, first) else Candidate(h, I, second)
    else if green then Candidate(h, I, I[0].d)
    else if blue then Candidate(h, I, I[1].d)
    else None
  }

  // ---- a bootable image loads ----

  lemma ChunkOk(v: Vol, I: Image, c: Checkpoint, b: nat)
    requires v.Ok() && BodyAt(v, I, c) && b < v.IndexBlocks()
    requires forall p :: 0 <= p < |c.index| ==> PointerOk(v, c.index[p], c.desc.boundary)
    ensures BlockOk(v, I, c.desc, b) && I[v.Body(c.desc.slot) + b] == Index(Chunk(c.index, b))
  {
    hide PointerOk;
    assert I[v.Body(c.desc.slot) + b] == Index(Chunk(c.index, b));
    assert forall k :: 0 <= k < |Chunk(c.index, b)| ==> Chunk(c.index, b)[k] == c.index[b * 1024 + k];
  }

  lemma {:induction false} GatherIs(v: Vol, I: Image, c: Checkpoint, n: nat)
    requires v.Ok() && BodyAt(v, I, c) && n <= v.IndexBlocks()
    requires forall p :: 0 <= p < |c.index| ==> PointerOk(v, c.index[p], c.desc.boundary)
    ensures BodyOk(v, I, c.desc, n)
    ensures Gather(v, I, c.desc, n) == if n * 1024 <= |c.index| then c.index[..n * 1024] else c.index
    decreases n
  {
    hide PointerOk, BlockOk;
    if n > 0 {
      GatherIs(v, I, c, n - 1);
      ChunkOk(v, I, c, n - 1);
    }
  }

  lemma CandidateIs(h: Hashes, v: Vol, I: Image, c: Checkpoint)
    requires v.Ok() && TreeAt(v, I, c) && h == Hashes(v.sum, v.indexSum)
    ensures Candidate(h, I, c.desc) == Some(c)
  {
    hide PageOk, PointerOk;
    assert VolOf(h, c.desc) == v;
    forall p | 0 <= p < |c.index| ensures PointerOk(v, c.index[p], c.desc.boundary) { assert PtrAt(v, I, c, p); }
    GatherIs(v, I, c, v.IndexBlocks());
    assert Gather(v, I, c.desc, v.IndexBlocks()) == c.index;
  }

  /** A bootable image loads its checkpoint: both roots decode, agree as a pair, and the newer wins. */
  lemma BootsLoads(h: Hashes, v: Vol, I: Image, c: Checkpoint)
    requires Boots(v, I, c) && h == Hashes(v.sum, v.indexSum)
    ensures Loaded(h, I) == Some(c)
    ensures RootOk(h, I[0], 0, |I|) && RootOk(h, I[1], 1, |I|) && PairOk(I[0].d, I[1].d)
    ensures var a, b := I[0].d.generation, I[1].d.generation; a == b == 0 || a == b + 1 || b == a + 1
  {
    hide TreeAt, Candidate;
    var o := I[Other(c.desc.slot)].d;
    assert VolOf(h, c.desc) == v && DescriptorOk(v, c.desc) && c.desc.slot < 2 by { TreeRoot(h, v, I, c); }
    assert VolOf(h, o) == v;
    CandidateIs(h, v, I, c);
    if c.desc.slot == 0 { assert RootOk(h, I[1], 1, |I|) && RootOk(h, I[0], 0, |I|); }
    else { assert RootOk(h, I[0], 0, |I|) && RootOk(h, I[1], 1, |I|); }
  }

  lemma TreeRoot(h: Hashes, v: Vol, I: Image, c: Checkpoint)
    requires TreeAt(v, I, c) && h == Hashes(v.sum, v.indexSum)
    ensures VolOf(h, c.desc) == v && DescriptorOk(v, c.desc) && c.desc.slot < 2
  {
  }

  /** The root switch is atomic: whatever unsynced blocks a power loss drops, the load
      finds the checkpoint in use or the complete one being published, and every snapshot of it
      holds the mapping of the log at that point. */
  lemma RootSwitchAtomic(h: Hashes, v: Vol, s: Crash, J: Image)
    requires CrashOk(v, s) && Survivor(s.may, J) && h == Hashes(v.sum, v.indexSum)
    ensures |J| >= 2 && Loaded(h, J).Some? && Agrees(v, J, s.recs, Loaded(h, J).value)
    ensures Loaded(h, J).value == s.c || Loaded(h, J).value == s.prior
  {
    hide DiskInv, Agrees;
    if LoadsAs(v, J, s.recs, s.c) { BootsLoads(h, v, J, s.c); } else { BootsLoads(h, v, J, s.prior); }
  }

  // ---- the loader ----

  /** Addresses in use on the first `n` pages of a checkpoint. */
  ghost function UsedIn(I: Image, c: Checkpoint, n: nat): nat
    requires n <= |c.index|
  {
    if n == 0 then 0 else UsedIn(I, c, n - 1) + Used(Entries(I, c, n - 1))
  }

  lemma NothingUsed()
    ensures Used(EmptyPage()) == 0
  {
    UsedNone(336);
    assert EmptyPage()[..336] == EmptyPage();
  }

  lemma {:induction false} UsedNone(n: nat)
    requires n <= 336
    ensures Used(EmptyPage()[..n]) == 0
    decreases n
  {
    if n > 0 {
      UsedNone(n - 1);
      assert EmptyPage()[..n][..n - 1] == EmptyPage()[..n - 1];
    }
  }

  method LoadIndex(v: Vol, dev: Device, d: Descriptor) returns (r: Result<seq<nat>>)
    requires v.Ok() && |dev.image| == v.backing && d.slot < 2
    modifies dev.faults
    ensures r.Ok? ==> BodyOk(v, dev.image, d, v.IndexBlocks()) && r.value == Gather(v, dev.image, d, v.IndexBlocks())
    ensures r == Err(InvalidData) ==> !BodyOk(v, dev.image, d, v.IndexBlocks())
    ensures r.Err? ==> r.error == InvalidData || r.error == Io
    ensures r == Err(Io) ==> dev.Faulted()
  {
    hide IndexOk;
    var index := [];
    var b := 0;
    while b < v.IndexBlocks()
      invariant b <= v.IndexBlocks() && BodyOk(v, dev.image, d, b) && index == Gather(v, dev.image, d, b)
    {
      var ok, x := dev.Read(v.Body(d.slot) + b);
      if !ok { return Err(Io); }
      if !IndexOk(v, d, x, b) {
        assert !BlockOk(v, dev.image, d, b);
        return Err(InvalidData);
      }
      assert BlockOk(v, dev.image, d, b);
      IndexShape(v, d, x, b);
      index := index + x.pointers;
      b := b + 1;
    }
    r := Ok(index);
  }

  lemma IndexShape(v: Vol, d: Descriptor, x: Block, b: nat)
    requires IndexOk(v, d, x, b)
    ensures x.Index?
  {
  }

  lemma {:induction false} GatheredOk(v: Vol, I: Image, d: Descriptor, n: nat, p: nat)
    requires BodyOk(v, I, d, n) && n <= v.IndexBlocks() && p < |Gather(v, I, d, n)|
    ensures PointerOk(v, Gather(v, I, d, n)[p], d.boundary)
    decreases n
  {
    if n > 0 {
      assert BlockOk(v, I, d, n - 1);
      var before := Gather(v, I, d, n - 1);
      if p < |before| { GatheredOk(v, I, d, n - 1, p); }
      else { var k := p - |before|; assert PointerOk(v, I[v.Body(d.slot) + (n - 1)].pointers[k], d.boundary); }
    }
  }

  /** Checks every snapshot the index points to and counts the mapped LBAs. */
  method LoadPages(v: Vol, dev: Device, c: Checkpoint) returns (r: Result<nat>)
    requires v.Ok() && |dev.image| == v.backing
    requires forall p :: 0 <= p < |c.index| ==> PointerOk(v, c.index[p], c.desc.boundary)
    modifies dev.faults
    ensures r.Ok? ==> SnapshotsOk(v, dev.image, c, |c.index|) && r.value == UsedIn(dev.image, c, |c.index|)
    ensures r == Err(InvalidData) ==> !SnapshotsOk(v, dev.image, c, |c.index|)
    ensures r.Err? ==> r.error == InvalidData || r.error == Io
    ensures r == Err(Io) ==> dev.Faulted()
  {
    hide PageOk, Used;
    var live, p := 0, 0;
    while p < |c.index|
      invariant p <= |c.index| && SnapshotsOk(v, dev.image, c, p) && live == UsedIn(dev.image, c, p)
    {
      if c.index[p] != 0 {
        var ok, b := dev.Read(c.index[p]);
        if !ok { return Err(Io); }
        if !PageOk(v, b, p, c.index[p], c.desc.lsn) {
          assert !PtrAt(v, dev.image, c, p);
          return Err(InvalidData);
        }
        live := live + Used(if b.Record? && b.body.Page? then b.body.entries else EmptyPage());
      } else {
        NothingUsed();
      }
      assert PtrAt(v, dev.image, c, p);
      p := p + 1;
    }
    r := Ok(live);
  }

  method LoadCandidate(h: Hashes, dev: Device, d: Descriptor) returns (r: Result<(Checkpoint, nat)>)
    requires DescriptorOk(VolOf(h, d), d) && d.slot < 2 && |dev.image| == d.backing
    modifies dev.faults
    ensures r.Ok? ==> Candidate(h, dev.image, d) == Some(r.value.0)
                      && r.value.1 == UsedIn(dev.image, r.value.0, |r.value.0.index|)
    ensures r == Err(InvalidData) ==> Candidate(h, dev.image, d) == None
    ensures r.Err? ==> r.error == InvalidData || r.error == Io
    ensures r == Err(Io) ==> dev.Faulted()
  {
    hide PtrAt, PointerOk, BodyOk, Gather;
    var v := VolOf(h, d);
    var index := LoadIndex(v, dev, d);
    if index.Err? { return Err(index.error); }
    var c := Checkpoint(d, index.value);
    if v.indexSum(c.index) != d.indexSum { return Err(InvalidData); }
    forall p | 0 <= p < |c.index| ensures PointerOk(v, c.index[p], d.boundary) {
      GatheredOk(v, dev.image, d, v.IndexBlocks(), p);
    }
    var live := LoadPages(v, dev, c);
    if live.Err? { return Err(live.error); }
    r := Ok((c, live.value));
  }

  /** `load`: the newest complete root of the image, with its count of mapped LBAs. */
  method LoadRoot(h: Hashes, dev: Device) returns (r: Result<(Checkpoint, nat)>)
    modifies dev.faults
    ensures r.Ok? ==> |dev.image| >= 2 && Loaded(h, dev.image) == Some(r.value.0)
                      && r.value.1 == UsedIn(dev.image, r.value.0, |r.value.0.index|)
    ensures r == Err(InvalidData) && 2 <= |dev.image| <= MAX_BACKING ==> Loaded(h, dev.image) == None
    ensures r.Err? ==> r.error == InvalidData || r.error == Io
    ensures r == Err(Io) ==> dev.Faulted()
  {
    hide Candidate, PairOk;
    if |dev.image| < 2 || |dev.image| > MAX_BACKING { return Err(InvalidData); }
    var ok, g := dev.Read(0);
    if !ok { return Err(Io); }
    var good, b := dev.Read(1);
    if !good { return Err(Io); }
    var green, blue := RootOk(h, g, 0, |dev.image|), RootOk(h, b, 1, |dev.image|);
    var order: seq<Descriptor> := [];
    if green && blue {
      if !PairOk(g.d, b.d) { return Err(InvalidData); }
      order := if b.d.generation > g.d.generation then [b.d, g.d] else [g.d, b.d];
    } else if green {
      order := [g.d];
    } else if blue {
      order := [b.d];
    }
    if |order| > 0 {
      r := LoadCandidate(h, dev, order[0]);
      if r.Ok? || r.error == Io { return; }
    }
    if |order| > 1 {
      r := LoadCandidate(h, dev, order[1]);
      if r.Ok? || r.error == Io { return; }
    }
    r := Err(InvalidData);
  }

  /** What the loader counts is the number of LBAs the checkpoint's log prefix maps. */
  lemma {:induction false} UsedIsLiveIn(v: Vol, I: Image, recs: seq<Rec>, c: Checkpoint, n: nat)
    requires DiskInv(v, I, recs, c) && n <= |c.index|
    ensures UsedIn(I, c, n) == |LiveIn(v, recs, c.desc.lsn, 0, 0, n)|
    decreases n
  {
    hide LiveIn, Boots, LogAt, PageAt, Entries, Used;
    if n > 0 {
      UsedIsLiveIn(v, I, recs, c, n - 1);
      assert Entries(I, c, n - 1) == PageAt(v, recs, c.desc.lsn, n - 1);
      assert v.Ok() && WellFormed(v, recs) by { InvBasics(v, I, recs, c); }
      UsedIsLive(v, recs, c.desc.lsn, n - 1);
      LiveSplit(v, recs, c.desc.lsn, 0, n - 1, n);
    } else {
      assert LiveIn(v, recs, c.desc.lsn, 0, 0, 0) == {} by { LiveNowhere(v, recs, c.desc.lsn); }
    }
  }

  lemma LiveNowhere(v: Vol, recs: seq<Rec>, i: nat)
    requires i <= |recs|
    ensures LiveIn(v, recs, i, 0, 0, 0) == {}
  {
  }

  lemma InvBasics(v: Vol, I: Image, recs: seq<Rec>, c: Checkpoint)
    requires DiskInv(v, I, recs, c)
    ensures v.Ok() && WellFormed(v, recs) && |c.index| == v.Pages() && c.desc.lsn <= |recs| && |I| == v.backing
    ensures SameVolume(v, c.desc)
  {
  }
}
