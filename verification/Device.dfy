/** The backing device and its crash obligations.

    Every block write is one step. `history` keeps every image the device ever held, so an
    image of it is what a lost process leaves behind when the write in flight got
    only a prefix of its blocks down. `may` is what a power loss can leave at each address:
    the last synced block or any block written since. A write may only be issued together
    with the log and checkpoint that its image can be recovered to; `trace` records them.
 */
module Device {
  import opened Blocks
  import opened Log
  import opened Disk

  datatype Crash = Crash(
    image: Image, recs: seq<Rec>, c: Checkpoint, prior: Checkpoint, may: seq<set<Block>>)

  /** `J` keeps, block by block, some value a power loss can leave. */
  ghost predicate Survivor(may: seq<set<Block>>, J: Image) {
    |J| == |may| && forall a :: 0 <= a < |J| ==> J[a] in may[a]
  }

  /** A load selects checkpoint `c`, and its snapshots hold the mapping of the log at that point. */
  ghost predicate LoadsAs(v: Vol, J: Image, recs: seq<Rec>, c: Checkpoint) { Boots(v, J, c) && Agrees(v, J, recs, c) }

  /** Whatever subset of the unsynced blocks survives, a load selects `c` or `prior`, whole. */
  ghost predicate PowerSafe(v: Vol, may: seq<set<Block>>, recs: seq<Rec>, c: Checkpoint, prior: Checkpoint) {
    forall J :: Survivor(may, J) ==> LoadsAs(v, J, recs, c) || LoadsAs(v, J, recs, prior)
  }

  /** The image recovers to this log and loads this checkpoint, and so does whatever a power loss leaves of it. */
  ghost predicate Whole(v: Vol, s: Crash) {
    && DiskInv(v, s.image, s.recs, s.c)
    && Survivor(s.may, s.image)
    && PowerSafe(v, s.may, s.recs, s.c, s.prior)
    && s.prior.desc.boundary <= Tail(v, s.recs)
  }

  /** So a reopening can recover it, and its next root has a generation number left. */
  ghost predicate CrashOk(v: Vol, s: Crash) { Whole(v, s) && Aged(v, s.c.desc) }

  ghost function Synced(I: Image): (may: seq<set<Block>>)
    ensures |may| == |I| && forall a :: 0 <= a < |I| ==> may[a] == {I[a]}
  {
    seq(|I|, a requires 0 <= a < |I| => {I[a]})
  }

  /** A device on which everything is synced. */
  ghost function Resting(I: Image, recs: seq<Rec>, c: Checkpoint): Crash { Crash(I, recs, c, c, Synced(I)) }

  ghost function Unsynced(s: Crash, a: nat, b: Block): seq<set<Block>>
    requires a < |s.may|
  {
    s.may[a := s.may[a] + {b}]
  }

  lemma SurvivorSplit(s: Crash, a: nat, b: Block, J: Image)
    requires Survivor(s.may, s.image) && a < |s.may| && Survivor(Unsynced(s, a, b), J)
    ensures Survivor(s.may, J) || (Survivor(s.may, J[a := s.image[a]]) && J == J[a := s.image[a]][a := b])
  {
    var K := J[a := s.image[a]];
    forall q | 0 <= q < |J| ensures K[q] in s.may[q] {
      assert J[q] in Unsynced(s, a, b)[q];
    }
    if J[a] != b {
      assert J[a] in Unsynced(s, a, b)[a];
      forall q | 0 <= q < |J| ensures J[q] in s.may[q] {
        assert J[q] in Unsynced(s, a, b)[q];
      }
    } else {
      assert J == K[a := b];
    }
  }

  /** A block apart from both checkpoints that a power loss may leave can be lost or kept. */
  lemma KeepPower(v: Vol, s: Crash, a: nat, b: Block)
    requires Whole(v, s) && a < |s.image| && Apart(v, s.c, a) && Apart(v, s.prior, a)
    ensures PowerSafe(v, Unsynced(s, a, b), s.recs, s.c, s.prior)
    ensures Survivor(Unsynced(s, a, b), s.image[a := b])
  {
    hide DiskInv, LoadsAs, Apart;
    forall J | Survivor(Unsynced(s, a, b), J) ensures LoadsAs(v, J, s.recs, s.c) || LoadsAs(v, J, s.recs, s.prior) {
      SurvivorSplit(s, a, b, J);
      if !Survivor(s.may, J) {
        var K := J[a := s.image[a]];
        KeepLoads(v, K, s.recs, if LoadsAs(v, K, s.recs, s.c) then s.c else s.prior, a, b);
      }
    }
  }

  lemma KeepLoads(v: Vol, I: Image, recs: seq<Rec>, c: Checkpoint, a: nat, b: Block)
    requires LoadsAs(v, I, recs, c) && a < |I| && Apart(v, c, a)
    ensures LoadsAs(v, I[a := b], recs, c)
  {
    hide Boots, Apart, Entries;
    KeepBoots(v, I, c, a, b);
    KeepAgrees(v, I, I[a := b], recs, recs, c);
  }

  /** What a load selects agrees with every longer log as well. */
  lemma MorePower(v: Vol, may: seq<set<Block>>, recs: seq<Rec>, more: seq<Rec>, c: Checkpoint, prior: Checkpoint)
    requires PowerSafe(v, may, recs, c, prior) && recs <= more
    ensures PowerSafe(v, may, more, c, prior)
  {
    hide Survivor, Boots, Entries;
    forall J | Survivor(may, J) ensures LoadsAs(v, J, more, c) || LoadsAs(v, J, more, prior) {
      var d := if LoadsAs(v, J, recs, c) then c else prior;
      KeepAgrees(v, J, J, recs, more, d);
    }
  }

  /** The log region is apart from every checkpoint of this log. */
  lemma LogApart(v: Vol, s: Crash, a: nat)
    requires Whole(v, s) && Tail(v, s.recs) < a
    ensures Apart(v, s.c, a) && Apart(v, s.prior, a)
  {
    BoundaryGrows(v, s.recs, s.c.desc.lsn, |s.recs|);
  }

  /** The device after block `a`, the last of record `r`. */
  ghost function Completed(s: Crash, a: nat, r: Rec, b: Block): Crash
    requires a < |s.image| && a < |s.may|
  {
    Crash(s.image[a := b], s.recs + [r], s.c, s.prior, Unsynced(s, a, b))
  }

  lemma CompletesRecord(v: Vol, s: Crash, r: Rec, b: Block)
    requires Whole(v, s) && RecOk(v, r) && r.prev == Tail(v, s.recs) && r.prev + r.Size() < |s.image|
    requires RecAt(v, s.image[r.prev + r.Size() := b], s.recs + [r], |s.recs|)
    ensures r.prev + r.Size() < |s.may| && Whole(v, Completed(s, r.prev + r.Size(), r, b))
  {
    hide Agrees, Entries, Apart, RecAt;
    var a := r.prev + r.Size();
    WriteLast(v, s.image, s.recs, s.c, r, b);
    LogApart(v, s, a);
    KeepPower(v, s, a, b);
    BoundaryGrows(v, s.recs + [r], |s.recs|, |s.recs| + 1);
    MorePower(v, Unsynced(s, a, b), s.recs, s.recs + [r], s.c, s.prior);
  }

  /** After a sync only one image can survive. */
  lemma SyncPower(v: Vol, I: Image, recs: seq<Rec>, c: Checkpoint)
    requires DiskInv(v, I, recs, c)
    ensures Whole(v, Crash(I, recs, c, c, Synced(I)))
  {
    CheckpointBehind(v, I, recs, c);
    hide RootAt, OtherAt, LogAt, Agrees;
    forall J | Survivor(Synced(I), J) ensures J == I {
      forall a | 0 <= a < |J| ensures J[a] == I[a] {
        assert J[a] in Synced(I)[a];
      }
    }
  }

  /** The descriptor write, issued with everything else synced. */
  lemma RootPower(v: Vol, s: Crash, d: Checkpoint)
    requires Whole(v, s) && s.may == Synced(s.image) && d.desc.slot < |s.image|
    requires DiskInv(v, s.image[d.desc.slot := Root(d.desc)], s.recs, d)
    ensures PowerSafe(v, Unsynced(s, d.desc.slot, Root(d.desc)), s.recs, d, s.c)
    ensures Survivor(Unsynced(s, d.desc.slot, Root(d.desc)), s.image[d.desc.slot := Root(d.desc)])
  {
    hide RootAt, OtherAt, LogAt, Agrees;
    var a, b := d.desc.slot, Root(d.desc);
    forall J | Survivor(Unsynced(s, a, b), J) ensures J == s.image || J == s.image[a := b] {
      SurvivorSplit(s, a, b, J);
      var K := if Survivor(s.may, J) then J else J[a := s.image[a]];
      forall q | 0 <= q < |K| ensures K[q] == s.image[q] { assert K[q] in Synced(s.image)[q]; }
      assert K == s.image;
    }
  }

  /** Remembers that a request failed. */
  class Faults {
    ghost var struck: bool
    constructor ()
      ensures !struck
    {
      struck := false;
    }
  }

  class Device {
    ghost const v: Vol
    /** No request of this device fails. */
    const faultless: bool
    const faults: Faults
    var image: Image
    var history: seq<Image>
    ghost var trace: seq<Crash>

    ghost predicate Intact()
      reads this
    {
      && trace != [] && trace[|trace| - 1].image == image
      && |history| == |trace| && (forall k :: 0 <= k < |trace| ==> history[k] == trace[k].image)
      && (forall k :: 0 <= k < |trace| ==> Whole(v, trace[k]))
      && (forall j, k :: 0 <= j <= k < |trace| ==> trace[j].recs <= trace[k].recs)
    }

    /** Every root switch came with more log. */
    ghost predicate Paced()
      reads this
    {
      forall k :: 0 <= k < |trace| ==> Aged(v, trace[k].c.desc)
    }

    ghost predicate Valid()
      reads this
    {
      Intact() && Paced()
    }

    /** Some request of this device has failed. */
    ghost predicate Faulted() reads faults { !faultless && faults.struck }

    ghost function Now(): Crash
      reads this
      requires trace != []
    {
      trace[|trace| - 1]
    }

    /** The log that the current image recovers to. */
    ghost function Recs(): seq<Rec>
      reads this
    {
      if trace == [] then [] else trace[|trace| - 1].recs
    }

    /** The device holds an image that recovers to this log and loads this checkpoint. */
    ghost predicate Keeps(recs: seq<Rec>, c: Checkpoint)
      reads this
    {
      Intact() && Recs() == recs && Now().c == c
    }

    ghost predicate Holds(recs: seq<Rec>, c: Checkpoint)
      reads this
    {
      Keeps(recs, c) && Paced()
    }

    /** No unsynced descriptor is left: a power loss loads the checkpoint that the image loads. */
    ghost predicate Settled()
      reads this
      requires trace != []
    {
      Now().prior == Now().c
    }

    lemma Facts()
      requires Intact()
      ensures DiskInv(v, image, Recs(), Now().c) && (Paced() ==> Aged(v, Now().c.desc))
      ensures v.Ok() && |image| == v.backing && WellFormed(v, Recs())
      ensures v.LogStart() <= Tail(v, Recs()) + 1 <= v.backing
    {
      assert Whole(v, trace[|trace| - 1]);
      BoundaryGrows(v, Recs(), 0, |Recs()|);
    }

    /** Takes over what an earlier process left, unsynced blocks and all. */
    constructor (image: Image, faultless: bool, ghost v: Vol, ghost s: Crash)
      requires CrashOk(v, s) && s.image == image
      ensures this.v == v && this.image == image && this.faultless == faultless && Holds(s.recs, s.c)
      ensures fresh(faults) && !Faulted()
      ensures trace == [s]
    {
      this.v := v;
      this.faultless := faultless;
      faults := new Faults();
      this.image := image;
      history := [image];
      trace := [s];
    }

    method Read(a: nat) returns (ok: bool, b: Block)
      requires a < |image|
      modifies faults
      ensures ok ==> b == image[a]
      ensures if ok then faults.struck == old(faults.struck) else Faulted()
    {
      ok := *;
      ok := ok || faultless;
      b := image[a];
      if !ok { faults.struck := true; }
    }

    /** One block write. It can fail before or after it reached the medium. */
    method Put(a: nat, b: Block, ghost s: Crash) returns (ok: bool)
      requires Intact() && a < |image| && Whole(v, s) && s.image == image[a := b] && Recs() <= s.recs
      modifies this, faults
      ensures old(Paced()) && Aged(v, s.c.desc) ==> Paced()
      ensures Intact() && old(trace) <= trace <= old(trace) + [s]
      ensures ok ==> trace == old(trace) + [s]
      ensures if ok then faults.struck == old(faults.struck) else Faulted()
    {
      hide Whole;
      var reached: bool := *;
      if reached || faultless {
        image := image[a := b];
        history := history + [image];
        trace := trace + [s];
        ok := *;
        ok := ok || faultless;
      } else {
        ok := false;
      }
      if !ok { faults.struck := true; }
    }

    method Sync() returns (ok: bool)
      requires Intact()
      modifies this, faults
      ensures old(Paced()) ==> Paced()
      ensures Intact() && image == old(image) && old(trace) <= trace
      ensures Recs() == old(Recs())
      ensures ok ==> Keeps(old(Recs()), old(Now().c)) && Settled() && Now().may == Synced(image)
      ensures !ok ==> trace == old(trace)
      ensures if ok then faults.struck == old(faults.struck) else Faulted()
    {
      hide Whole, Synced, DiskInv, WellFormed;
      ok := *;
      ok := ok || faultless;
      if !ok { faults.struck := true; }
      if ok {
        ghost var s := Now();
        Facts();
        SyncPower(v, image, s.recs, s.c);
        history := history + [image];
        trace := trace + [Crash(image, s.recs, s.c, s.c, Synced(image))];
      }
    }

    /** A payload in flight or a cleared block: past the log and no record. */
    method WriteRaw(a: nat, data: nat) returns (ok: bool)
      requires Intact() && Tail(v, Recs()) < a < |image|
      modifies this, faults
      ensures old(Paced()) ==> Paced()
      ensures Intact() && old(trace) <= trace && Recs() == old(Recs())
      ensures ok ==> image == old(image)[a := Raw(data)] && Keeps(old(Recs()), old(Now().c))
      ensures if ok then faults.struck == old(faults.struck) else Faulted()
    {
      hide Apart;
      ghost var s := Now();
      WriteQuiet(v, image, s.recs, s.c, a, Raw(data));
      LogApart(v, s, a);
      KeepPower(v, s, a, Raw(data));
      ok := Put(a, Raw(data), Crash(image[a := Raw(data)], s.recs, s.c, s.prior, Unsynced(s, a, Raw(data))));
    }

    /** The block that completes record `r`. */
    method WriteEnd(a: nat, b: Block, ghost r: Rec) returns (ok: bool)
      requires Intact()
      requires RecOk(v, r) && r.prev == Tail(v, Recs()) && a == r.prev + r.Size() < |image|
      requires RecAt(v, image[a := b], Recs() + [r], |Recs()|)
      modifies this, faults
      ensures old(Paced()) ==> Paced()
      ensures Intact() && old(trace) <= trace
      ensures old(Recs()) <= Recs() <= old(Recs()) + [r]
      ensures ok ==> image == old(image)[a := b] && Keeps(old(Recs()) + [r], old(Now().c))
      ensures if ok then faults.struck == old(faults.struck) else Faulted()
    {
      hide Whole, RecAt, RecOk;
      ghost var s := Now();
      CompletesRecord(v, s, r, b);
      ok := Put(a, b, Completed(s, a, r, b));
    }

    /** A block of the inactive slot's index body. */
    method WriteIndex(a: nat, pointers: seq<nat>) returns (ok: bool)
      requires Intact() && Settled()
      requires v.Body(Other(Now().c.desc.slot)) <= a < v.Body(Other(Now().c.desc.slot)) + v.IndexBlocks()
      requires a < |image|
      modifies this, faults
      ensures old(Paced()) ==> Paced()
      ensures Intact() && old(trace) <= trace && Recs() == old(Recs())
      ensures ok ==> image == old(image)[a := Index(pointers)] && Keeps(old(Recs()), old(Now().c)) && Settled()
      ensures if ok then faults.struck == old(faults.struck) else Faulted()
    {
      ghost var s := Now();
      WriteBody(v, image, s.recs, s.c, a, Index(pointers));
      KeepPower(v, s, a, Index(pointers));
      ok := Put(a, Index(pointers),
                Crash(image[a := Index(pointers)], s.recs, s.c, s.c, Unsynced(s, a, Index(pointers))));
    }

    /** The descriptor of a complete, synced candidate. */
    method WriteDescriptor(d: Checkpoint) returns (ok: bool)
      requires Intact() && Now().may == Synced(image) && NextRoot(v, Now().c, d.desc)
      requires Staged(v, image, Recs(), d, {}) && BodyAt(v, image, d)
      requires d.desc.indexSum == v.indexSum(d.index)
      modifies this, faults
      ensures old(Paced()) && old(Now().c.desc.boundary) < d.desc.boundary ==> Paced()
      ensures Intact() && old(trace) <= trace && Recs() == old(Recs())
      ensures ok ==> image == old(image)[d.desc.slot := Root(d.desc)] && Now().c == d
      ensures if ok then faults.struck == old(faults.struck) else Faulted()
    {
      ghost var s := Now();
      WriteRoot(v, image, s.recs, s.c, d);
      CheckpointBehind(v, image, s.recs, s.c);
      RootPower(v, s, d);
      ok := Put(d.desc.slot, Root(d.desc),
                Crash(image[d.desc.slot := Root(d.desc)], s.recs, d, s.c, Unsynced(s, d.desc.slot, Root(d.desc))));
    }
  }
}
