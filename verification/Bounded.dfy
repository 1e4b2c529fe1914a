/** Bounded-memory recovery against recovery with memory for everything. */
module Bounded {
  import opened Blocks
  import opened Log
  import opened Live
  import opened Disk
  import opened Device
  import opened Cache
  import opened Publish
  import opened Recovery

  /** What a lookup of page `p` sees: the cached page, or the snapshot its index pointer names. */
  ghost function Visible(I: Image, c: Checkpoint, view: View, p: nat): seq<Entry>
    requires p < |c.index|
  {
    if p in view then view[p].entries else Entries(I, c, p)
  }

  /** A recovered volume shows every page as the replay of the whole log leaves it. */
  lemma VisibleIs(v: Vol, I: Image, recs: seq<Rec>, c: Checkpoint, view: View, p: nat)
    requires DiskInv(v, I, recs, c) && c.desc.lsn <= |recs| && p < v.Pages()
    requires UpToDate(v, recs, view) && Covered(v, recs, c, view)
    ensures |c.index| == v.Pages() && Visible(I, c, view, p) == PageAt(v, recs, |recs|, p)
  {
  }

  /** Recovery shows the mapping of the log it started from, whatever it published on the way. */
  method RecoverShown(v: Vol, dev: Device, c: Checkpoint, capacity: nat) returns (r: Result<Recovered>)
    requires v.Ok() && dev.v == v && dev.Holds(dev.Recs(), c) && c.desc.lsn <= |dev.Recs()| && capacity >= 1
    modifies dev, dev.faults
    ensures dev.Valid()
    ensures r.Ok? ==> fresh(r.value.cache) && Shows(v, old(dev.Recs()), dev.image, r.value.c, r.value.cache.view)
    ensures r.Ok? ==>
              |LiveIn(v, old(dev.Recs()), c.desc.lsn, 0, 0, v.Pages())| + r.value.newly == LiveCount(v, old(dev.Recs()))
  {
    hide Device.Intact, Device.Paced, DiskInv, LiveIn, Indexed, UpToDate, Covered, Traced, PageAt, LiveCount,
         WellFormed, Dirty, Visible;
    ghost var recs := dev.Recs();
    r := Recover(v, dev, c, capacity);
    if r.Ok? {
      dev.Facts();
      IndexShape(v, dev.image, dev.Recs(), r.value.c);
      forall p | 0 <= p < v.Pages()
        ensures |r.value.c.index| == v.Pages()
        ensures Visible(dev.image, r.value.c, r.value.cache.view, p) == PageAt(v, recs, |recs|, p)
      {
        VisibleIs(v, dev.image, dev.Recs(), r.value.c, r.value.cache.view, p);
        SnapsKeepPage(v, recs, dev.Recs(), p);
      }
      LiveCountSnaps(v, recs, dev.Recs());
    }
  }

  ghost predicate Shows(v: Vol, recs: seq<Rec>, I: Image, c: Checkpoint, view: View) {
    |c.index| == v.Pages() && forall p :: 0 <= p < v.Pages() ==> Visible(I, c, view, p) == PageAt(v, recs, |recs|, p)
  }

  /**
    * Two recoveries of one log with any two cache capacities: the same mapping, page by page, and the same
    * number of live blocks, although one may run in many windows and publish and the other in a single pass.
    */
  method RecoverTwice(v: Vol, one: Device, two: Device, c: Checkpoint, small: nat, large: nat)
    returns (a: Result<Recovered>, b: Result<Recovered>)
    requires v.Ok() && one != two && one.v == v && two.v == v && small >= 1 && large >= 1
    requires one.Recs() == two.Recs() && one.Holds(one.Recs(), c) && two.Holds(two.Recs(), c)
    requires c.desc.lsn <= |one.Recs()|
    modifies one, two, one.faults, two.faults
    ensures a.Ok? && b.Ok? ==> a.value.newly == b.value.newly
    ensures a.Ok? && b.Ok? ==> |a.value.c.index| == |b.value.c.index| == v.Pages()
    ensures a.Ok? && b.Ok? ==> forall p :: 0 <= p < v.Pages() ==>
              Visible(one.image, a.value.c, a.value.cache.view, p) ==
              Visible(two.image, b.value.c, b.value.cache.view, p)
  {
    hide Device.Intact, Device.Paced, LiveIn, PageAt, LiveCount, Visible;
    a := RecoverShown(v, one, c, small);
    b := RecoverShown(v, two, c, large);
  }
}
