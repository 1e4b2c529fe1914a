/** Replaying the log tail with bounded memory. */
module Recovery {
  import opened Blocks
  import opened Sets
  import opened Log
  import opened Live
  import opened Disk
  import opened Device
  import opened Cache
  import opened Publish
  import opened Mapping
  import opened Buffer
  import opened Write
  import Scanner

  /** The planning index: touched pages hold the marker 1, all others their active pointer. */
  ghost predicate Marked(c: Checkpoint, plan: seq<nat>, pages: set<nat>) {
    && |plan| == |c.index|
    && forall p :: 0 <= p < |plan| ==> plan[p] == if p in pages then 1 else c.index[p]
  }

  /** Marks the pages of one record. */
  method MarkRecord(v: Vol, c: Checkpoint, start: seq<nat>, count: nat, lbas: seq<nat>, ghost pages: set<nat>)
    returns (plan: seq<nat>, touched: nat)
    requires Marked(c, start, pages) && count == |pages|
    requires forall p :: 0 <= p < |c.index| ==> c.index[p] != 1
    requires forall k :: 0 <= k < |lbas| ==> lbas[k] / 336 < |c.index|
    ensures Marked(c, plan, pages + PagesOf(lbas)) && touched == |pages + PagesOf(lbas)|
  {
    hide PagesOf;
    plan, touched := start, count;
    var k := 0;
    ghost var seen: set<nat> := pages;
    assert PagesOf(lbas[..0]) == {} by { NoPages(lbas[..0]); }
    while k < |lbas|
      invariant k <= |lbas| && Marked(c, plan, seen) && touched == |seen| && seen == pages + PagesOf(lbas[..k])
    {
      var p := lbas[k] / 336;
      if plan[p] != 1 {
        plan := plan[p := 1];
        touched := touched + 1;
      }
      assert p in seen ==> seen + {p} == seen;
      PrefixPages(lbas, k);
      assert seen + {p} == pages + PagesOf(lbas[..k + 1]);
      seen := seen + {p};
      k := k + 1;
    }
    assert lbas[..k] == lbas;
  }

  lemma NoPages(s: seq<nat>)
    requires s == []
    ensures PagesOf(s) == {}
  {
  }

  lemma NoMarkers(v: Vol, I: Image, recs: seq<Rec>, c: Checkpoint)
    requires DiskInv(v, I, recs, c)
    ensures |c.index| == v.Pages() && forall p :: 0 <= p < |c.index| ==> c.index[p] != 1
  {
    forall p | 0 <= p < |c.index| ensures c.index[p] != 1 { assert PtrAt(v, I, c, p); }
  }

  datatype Scan = Scan(end: Position, plan: seq<nat>, touched: nat)

  /** First pass: finds the end of the log and the pages its tail touches. */
  method ScanTail(v: Vol, dev: Device, c: Checkpoint) returns (r: Result<Scan>)
    requires v.Ok() && dev.v == v && dev.Holds(dev.Recs(), c)
    modifies dev.faults
    ensures r.Err? ==> r.error == Io
    ensures r.Ok? ==>
              && r.value.end == Position(|dev.Recs()|, Tail(v, dev.Recs())) && c.desc.lsn <= |dev.Recs()|
              && Marked(c, r.value.plan, TouchedPages(v, dev.Recs(), c.desc.lsn, |dev.Recs()|))
              && r.value.touched == |TouchedPages(v, dev.Recs(), c.desc.lsn, |dev.Recs()|)|
    ensures r == Err(Io) ==> dev.Faulted()
  {
    hide Device.Intact, Device.Paced, DiskInv, LogAt, TouchedPages, PagesOf;
    ghost var recs := dev.Recs();
    dev.Facts();
    NoMarkers(v, dev.image, recs, c);
    assert LogAt(v, dev.image, recs) && c.desc.lsn <= |recs| && At(c) == Scanner.PositionAt(v, recs, c.desc.lsn)
      by { InvLog(v, dev.image, recs, c); }
    TouchedPagesStart(v, recs, c.desc.lsn);
    var end, plan, touched := At(c), c.index, 0;
    ghost var i := c.desc.lsn;
    while true
      invariant c.desc.lsn <= i <= |recs| && end == Scanner.PositionAt(v, recs, i)
      invariant Marked(c, plan, TouchedPages(v, recs, c.desc.lsn, i))
      invariant touched == |TouchedPages(v, recs, c.desc.lsn, i)|
      decreases |recs| - i
    {
      Scanner.NextInLog(v, dev.image, recs, c.desc.lsn, i);
      var next := Scanner.ReadNext(v, dev, At(c), end);
      if next.Err? { return Err(next.error); }
      if next.value.None? { break; }
      var record := next.value.value;
      end := record.End();
      TouchedPagesStep(v, recs, c.desc.lsn, i);
      if record.DataRecord? {
        forall k | 0 <= k < |record.lbas| ensures record.lbas[k] / 336 < |c.index| { WellShaped(v, recs, i, k); }
        plan, touched := MarkRecord(v, c, plan, touched, record.lbas, TouchedPages(v, recs, c.desc.lsn, i));
      } else {
        assert TouchedPages(v, recs, c.desc.lsn, i) + {} == TouchedPages(v, recs, c.desc.lsn, i);
      }
      i := i + 1;
    }
    r := Ok(Scan(end, plan, touched));
  }

  lemma InvLog(v: Vol, I: Image, recs: seq<Rec>, c: Checkpoint)
    requires DiskInv(v, I, recs, c)
    ensures LogAt(v, I, recs) && c.desc.lsn <= |recs| && c.desc.boundary == Boundary(v, recs, c.desc.lsn)
  {
  }

  ghost function Within(pages: set<nat>, lo: nat, hi: nat): set<nat> { set p | p in pages && lo <= p < hi }

  lemma WithinStep(lbas: seq<nat>, k: nat, lo: nat, hi: nat)
    requires k < |lbas|
    ensures Within(PagesOf(lbas[..k + 1]), lo, hi) ==
            Within(PagesOf(lbas[..k]), lo, hi) + if lo <= lbas[k] / 336 < hi then {lbas[k] / 336} else {}
  {
    PrefixPages(lbas, k);
  }

  lemma SkipApplied(v: Vol, recs: seq<Rec>, i: nat, k: nat, lo: nat, hi: nat, c: Checkpoint, view: View, live: int)
    requires WellFormed(v, recs) && i < |recs| && recs[i].Data? && k < |recs[i].lbas| && c.desc.lsn <= |recs|
    requires Applied(v, recs, i, k, lo, hi, c, view, live) && !(lo <= recs[i].lbas[k] / 336 < hi)
    ensures Applied(v, recs, i, k + 1, lo, hi, c, view, live)
  {
    WellShaped(v, recs, i, k);
    SkipKeeps(v, recs, i, k, lo, hi, c, view);
    LiveStep(v, recs, i, k, lo, hi);
  }

  /** One payload of a replayed record, if its page is in the window. */
  method ReplayEntry(v: Vol, dev: Device, cache: Cache, c: Checkpoint, lba: nat, e: Entry, lo: nat, hi: nat,
                     newly: int, ghost i: nat, ghost k: nat, ghost base: int)
    returns (ok: bool, now: int)
    requires v.Ok() && dev.v == v && dev.Holds(dev.Recs(), c) && c.desc.lsn <= |dev.Recs()|
    requires cache.Valid() && cache.pages == v.Pages() && cache.blocks == v.blocks && hi <= v.Pages()
    requires i < |dev.Recs()| && dev.Recs()[i].Data? && k < |dev.Recs()[i].lbas|
    requires lba == dev.Recs()[i].lbas[k] && e == Made(v, dev.Recs()[i], k)
    requires Applied(v, dev.Recs(), i, k, lo, hi, c, cache.view, base + newly)
    requires lo <= lba / 336 < hi ==> |Dirty(cache.view) + {lba / 336}| <= |cache.slots|
    modifies cache, cache.clock, dev.faults
    ensures cache.Valid() && |cache.slots| == old(|cache.slots|)
    ensures ok ==> Applied(v, dev.Recs(), i, k + 1, lo, hi, c, cache.view, base + now)
    ensures ok ==> Dirty(cache.view) == old(Dirty(cache.view)) + if lo <= lba / 336 < hi then {lba / 336} else {}
    ensures !ok ==> dev.Faulted()
  {
    hide Device.Intact, Device.Paced, CurrentAt, CoveredAt, LiveIn, Indexed, Dirty, DiskInv;
    dev.Facts();
    now := newly;
    if lo <= lba / 336 < hi {
      var s := Occupy(v, dev, cache, c, lba / 336, i, k, lo, hi);
      if s.Err? { return false, now; }
      now := ApplyEntry(v, cache, c, s.value, lba, e, newly, dev.Recs(), i, k, lo, hi, base);
    } else {
      SkipApplied(v, dev.Recs(), i, k, lo, hi, c, cache.view, base + newly);
    }
    ok := true;
  }

  /** The cache holds the window's replay up to record `i`; the touched pages are the dirty ones. */
  ghost predicate Replayed(v: Vol, recs: seq<Rec>, i: nat, lo: nat, hi: nat, c: Checkpoint, view: View, live: int)
    requires c.desc.lsn <= i <= |recs|
  {
    && Applied(v, recs, i, 0, lo, hi, c, view, live)
    && Dirty(view) == Within(TouchedPages(v, recs, c.desc.lsn, i), lo, hi)
  }

  lemma ReplayedNext(v: Vol, recs: seq<Rec>, i: nat, lo: nat, hi: nat, c: Checkpoint, view: View, live: int)
    requires WellFormed(v, recs) && c.desc.lsn <= i < |recs| && recs[i].Data?
    requires Applied(v, recs, i, |recs[i].lbas|, lo, hi, c, view, live)
    requires Dirty(view) == Within(TouchedPages(v, recs, c.desc.lsn, i), lo, hi) + Within(PagesOf(recs[i].lbas), lo, hi)
    ensures Replayed(v, recs, i + 1, lo, hi, c, view, live)
  {
    hide PageAt, PageMid, LiveIn, TouchedPages;
    assert |recs[i].lbas| > 0 by { assert Linked(v, recs, i); }
    LiveEnd(v, recs, i, lo, hi);
    TouchedPagesStep(v, recs, c.desc.lsn, i);
    forall p: nat ensures PageMid(v, recs, i, |recs[i].lbas|, p) == PageMid(v, recs, i + 1, 0, p) {
      PageEnd(v, recs, i, p);
      assert PageMid(v, recs, i + 1, 0, p) == PageAt(v, recs, i + 1, p) by { AtIsMid(v, recs, i + 1, p); }
    }
  }

  lemma AtIsMid(v: Vol, recs: seq<Rec>, i: nat, p: nat)
    requires i <= |recs|
    ensures PageMid(v, recs, i, 0, p) == PageAt(v, recs, i, p)
  {
  }

  lemma ReplayedSnap(v: Vol, recs: seq<Rec>, i: nat, lo: nat, hi: nat, c: Checkpoint, view: View, live: int)
    requires WellFormed(v, recs) && c.desc.lsn <= i < |recs| && recs[i].Snap?
    requires Replayed(v, recs, i, lo, hi, c, view, live)
    ensures Replayed(v, recs, i + 1, lo, hi, c, view, live)
  {
    hide PageAt, PageMid, TouchedPages, Ent;
    TouchedPagesStep(v, recs, c.desc.lsn, i);
    assert TouchedPages(v, recs, c.desc.lsn, i) + {} == TouchedPages(v, recs, c.desc.lsn, i);
    SnapKeeps(v, recs, i);
    assert LiveIn(v, recs, i + 1, 0, lo, hi) == LiveIn(v, recs, i, 0, lo, hi);
    forall p: nat ensures PageMid(v, recs, i + 1, 0, p) == PageMid(v, recs, i, 0, p) {
      AtIsMid(v, recs, i, p);
      AtIsMid(v, recs, i + 1, p);
      assert PageAt(v, recs, i + 1, p) == PageAt(v, recs, i, p);
    }
  }

  lemma ReplayedStart(v: Vol, recs: seq<Rec>, lo: nat, hi: nat, c: Checkpoint)
    requires c.desc.lsn <= |recs|
    ensures Replayed(v, recs, c.desc.lsn, lo, hi, c, map[], |LiveIn(v, recs, c.desc.lsn, 0, lo, hi)|)
  {
    TouchedPagesStart(v, recs, c.desc.lsn);
    forall p: nat ensures PageMid(v, recs, c.desc.lsn, 0, p) == PageAt(v, recs, c.desc.lsn, p) {
      AtIsMid(v, recs, c.desc.lsn, p);
    }
  }

  lemma WindowBound(v: Vol, recs: seq<Rec>, a: nat, i: nat, n: nat, lo: nat, hi: nat)
    requires WellFormed(v, recs) && a <= i < n <= |recs|
    ensures Within(TouchedPages(v, recs, a, i), lo, hi) <= Within(TouchedPages(v, recs, a, n), lo, hi)
    ensures recs[i].Data? ==> Within(PagesOf(recs[i].lbas), lo, hi) <= Within(TouchedPages(v, recs, a, n), lo, hi)
  {
    hide Touched, PagesOf;
    TouchedPagesStep(v, recs, a, i);
    forall p | p in TouchedPages(v, recs, a, i + 1) ensures p in TouchedPages(v, recs, a, n) {
      TouchedGrows(recs, a, i + 1, n, p);
    }
  }

  /** Applies the window's part of one data record. */
  method ReplayRecord(v: Vol, dev: Device, cache: Cache, c: Checkpoint, record: Scanner.LogRecord, lo: nat, hi: nat,
                      newly: int, ghost i: nat, ghost bound: set<nat>, ghost base: int)
    returns (ok: bool, now: int)
    requires v.Ok() && dev.v == v && dev.Holds(dev.Recs(), c) && c.desc.lsn <= i < |dev.Recs()|
    requires cache.Valid() && cache.pages == v.Pages() && cache.blocks == v.blocks && hi <= v.Pages()
    requires dev.Recs()[i].Data? && record == Scanner.RecordOf(v, dev.Recs(), i) && WellFormed(v, dev.Recs())
    requires Replayed(v, dev.Recs(), i, lo, hi, c, cache.view, base + newly)
    requires Within(TouchedPages(v, dev.Recs(), c.desc.lsn, i), lo, hi) <= bound && |bound| <= |cache.slots|
    requires record.DataRecord? && Within(PagesOf(record.lbas), lo, hi) <= bound
    modifies cache, cache.clock, dev.faults
    ensures cache.Valid() && |cache.slots| == old(|cache.slots|)
    ensures ok ==> Replayed(v, dev.Recs(), i + 1, lo, hi, c, cache.view, base + now)
    ensures !ok ==> dev.Faulted()
  {
    hide Device.Intact, Device.Paced, Applied, LiveIn, Indexed, Sums, Dirty, DiskInv, TouchedPages, PagesOf, Within,
         WellFormed, Device.Holds, RecOk, Cache.Valid, Vol.Pages, Vol.Ok;
    ghost var before := Dirty(cache.view);
    assert Applied(v, dev.Recs(), i, 0, lo, hi, c, cache.view, base + newly);
    assert before == Within(TouchedPages(v, dev.Recs(), c.desc.lsn, i), lo, hi);
    hide Replayed;
    now := newly;
    var k := 0;
    assert Within(PagesOf(record.lbas[..0]), lo, hi) == {} by { NoWindow(record.lbas[..0], lo, hi); }
    while k < |record.lbas|
      invariant k <= |record.lbas| && cache.Valid() && |cache.slots| == old(|cache.slots|)
      invariant Applied(v, dev.Recs(), i, k, lo, hi, c, cache.view, base + now)
      invariant Dirty(cache.view) == before + Within(PagesOf(record.lbas[..k]), lo, hi)
    {
      WindowFits(record.lbas, k, lo, hi, before, bound);
      WithinStep(record.lbas, k, lo, hi);
      ok, now := ReplayEntry(v, dev, cache, c, record.lbas[k], Entry(record.h.prev + 1 + k, record.sums[k]), lo, hi,
                             now, i, k, base);
      if !ok { return; }
      k := k + 1;
    }
    ok := true;
    assert record.lbas[..k] == record.lbas;
    ReplayedNext(v, dev.Recs(), i, lo, hi, c, cache.view, base + now);
  }

  lemma NoWindow(s: seq<nat>, lo: nat, hi: nat)
    requires s == []
    ensures Within(PagesOf(s), lo, hi) == {}
  {
  }

  lemma WindowFits(lbas: seq<nat>, k: nat, lo: nat, hi: nat, before: set<nat>, bound: set<nat>)
    requires k < |lbas| && before <= bound && Within(PagesOf(lbas), lo, hi) <= bound
    ensures lo <= lbas[k] / 336 < hi ==>
              |before + Within(PagesOf(lbas[..k]), lo, hi) + {lbas[k] / 336}| <= |bound|
  {
    if lo <= lbas[k] / 336 < hi {
      assert lbas[k] / 336 in Within(PagesOf(lbas), lo, hi);
      forall j | 0 <= j < k ensures lbas[..k][j] / 336 in PagesOf(lbas) { assert lbas[..k][j] == lbas[j]; }
      Smaller(before + Within(PagesOf(lbas[..k]), lo, hi) + {lbas[k] / 336}, bound);
    }
  }

  /** One pass over the fixed tail. Whatever follows position `end` plays no part. */
  method ReplayWindow(v: Vol, dev: Device, cache: Cache, c: Checkpoint, end: Position, lo: nat, hi: nat)
    returns (r: Result<int>)
    requires v.Ok() && dev.v == v && dev.Holds(dev.Recs(), c)
    requires c.desc.lsn <= end.lsn <= |dev.Recs()| && end == Scanner.PositionAt(v, dev.Recs(), end.lsn)
    requires cache.Valid() && cache.pages == v.Pages() && cache.blocks == v.blocks && hi <= v.Pages()
    requires cache.view == map[]
    requires |Within(TouchedPages(v, dev.Recs(), c.desc.lsn, end.lsn), lo, hi)| <= |cache.slots|
    modifies cache, cache.clock, dev.faults
    ensures cache.Valid() && |cache.slots| == old(|cache.slots|)
    ensures r.Err? ==> r.error == Io
    ensures r.Ok? ==> Replayed(v, dev.Recs(), end.lsn, lo, hi, c, cache.view,
                               |LiveIn(v, dev.Recs(), c.desc.lsn, 0, lo, hi)| + r.value)
    ensures r == Err(Io) ==> dev.Faulted()
  {
    hide Device.Intact, Device.Paced, DiskInv, LogAt, Replayed, LiveIn, TouchedPages, PagesOf, Within, Indexed, Dirty,
         Sums;
    ghost var recs, base := dev.Recs(), |LiveIn(v, dev.Recs(), c.desc.lsn, 0, lo, hi)|;
    dev.Facts();
    InvLog(v, dev.image, recs, c);
    ReplayedStart(v, recs, lo, hi, c);
    ghost var i := c.desc.lsn;
    var at, newly := At(c), 0;
    while at != end
      invariant c.desc.lsn <= i <= end.lsn && at == Scanner.PositionAt(v, recs, i)
      invariant cache.Valid() && |cache.slots| == old(|cache.slots|)
      invariant Replayed(v, recs, i, lo, hi, c, cache.view, base + newly)
      decreases end.lsn - i
    {
      Scanner.NextInLog(v, dev.image, recs, c.desc.lsn, i);
      var next := Scanner.ReadNext(v, dev, At(c), at);
      if next.Err? { return Err(next.error); }
      var record := next.value.value;
      at := record.End();
      if record.DataRecord? {
        WindowBound(v, recs, c.desc.lsn, i, end.lsn, lo, hi);
        var ok;
        ok, newly := ReplayRecord(v, dev, cache, c, record, lo, hi, newly, i,
                                Within(TouchedPages(v, recs, c.desc.lsn, end.lsn), lo, hi), base);
        if !ok { return Err(Io); }
      } else {
        ReplayedSnap(v, recs, i, lo, hi, c, cache.view, base + newly);
      }
      i := i + 1;
    }
    r := Ok(newly);
  }

  // ---- windows ----

  datatype Window = Window(lo: nat, hi: nat)

  ghost function Markers(plan: seq<nat>, lo: nat, hi: nat): set<nat>
    requires hi <= |plan|
  {
    set p | lo <= p < hi && plan[p] == 1
  }

  lemma MarkersStep(plan: seq<nat>, lo: nat, hi: nat)
    requires lo <= hi < |plan|
    ensures |Markers(plan, lo, hi + 1)| == |Markers(plan, lo, hi)| + if plan[hi] == 1 then 1 else 0
  {
    if plan[hi] == 1 {
      assert Markers(plan, lo, hi + 1) == Markers(plan, lo, hi) + {hi};
    } else {
      assert Markers(plan, lo, hi + 1) == Markers(plan, lo, hi);
    }
  }

  /** The next run of pages with at most `capacity` markers, from the first marker on. */
  method NextWindow(plan: seq<nat>, start: nat, capacity: nat) returns (w: Option<Window>)
    requires start <= |plan| && capacity >= 1
    ensures w.None? <==> forall p :: start <= p < |plan| ==> plan[p] != 1
    ensures w.Some? ==>
              && start <= w.value.lo < w.value.hi <= |plan| && plan[w.value.lo] == plan[w.value.hi - 1] == 1
              && (forall p :: start <= p < w.value.lo ==> plan[p] != 1)
              && |Markers(plan, w.value.lo, w.value.hi)| <= capacity
              && (|Markers(plan, w.value.lo, w.value.hi)| == capacity
                  || forall p :: w.value.hi <= p < |plan| ==> plan[p] != 1)
  {
    hide Markers;
    var first := start;
    while first < |plan| && plan[first] != 1
      invariant start <= first <= |plan| && forall p :: start <= p < first ==> plan[p] != 1
    {
      first := first + 1;
    }
    if first == |plan| { return None; }
    var hi, q, count := first + 1, first + 1, 1;
    assert |Markers(plan, first, first)| == 0 by { NoMarkersIn(plan, first); }
    MarkersStep(plan, first, first);
    while q < |plan| && count < capacity
      invariant first < hi <= q <= |plan| && count <= capacity && plan[hi - 1] == 1
      invariant count == |Markers(plan, first, hi)| && forall p :: hi <= p < q ==> plan[p] != 1
      invariant |Markers(plan, first, q)| == count
    {
      MarkersStep(plan, first, q);
      if plan[q] == 1 {
        hi, count := q + 1, count + 1;
      }
      q := q + 1;
    }
    w := Some(Window(first, hi));
  }

  lemma NoMarkersIn(plan: seq<nat>, lo: nat)
    requires lo <= |plan|
    ensures |Markers(plan, lo, lo)| == 0
  {
    assert Markers(plan, lo, lo) == {};
  }

  /** A window replayed to the end of the data is current, whatever snapshots follow. */
  lemma ReplayedUpToDate(v: Vol, recs: seq<Rec>, more: seq<Rec>, lo: nat, hi: nat, c: Checkpoint, view: View, live: int)
    requires OnlySnaps(recs, more) && c.desc.lsn <= |recs| && hi <= v.Pages()
    requires Replayed(v, more, |recs|, lo, hi, c, view, live)
    ensures UpToDate(v, more, view)
    ensures Dirty(view) == Within(TouchedPages(v, recs, c.desc.lsn, |recs|), lo, hi)
    ensures live == |LiveIn(v, recs, |recs|, 0, lo, hi)|
  {
    hide PageAt, PageMid, LiveIn, TouchedPages, Within, Dirty;
    TouchedStable(v, recs, more, c.desc.lsn, |recs|);
    LiveStable(v, recs, more, |recs|, lo, hi);
    forall p | p in view ensures PageMid(v, more, |recs|, 0, p) == PageAt(v, more, |more|, p) {
      AtIsMid(v, more, |recs|, p);
      PageStable(v, recs, more, |recs|, p);
      SnapsKeepPage(v, recs, more, p);
    }
  }

  /** Replays one window into a fresh cache and stages its snapshots. */
  method PublishWindow(v: Vol, dev: Device, c: Checkpoint, start: Checkpoint, end: Position, lo: nat, hi: nat,
                       capacity: nat, ghost recs: seq<Rec>, ghost todo: set<nat>)
    returns (r: Result<int>, cand: Checkpoint, cache: Cache)
    requires v.Ok() && dev.v == v && dev.Holds(dev.Recs(), c) && OnlySnaps(recs, dev.Recs()) && c.desc.lsn <= |recs|
    requires end == Scanner.PositionAt(v, recs, |recs|) && lo < hi <= v.Pages() && capacity >= 1
    requires Staged(v, dev.image, dev.Recs(), start, todo)
    requires |Within(TouchedPages(v, recs, c.desc.lsn, |recs|), lo, hi)| <= capacity
    requires Tail(v, dev.Recs()) + |Within(TouchedPages(v, recs, c.desc.lsn, |recs|), lo, hi)| < v.backing
    modifies dev, dev.faults
    ensures dev.Valid() && old(dev.trace) <= dev.trace && OnlySnaps(recs, dev.Recs())
    ensures fresh(cache) && fresh(cache.clock) && cache.Valid() && cache.pages == v.Pages() && cache.blocks == v.blocks
    ensures |cache.slots| == capacity
    ensures r.Err? ==> r.error == Io
    ensures r.Ok? ==>
              && dev.Holds(dev.Recs(), c) && UpToDate(v, dev.Recs(), cache.view)
              && Staged(v, dev.image, dev.Recs(), cand,
                        todo - Within(TouchedPages(v, recs, c.desc.lsn, |recs|), lo, hi))
              && Tail(v, dev.Recs()) ==
                 Tail(v, old(dev.Recs())) + |Within(TouchedPages(v, recs, c.desc.lsn, |recs|), lo, hi)|
              && cand.desc == start.desc.(lsn := cand.desc.lsn, boundary := cand.desc.boundary)
              && |cand.index| == |start.index|
              && (forall p :: 0 <= p < |start.index| && p !in Within(TouchedPages(v, recs, c.desc.lsn, |recs|), lo, hi)
                    ==> cand.index[p] == start.index[p])
              && r.value == |LiveIn(v, recs, |recs|, 0, lo, hi)| - |LiveIn(v, recs, c.desc.lsn, 0, lo, hi)|
    ensures r == Err(Io) ==> dev.Faulted()
  {
    hide Device.Intact, Device.Paced, DiskInv, Replayed, LiveIn, TouchedPages, Within, Indexed, Dirty, Staged,
         UpToDate, PageAt;
    cand := start;
    cache := new Cache(capacity, v.Pages(), v.blocks);
    ghost var more := dev.Recs();
    TouchedStable(v, recs, more, c.desc.lsn, |recs|);
    LiveStable(v, recs, more, c.desc.lsn, lo, hi);
    r := ReplayWindow(v, dev, cache, c, end, lo, hi);
    if r.Err? { return; }
    ReplayedUpToDate(v, recs, more, lo, hi, c, cache.view, |LiveIn(v, more, c.desc.lsn, 0, lo, hi)| + r.value);
    var ok;
    ok, cand := AppendSnapshots(v, dev, cache, start, todo, c);
    if !ok { return Err(Io), cand, cache; }
    KeepCurrent(v, more, dev.Recs(), cache.view);
  }

  lemma KeepCurrent(v: Vol, recs: seq<Rec>, more: seq<Rec>, view: View)
    requires UpToDate(v, recs, view) && OnlySnaps(recs, more)
    ensures UpToDate(v, more, view)
  {
    hide PageAt;
    forall p | p in view ensures PageAt(v, more, |more|, p) == PageAt(v, recs, |recs|, p) {
      SnapsKeepPage(v, recs, more, p);
    }
  }

  /** The markers left are exactly the touched pages not yet staged. */
  ghost predicate Planned(plan: seq<nat>, todo: set<nat>) {
    forall p :: 0 <= p < |plan| ==> (plan[p] == 1 <==> p in todo)
  }

  lemma WindowSets(plan: seq<nat>, pages: set<nat>, start: nat, lo: nat, hi: nat)
    requires start <= lo <= hi <= |plan| && (forall p :: p in pages ==> p < |plan|)
    requires Planned(plan, Within(pages, start, |plan|)) && forall p :: start <= p < lo ==> plan[p] != 1
    ensures Markers(plan, lo, hi) == Within(pages, lo, hi)
    ensures Within(pages, start, |plan|) - Within(pages, lo, hi) == Within(pages, hi, |plan|)
    ensures |Within(pages, start, |plan|)| == |Within(pages, lo, hi)| + |Within(pages, hi, |plan|)|
    ensures forall p :: start <= p < lo ==> p !in pages
    ensures Within(pages, lo, hi) <= Within(pages, start, |plan|)
  {
    forall p | start <= p < lo ensures p !in pages { assert plan[p] != 1; }
    forall p | p in Within(pages, start, |plan|) && !(lo <= p < hi) ensures p >= hi { assert plan[p] == 1; }
    assert Within(pages, start, |plan|) - Within(pages, lo, hi) == Within(pages, hi, |plan|);
    assert Within(pages, lo, hi) <= Within(pages, start, |plan|);
  }

  /** Live LBAs gained on the pages below `hi`, given those gained below `start`. */
  lemma GainStep(v: Vol, recs: seq<Rec>, a: nat, start: nat, lo: nat, hi: nat)
    requires a <= |recs| && start <= lo <= hi <= v.Pages()
    requires forall p :: start <= p < lo ==> p !in TouchedPages(v, recs, a, |recs|)
    ensures Gain(v, recs, a, 0, hi) == Gain(v, recs, a, 0, start) + Gain(v, recs, a, lo, hi)
  {
    hide LiveIn;
    forall p: nat | start <= p < lo ensures !Touched(recs, a, |recs|, p) {
      assert p !in TouchedPages(v, recs, a, |recs|);
    }
    LiveUntouched(v, recs, a, |recs|, start, lo);
    LiveSplit(v, recs, a, 0, start, hi);
    LiveSplit(v, recs, a, start, lo, hi);
    LiveSplit(v, recs, |recs|, 0, start, hi);
    LiveSplit(v, recs, |recs|, start, lo, hi);
  }

  ghost function Gain(v: Vol, recs: seq<Rec>, a: nat, lo: nat, hi: nat): int
    requires a <= |recs|
  {
    |LiveIn(v, recs, |recs|, 0, lo, hi)| - |LiveIn(v, recs, a, 0, lo, hi)|
  }

  lemma StagedPlanned(v: Vol, I: Image, recs: seq<Rec>, d: Checkpoint, old_: seq<nat>, was: set<nat>, todo: set<nat>)
    requires v.Ok() && Staged(v, I, recs, d, todo) && Planned(old_, was) && |old_| == |d.index| && todo <= was
    requires forall p :: 0 <= p < |old_| && (p !in was || p in todo) ==> d.index[p] == old_[p]
    ensures Planned(d.index, todo)
  {
    forall p | 0 <= p < |d.index| ensures d.index[p] == 1 <==> p in todo {
      if p !in todo { assert StagedPage(v, I, recs, d, p); }
    }
  }

  lemma PlanStaged(v: Vol, I: Image, recs: seq<Rec>, c: Checkpoint, d: Checkpoint)
    requires DiskInv(v, I, recs, c) && At(d) == Position(|recs|, Tail(v, recs))
    requires Marked(c, d.index, TouchedPages(v, recs, c.desc.lsn, |recs|))
    ensures Staged(v, I, recs, d, TouchedPages(v, recs, c.desc.lsn, |recs|))
    ensures Planned(d.index, TouchedPages(v, recs, c.desc.lsn, |recs|))
  {
    hide PageAt, RecAt;
    BoundaryGrows(v, recs, c.desc.lsn, |recs|);
    NoMarkers(v, I, recs, c);
    forall p | 0 <= p < |d.index| && p !in TouchedPages(v, recs, c.desc.lsn, |recs|)
      ensures StagedPage(v, I, recs, d, p)
    {
      assert PtrAt(v, I, c, p);
      assert Entries(I, c, p) == PageAt(v, recs, c.desc.lsn, p);
      UntouchedPage(v, recs, c.desc.lsn, |recs|, p);
    }
  }

  datatype Recovered = Recovered(c: Checkpoint, cache: Cache, tail: Position, newly: int)

  /** What staging has achieved once every page below `start` is done. */
  ghost predicate StagedBelow(v: Vol, dev: Device, c: Checkpoint, d: Checkpoint, recs: seq<Rec>, pages: set<nat>,
                              start: nat)
    reads dev
  {
    && dev.Holds(dev.Recs(), c) && OnlySnaps(recs, dev.Recs()) && start <= v.Pages() == |d.index|
    && Staged(v, dev.image, dev.Recs(), d, Within(pages, start, |d.index|))
    && Planned(d.index, Within(pages, start, |d.index|))
    && NextRoot(v, c, d.desc)
    && Tail(v, dev.Recs()) + |Within(pages, start, |d.index|)| == Tail(v, recs) + |pages| < v.backing
  }

  /** One window of the plan: afterwards every page below its end is staged. */
  method StageWindow(v: Vol, dev: Device, c: Checkpoint, start: Checkpoint, end: Position, w: Window, capacity: nat,
                     ghost recs: seq<Rec>, ghost pages: set<nat>, ghost from: nat)
    returns (r: Result<int>, cand: Checkpoint, cache: Cache)
    requires v.Ok() && dev.v == v && c.desc.lsn <= |recs| && pages == TouchedPages(v, recs, c.desc.lsn, |recs|)
    requires end == Scanner.PositionAt(v, recs, |recs|) && capacity >= 1
    requires StagedBelow(v, dev, c, start, recs, pages, from)
    requires from <= w.lo < w.hi <= |start.index| && |Markers(start.index, w.lo, w.hi)| <= capacity
    requires forall p :: from <= p < w.lo ==> start.index[p] != 1
    modifies dev, dev.faults
    ensures dev.Valid() && old(dev.trace) <= dev.trace && OnlySnaps(recs, dev.Recs())
    ensures fresh(cache) && fresh(cache.clock) && cache.Valid() && cache.pages == v.Pages() && cache.blocks == v.blocks
    ensures |cache.slots| == capacity
    ensures r.Err? ==> r.error == Io
    ensures r.Ok? ==> StagedBelow(v, dev, c, cand, recs, pages, w.hi) && UpToDate(v, dev.Recs(), cache.view)
    ensures r.Ok? ==> Gain(v, recs, c.desc.lsn, 0, w.hi) == Gain(v, recs, c.desc.lsn, 0, from) + r.value
    ensures r == Err(Io) ==> dev.Faulted()
  {
    hide Device.Intact, Device.Paced, LiveIn, TouchedPages, Within, Indexed, Staged, UpToDate, PageAt, Planned,
         Markers, Tail, OnlySnaps;
    assert forall p :: p in pages ==> p < |start.index| by { TouchedBelow(v, recs, c.desc.lsn); }
    WindowSets(start.index, pages, from, w.lo, w.hi);
    GainStep(v, recs, c.desc.lsn, from, w.lo, w.hi);
    ghost var was := Within(pages, from, |start.index|);
    r, cand, cache := PublishWindow(v, dev, c, start, end, w.lo, w.hi, capacity, recs, was);
    if r.Err? { return; }
    StagedPlanned(v, dev.image, dev.Recs(), cand, start.index, was, Within(pages, w.hi, |start.index|));
  }

  lemma TouchedBelow(v: Vol, recs: seq<Rec>, a: nat)
    ensures forall p :: p in TouchedPages(v, recs, a, |recs|) ==> p < v.Pages()
  {
  }

  /** All windows of the plan, one pass over the tail and one fresh cache each. */
  method StageWindows(v: Vol, dev: Device, c: Checkpoint, plan: Checkpoint, end: Position, capacity: nat,
                      ghost recs: seq<Rec>, ghost pages: set<nat>)
    returns (r: Result<int>, cand: Checkpoint, cache: Cache)
    requires v.Ok() && dev.v == v && c.desc.lsn <= |recs| && pages == TouchedPages(v, recs, c.desc.lsn, |recs|)
    requires end == Scanner.PositionAt(v, recs, |recs|) && capacity >= 1
    requires StagedBelow(v, dev, c, plan, recs, pages, 0)
    modifies dev, dev.faults
    ensures dev.Valid() && old(dev.trace) <= dev.trace && OnlySnaps(recs, dev.Recs())
    ensures fresh(cache) && fresh(cache.clock) && cache.Valid() && cache.pages == v.Pages() && cache.blocks == v.blocks
    ensures |cache.slots| == capacity
    ensures r.Err? ==> r.error == Io
    ensures r.Ok? ==> StagedBelow(v, dev, c, cand, recs, pages, v.Pages()) && UpToDate(v, dev.Recs(), cache.view)
    ensures r.Ok? ==> r.value == Gain(v, recs, c.desc.lsn, 0, v.Pages())
    ensures r == Err(Io) ==> dev.Faulted()
  {
    hide Device.Intact, Device.Paced, LiveIn, TouchedPages, Indexed, UpToDate, PageAt, Markers, Staged, Planned, Gain,
         Within, NextRoot;
    cand := plan;
    var start, newly := 0, 0;
    cache := new Cache(capacity, v.Pages(), v.blocks);
    assert UpToDate(v, dev.Recs(), cache.view) by { NothingCached(v, dev.Recs()); }
    assert Gain(v, recs, c.desc.lsn, 0, 0) == 0 by { NoGain(v, recs, c.desc.lsn); }
    var w := NextWindow(cand.index, start, capacity);
    while w.Some?
      invariant StagedBelow(v, dev, c, cand, recs, pages, start) && old(dev.trace) <= dev.trace
      invariant fresh(cache) && fresh(cache.clock) && cache.Valid() && cache.pages == v.Pages()
      invariant cache.blocks == v.blocks
      invariant |cache.slots| == capacity && UpToDate(v, dev.Recs(), cache.view)
      invariant newly == Gain(v, recs, c.desc.lsn, 0, start)
      invariant w.None? <==> forall p :: start <= p < |cand.index| ==> cand.index[p] != 1
      invariant w.Some? ==>
                  && start <= w.value.lo < w.value.hi <= |cand.index|
                  && (forall p :: start <= p < w.value.lo ==> cand.index[p] != 1)
                  && |Markers(cand.index, w.value.lo, w.value.hi)| <= capacity
      decreases v.Pages() - start
    {
      r, cand, cache := StageWindow(v, dev, c, cand, end, w.value, capacity, recs, pages, start);
      if r.Err? { return; }
      newly := newly + r.value;
      start := w.value.hi;
      w := NextWindow(cand.index, start, capacity);
    }
    LastWindow(v, recs, c.desc.lsn, cand.index, pages, start);
    assert Within(pages, v.Pages(), |cand.index|) == {} by { Beyond(pages, v.Pages()); }
    r := Ok(newly);
  }

  lemma Beyond(pages: set<nat>, n: nat)
    ensures Within(pages, n, n) == {}
  {
  }

  lemma StagedEnd(v: Vol, I: Image, recs: seq<Rec>, d: Checkpoint)
    requires Staged(v, I, recs, d, {})
    ensures d.desc.boundary == Tail(v, recs)
  {
  }

  /** Bounded-memory recovery: as many passes as the cache needs, then one root switch. */
  method PublishWindows(v: Vol, dev: Device, c: Checkpoint, scan: Scan, capacity: nat)
    returns (r: Result<Recovered>)
    requires v.Ok() && dev.v == v && dev.Holds(dev.Recs(), c) && c.desc.lsn <= |dev.Recs()| && capacity >= 1
    requires scan.end == Scanner.PositionAt(v, dev.Recs(), |dev.Recs()|)
    requires Marked(c, scan.plan, TouchedPages(v, dev.Recs(), c.desc.lsn, |dev.Recs()|))
    requires Tail(v, dev.Recs()) + |TouchedPages(v, dev.Recs(), c.desc.lsn, |dev.Recs()|)| < v.backing
    requires capacity < |TouchedPages(v, dev.Recs(), c.desc.lsn, |dev.Recs()|)|
    modifies dev, dev.faults
    ensures dev.Valid() && old(dev.trace) <= dev.trace && OnlySnaps(old(dev.Recs()), dev.Recs())
    ensures r.Err? ==> r.error == Io
    ensures r.Ok? ==> fresh(r.value.cache) && fresh(r.value.cache.clock) && |r.value.cache.slots| == capacity
    ensures r.Ok? ==>
              && dev.Holds(dev.Recs(), r.value.c) && r.value.tail == At(r.value.c)
              && At(r.value.c) == Scanner.PositionAt(v, dev.Recs(), |dev.Recs()|)
              && r.value.cache.Valid() && r.value.cache.pages == v.Pages() && r.value.cache.blocks == v.blocks
              && UpToDate(v, dev.Recs(), r.value.cache.view) && Dirty(r.value.cache.view) == {}
              && r.value.newly == Gain(v, old(dev.Recs()), c.desc.lsn, 0, v.Pages())
              && Tail(v, dev.Recs()) ==
                 old(Tail(v, dev.Recs()) + |TouchedPages(v, dev.Recs(), c.desc.lsn, |dev.Recs()|)|)
    ensures r == Err(Io) ==> dev.Faulted()
  {
    hide Device.Intact, Device.Paced, DiskInv, LiveIn, TouchedPages, Indexed, UpToDate, PageAt, Marked, Staged,
         Planned, Gain, Within, NextRoot, WellFormed;
    ghost var recs := dev.Recs();
    ghost var pages := TouchedPages(v, recs, c.desc.lsn, |recs|);
    dev.Facts();
    GenerationLeft(v, dev.image, recs, c);
    if c.desc.generation + 1 > MAX_U64 { return Err(InvalidData); }
    CheckpointBehind(v, dev.image, recs, c);
    if c.desc.lsn == |recs| { TouchedPagesStart(v, recs, |recs|); }
    NoSnaps(recs);
    var plan := Checkpoint(c.desc.(slot := Other(c.desc.slot), generation := c.desc.generation + 1,
                                   lsn := scan.end.lsn, boundary := scan.end.boundary), scan.plan);
    PlanReady(v, dev.image, recs, c, plan);
    var staged, cand, cache := StageWindows(v, dev, c, plan, scan.end, capacity, recs, pages);
    if staged.Err? { return Err(staged.error); }
    Beyond(pages, v.Pages());
    dev.Facts();
    BoundaryGrows(v, dev.Recs(), |recs|, |dev.Recs()|);
    BoundaryPrefix(v, recs, dev.Recs());
    StagedEnd(v, dev.image, dev.Recs(), cand);
    r := FinishWindows(v, dev, c, cand, cache, staged.value);
  }

  /** Sync and switch the root once nothing is left to stage. */
  method FinishWindows(v: Vol, dev: Device, c: Checkpoint, cand: Checkpoint, cache: Cache, newly: int)
    returns (r: Result<Recovered>)
    requires v.Ok() && dev.v == v && dev.Holds(dev.Recs(), c) && NextRoot(v, c, cand.desc)
    requires c.desc.boundary < cand.desc.boundary
    requires Staged(v, dev.image, dev.Recs(), cand, {})
    requires cache.Valid() && UpToDate(v, dev.Recs(), cache.view)
    modifies dev, dev.faults, cache
    ensures dev.Valid() && old(dev.trace) <= dev.trace && dev.Recs() == old(dev.Recs())
    ensures r.Err? ==> r.error == Io
    ensures cache.Valid() && |cache.slots| == old(|cache.slots|)
    ensures r.Ok? ==>
              && r.value.cache == cache && r.value.newly == newly && r.value.tail == At(r.value.c)
              && dev.Holds(dev.Recs(), r.value.c)
              && At(r.value.c) == Scanner.PositionAt(v, dev.Recs(), |dev.Recs()|)
              && UpToDate(v, dev.Recs(), cache.view) && Dirty(cache.view) == {}
    ensures r == Err(Io) ==> dev.Faulted()
  {
    hide Device.Intact, Device.Paced, DiskInv, Indexed, PageAt, StagedPage, Synced;
    var ok := dev.Sync();
    if !ok { return Err(Io); }
    var done, root := PersistRoot(v, dev, cand, c);
    if !done { return Err(Io); }
    cache.CheckpointPublished();
    r := Ok(Recovered(root, cache, At(root), newly));
  }

  lemma NothingCached(v: Vol, recs: seq<Rec>)
    ensures UpToDate(v, recs, map[])
  {
  }

  lemma NoGain(v: Vol, recs: seq<Rec>, a: nat)
    requires a <= |recs|
    ensures Gain(v, recs, a, 0, 0) == 0
  {
    assert LiveIn(v, recs, a, 0, 0, 0) == {} == LiveIn(v, recs, |recs|, 0, 0, 0);
  }

  lemma PlanReady(v: Vol, I: Image, recs: seq<Rec>, c: Checkpoint, d: Checkpoint)
    requires DiskInv(v, I, recs, c) && c.desc.generation < MAX_U64 && At(d) == Position(|recs|, Tail(v, recs))
    requires d.desc == c.desc.(slot := Other(c.desc.slot), generation := c.desc.generation + 1, lsn := d.desc.lsn,
                               boundary := d.desc.boundary)
    requires Marked(c, d.index, TouchedPages(v, recs, c.desc.lsn, |recs|))
    ensures |d.index| == v.Pages() && NextRoot(v, c, d.desc)
    ensures Within(TouchedPages(v, recs, c.desc.lsn, |recs|), 0, |d.index|) == TouchedPages(v, recs, c.desc.lsn, |recs|)
    ensures Staged(v, I, recs, d, TouchedPages(v, recs, c.desc.lsn, |recs|))
    ensures Planned(d.index, TouchedPages(v, recs, c.desc.lsn, |recs|))
  {
    PlanStaged(v, I, recs, c, d);
    NoMarkers(v, I, recs, c);
  }

  lemma LastWindow(v: Vol, recs: seq<Rec>, a: nat, plan: seq<nat>, pages: set<nat>, start: nat)
    requires a <= |recs| && pages == TouchedPages(v, recs, a, |recs|) && start <= |plan| == v.Pages()
    requires Planned(plan, Within(pages, start, |plan|)) && forall p :: start <= p < |plan| ==> plan[p] != 1
    ensures Within(pages, start, |plan|) == {}
    ensures Gain(v, recs, a, 0, v.Pages()) == Gain(v, recs, a, 0, start)
  {
    hide LiveIn;
    forall p: nat | start <= p < |plan| ensures p !in pages {
      assert plan[p] != 1;
      assert p !in Within(pages, start, |plan|);
    }
    GainStep(v, recs, a, start, v.Pages(), v.Pages());
    assert LiveIn(v, recs, a, 0, v.Pages(), v.Pages()) == {} by { NoneIn(v, recs, a, v.Pages()); }
    assert LiveIn(v, recs, |recs|, 0, v.Pages(), v.Pages()) == {} by { NoneIn(v, recs, |recs|, v.Pages()); }
  }

  lemma NoneIn(v: Vol, recs: seq<Rec>, i: nat, p: nat)
    requires i <= |recs|
    ensures LiveIn(v, recs, i, 0, p, p) == {}
  {
  }

  lemma GainIsLive(v: Vol, recs: seq<Rec>, more: seq<Rec>, a: nat)
    requires a <= |recs| && OnlySnaps(recs, more)
    ensures LiveCount(v, more) == |LiveIn(v, recs, a, 0, 0, v.Pages())| + Gain(v, recs, a, 0, v.Pages())
  {
    hide LiveIn;
    LiveSnaps(v, recs, more, 0, v.Pages());
  }

  lemma OneWindow(v: Vol, recs: seq<Rec>, c: Checkpoint, view: View, live: int)
    requires c.desc.lsn <= |recs| && Replayed(v, recs, |recs|, 0, v.Pages(), c, view, live)
    ensures UpToDate(v, recs, view) && Covered(v, recs, c, view) && live == LiveCount(v, recs)
    ensures Dirty(view) == TouchedPages(v, recs, c.desc.lsn, |recs|)
  {
    hide PageAt, PageMid, LiveIn;
    AtEnd(v, recs, c, view);
  }

  lemma NothingTouched(v: Vol, recs: seq<Rec>, c: Checkpoint)
    requires c.desc.lsn <= |recs| && TouchedPages(v, recs, c.desc.lsn, |recs|) == {}
    ensures UpToDate(v, recs, map[]) && Covered(v, recs, c, map[])
    ensures |LiveIn(v, recs, c.desc.lsn, 0, 0, v.Pages())| == LiveCount(v, recs)
  {
    hide PageAt, LiveIn;
    forall p: nat | p < v.Pages() ensures !Touched(recs, c.desc.lsn, |recs|, p) {
      assert p !in TouchedPages(v, recs, c.desc.lsn, |recs|);
    }
    forall p: nat | p < v.Pages()
      ensures PageAt(v, recs, c.desc.lsn, p) == PageAt(v, recs, |recs|, p)
    {
      UntouchedPage(v, recs, c.desc.lsn, |recs|, p);
    }
    LiveUntouched(v, recs, c.desc.lsn, |recs|, 0, v.Pages());
  }

  lemma WholeWindow(v: Vol, recs: seq<Rec>, a: nat)
    ensures Within(TouchedPages(v, recs, a, |recs|), 0, v.Pages()) == TouchedPages(v, recs, a, |recs|)
  {
  }

  /** The tail fits the cache: one pass, no publication. */
  method ReplayAll(v: Vol, dev: Device, c: Checkpoint, scan: Scan, capacity: nat) returns (r: Result<Recovered>)
    requires v.Ok() && dev.v == v && dev.Holds(dev.Recs(), c) && c.desc.lsn <= |dev.Recs()| && capacity >= 1
    requires scan.end == Scanner.PositionAt(v, dev.Recs(), |dev.Recs()|)
    requires scan.touched == |TouchedPages(v, dev.Recs(), c.desc.lsn, |dev.Recs()|)| <= capacity
    modifies dev.faults
    ensures r.Err? ==> r.error == Io
    ensures r.Ok? ==> fresh(r.value.cache) && fresh(r.value.cache.clock) && |r.value.cache.slots| == capacity
    ensures r.Ok? ==>
              && r.value.c == c && r.value.tail == scan.end
              && r.value.cache.Valid() && r.value.cache.pages == v.Pages() && r.value.cache.blocks == v.blocks
              && UpToDate(v, dev.Recs(), r.value.cache.view) && Covered(v, dev.Recs(), c, r.value.cache.view)
              && Dirty(r.value.cache.view) == TouchedPages(v, dev.Recs(), c.desc.lsn, |dev.Recs()|)
              && |LiveIn(v, dev.Recs(), c.desc.lsn, 0, 0, v.Pages())| + r.value.newly == LiveCount(v, dev.Recs())
    ensures r == Err(Io) ==> dev.Faulted()
  {
    hide Device.Intact, Device.Paced, DiskInv, LiveIn, TouchedPages, Indexed, UpToDate, Covered, Traced, PageAt,
         Within, LiveCount, Replayed, WellFormed, Dirty;
    ghost var recs := dev.Recs();
    var cache := new Cache(capacity, v.Pages(), v.blocks);
    var newly := 0;
    if scan.touched != 0 {
      WholeWindow(v, recs, c.desc.lsn);
      var replayed := ReplayWindow(v, dev, cache, c, scan.end, 0, v.Pages());
      if replayed.Err? { return Err(replayed.error); }
      newly := replayed.value;
      OneWindow(v, recs, c, cache.view, |LiveIn(v, recs, c.desc.lsn, 0, 0, v.Pages())| + newly);
    } else {
      NothingTouched(v, recs, c);
      assert Dirty(cache.view) == {} by { NoneDirty(); }
    }
    r := Ok(Recovered(c, cache, scan.end, newly));
  }

  /** The snapshots that replay may have to write fit behind the log. */
  ghost predicate SpaceForReplay(v: Vol, recs: seq<Rec>, c: Checkpoint) { Promised(v, recs, c) < v.backing }

  /** The recovered mapping is the replay of the whole log, whatever the cache capacity. */
  method Recover(v: Vol, dev: Device, c: Checkpoint, capacity: nat) returns (r: Result<Recovered>)
    requires v.Ok() && dev.v == v && dev.Holds(dev.Recs(), c) && c.desc.lsn <= |dev.Recs()| && capacity >= 1
    modifies dev, dev.faults
    ensures dev.Valid() && old(dev.trace) <= dev.trace && OnlySnaps(old(dev.Recs()), dev.Recs())
    ensures r == Err(NoSpace) ==> dev.trace == old(dev.trace)
    ensures r.Err? ==>
              (r.error == NoSpace && !SpaceForReplay(v, old(dev.Recs()), c)) || (r.error == Io && dev.Faulted())
    ensures r.Ok? ==> SpaceForReplay(v, old(dev.Recs()), c)
    ensures r.Ok? ==> Tail(v, dev.Recs()) + |Dirty(r.value.cache.view)| ==
                      old(Tail(v, dev.Recs()) + |TouchedPages(v, dev.Recs(), c.desc.lsn, |dev.Recs()|)|)
    ensures r.Ok? ==> fresh(r.value.cache) && fresh(r.value.cache.clock) && |r.value.cache.slots| == capacity
    ensures r.Ok? ==>
              && dev.Holds(dev.Recs(), r.value.c) && r.value.c.desc.lsn <= |dev.Recs()|
              && r.value.tail == Position(|dev.Recs()|, Tail(v, dev.Recs()))
              && r.value.cache.Valid() && r.value.cache.pages == v.Pages() && r.value.cache.blocks == v.blocks
              && UpToDate(v, dev.Recs(), r.value.cache.view) && Covered(v, dev.Recs(), r.value.c, r.value.cache.view)
              && Traced(v, dev.Recs(), r.value.c, r.value.cache.view)
              && Tail(v, dev.Recs()) + |Dirty(r.value.cache.view)| < v.backing
              && |LiveIn(v, old(dev.Recs()), c.desc.lsn, 0, 0, v.Pages())| + r.value.newly == LiveCount(v, dev.Recs())
    ensures r == Err(Io) ==> dev.Faulted()
  {
    hide Device.Intact, Device.Paced, DiskInv, LiveIn, TouchedPages, Indexed, UpToDate, PageAt, Marked, Gain,
         LiveCount, WellFormed, Dirty;
    ghost var recs := dev.Recs();
    dev.Facts();
    NoSnaps(recs);
    var scan := ScanTail(v, dev, c);
    if scan.Err? { return Err(scan.error); }
    var space := EnsureSpace(scan.value.end.boundary, v.backing, scan.value.touched);
    if space.Err? { return Err(space.error); }
    if scan.value.touched <= capacity {
      r := ReplayAll(v, dev, c, scan.value, capacity);
    } else {
      r := PublishWindows(v, dev, c, scan.value, capacity);
      dev.Facts();
      TouchedPagesStart(v, dev.Recs(), |dev.Recs()|);
      if r.Ok? { GainIsLive(v, recs, dev.Recs(), c.desc.lsn); }
    }
  }

  lemma NoneDirty()
    ensures Dirty(map[]) == {}
  {
  }
}
