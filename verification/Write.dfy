/** Appending data records and applying them to the mapping. */
module Write {
  import opened Blocks
  import opened Sets
  import opened Log
  import opened Live
  import opened Disk
  import opened Device
  import opened Cache
  import opened Publish
  import opened Mapping
  import opened Buffer

  ghost predicate PayloadsAt(I: Image, r: Rec, n: nat) {
    && r.Data? && n <= |r.lbas| == |r.payloads| && r.prev + r.Size() < |I|
    && forall k :: 0 <= k < n ==> I[r.prev + 1 + k] == Raw(r.payloads[k])
  }

  /** Payloads first, footer last: the record exists exactly when its footer is down. */
  method AppendRecord(v: Vol, dev: Device, lsn: nat, r: Rec, ghost c: Checkpoint) returns (ok: bool)
    requires v.Ok() && dev.v == v && dev.Holds(dev.Recs(), c) && lsn == |dev.Recs()| + 1
    requires r.Data? && RecOk(v, r) && r.prev == Tail(v, dev.Recs()) && r.prev + r.Size() < v.backing
    modifies dev, dev.faults
    ensures dev.Valid() && old(dev.trace) <= dev.trace
    ensures old(dev.Recs()) <= dev.Recs() <= old(dev.Recs()) + [r]
    ensures ok ==> dev.Holds(old(dev.Recs()) + [r], c)
    ensures !ok ==> dev.Faulted()
  {
    hide Device.Intact, Device.Paced, DiskInv, RecOk;
    ghost var recs := dev.Recs();
    dev.Facts();
    assert |r.payloads| == |r.lbas| by { RecSizes(v, r); }
    var k := 0;
    while k < |r.lbas|
      invariant k <= |r.lbas| && dev.Holds(recs, c) && old(dev.trace) <= dev.trace
      invariant |dev.image| == v.backing && PayloadsAt(dev.image, r, k)
    {
      ghost var I := dev.image;
      ok := dev.WriteRaw(r.prev + 1 + k, r.payloads[k]);
      if !ok { return; }
      k := k + 1;
    }
    var b := FooterRecord(v, lsn, r);
    FooterCompletes(v, dev.image, recs, r, b);
    ok := dev.WriteEnd(r.prev + r.Size(), b, r);
  }

  lemma RecSizes(v: Vol, r: Rec)
    requires r.Data? && RecOk(v, r)
    ensures 1 <= |r.lbas| == |r.payloads| && Distinct(r.lbas)
    ensures forall k :: 0 <= k < |r.lbas| ==> r.lbas[k] < v.blocks
  {
  }

  lemma FooterCompletes(v: Vol, I: Image, recs: seq<Rec>, r: Rec, b: Block)
    requires r.Data? && PayloadsAt(I, r, |r.lbas|)
    requires b == Record(Header(VERSION, DATA, v.id, |recs| + 1, r.prev, r.prev + r.Size()), Footer(r.lbas, Sums(v, r)))
    ensures RecAt(v, I[r.prev + r.Size() := b], recs + [r], |recs|)
  {
    var J := I[r.prev + r.Size() := b];
    assert (recs + [r])[|recs|] == r;
    forall k | 0 <= k < |r.lbas| ensures J[r.prev + 1 + k] == Raw(r.payloads[k]) {
      assert I[r.prev + 1 + k] == Raw(r.payloads[k]);
    }
  }

  /** The cache reflects the first `k` payloads of record `i`; `live` LBAs of the window are mapped. */
  ghost predicate Applied(v: Vol, recs: seq<Rec>, i: nat, k: nat, lo: nat, hi: nat, c: Checkpoint, view: View,
                          live: int)
    requires StageOk(recs, i, k) && c.desc.lsn <= |recs|
  {
    && CurrentAt(v, recs, i, k, lo, hi, view) && CoveredAt(v, recs, i, k, lo, hi, c, view)
    && live == |LiveIn(v, recs, i, k, lo, hi)|
  }

  lemma MidNil(v: Vol, recs: seq<Rec>, i: nat, k: nat, lba: nat)
    requires v.Ok() && WellFormed(v, recs) && StageOk(recs, i, k)
    ensures Mid(v, recs, i, k, lba).physical == 0 <==> Mid(v, recs, i, k, lba) == NIL
  {
    EntBound(v, recs, i, lba);
  }

  lemma PrefixPages(lbas: seq<nat>, k: nat)
    requires k < |lbas|
    ensures PagesOf(lbas[..k + 1]) == PagesOf(lbas[..k]) + {lbas[k] / 336}
  {
    assert lbas[..k + 1] == lbas[..k] + [lbas[k]];
    PagesOfSnoc(lbas[..k], lbas[k]);
  }

  /** One mapping update with its accounting. */
  method ApplyEntry(v: Vol, cache: Cache, c: Checkpoint, s: nat, lba: nat, e: Entry, live: int,
                    ghost recs: seq<Rec>, ghost i: nat, ghost k: nat, ghost lo: nat, ghost hi: nat, ghost base: int)
    returns (now: int)
    requires v.Ok() && cache.Valid() && cache.blocks == v.blocks && c.desc.lsn <= |recs| && WellFormed(v, recs)
    requires i < |recs| && recs[i].Data? && k < |recs[i].lbas| && lba == recs[i].lbas[k] && e == Made(v, recs[i], k)
    requires lo <= lba / 336 < hi && lba / 336 in cache.lookup && cache.lookup[lba / 336] == s
    requires Applied(v, recs, i, k, lo, hi, c, cache.view, base + live)
    modifies cache
    ensures cache.Valid() && |cache.slots| == old(|cache.slots|)
    ensures lba / 336 in cache.lookup && cache.lookup[lba / 336] == s
    ensures Applied(v, recs, i, k + 1, lo, hi, c, cache.view, base + now)
    ensures Dirty(cache.view) == old(Dirty(cache.view)) + {lba / 336}
  {
    hide CurrentAt, CoveredAt, LiveIn, Mid, Indexed, WellFormed, RecOk;
    assert Distinct(recs[i].lbas) && lba < v.blocks by { WellShaped(v, recs, i, k); }
    var unmapped := MapEntry(v, cache, c, s, lba, e, recs, i, k, lo, hi);
    MidNil(v, recs, i, k, lba);
    LiveStep(v, recs, i, k, lo, hi);
    now := live + if unmapped then 1 else 0;
  }

  lemma WellShaped(v: Vol, recs: seq<Rec>, i: nat, k: nat)
    requires WellFormed(v, recs) && i < |recs| && recs[i].Data? && k < |recs[i].lbas|
    ensures Distinct(recs[i].lbas) && recs[i].lbas[k] < v.blocks && recs[i].lbas[k] / 336 < v.Pages()
  {
    assert Linked(v, recs, i);
  }

  /** The payloads from `k` on that share the resident page in slot `s`. */
  method ApplyGroup(v: Vol, cache: Cache, c: Checkpoint, s: nat, r: Rec, sums: seq<nat>, start: nat, live: int,
                    ghost recs: seq<Rec>, ghost i: nat, ghost before: set<nat>)
    returns (k: nat, now: int)
    requires v.Ok() && cache.Valid() && cache.blocks == v.blocks && c.desc.lsn <= |recs| && WellFormed(v, recs)
    requires i < |recs| && recs[i] == r && r.Data? && start < |r.lbas| && sums == Sums(v, r)
    requires r.lbas[start] / 336 in cache.lookup && cache.lookup[r.lbas[start] / 336] == s
    requires Applied(v, recs, i, start, 0, v.Pages(), c, cache.view, live)
    requires Dirty(cache.view) == before + PagesOf(r.lbas[..start])
    modifies cache
    ensures cache.Valid() && |cache.slots| == old(|cache.slots|) && start < k <= |r.lbas|
    ensures Applied(v, recs, i, k, 0, v.Pages(), c, cache.view, now)
    ensures Dirty(cache.view) == before + PagesOf(r.lbas[..k])
  {
    hide Applied, Indexed, Sums, WellFormed, PagesOf, Dirty;
    k, now := start, live;
    var p := r.lbas[start] / 336;
    while k < |r.lbas| && r.lbas[k] / 336 == p
      invariant start <= k <= |r.lbas| && (k == start ==> r.lbas[k] / 336 == p)
      invariant cache.Valid() && |cache.slots| == old(|cache.slots|)
      invariant p in cache.lookup && cache.lookup[p] == s
      invariant Applied(v, recs, i, k, 0, v.Pages(), c, cache.view, now)
      invariant Dirty(cache.view) == before + PagesOf(r.lbas[..k])
    {
      assert p < v.Pages() by { WellShaped(v, recs, i, k); }
      now := ApplyEntry(v, cache, c, s, r.lbas[k], Entry(r.prev + 1 + k, sums[k]), now, recs, i, k, 0, v.Pages(), 0);
      PrefixPages(r.lbas, k);
      k := k + 1;
    }
  }

  /** Applies a whole record that is already in the log, page group by page group. No
      checkpoint is needed on the way, because all dirty pages together fit the cache. */
  method ApplyRecord(v: Vol, dev: Device, cache: Cache, c: Checkpoint, r: Rec, sums: seq<nat>, live: int,
                     ghost i: nat, ghost bound: set<nat>)
    returns (ok: bool, now: int)
    requires v.Ok() && dev.v == v && dev.Holds(dev.Recs(), c) && c.desc.lsn <= |dev.Recs()|
    requires cache.Valid() && cache.pages == v.Pages() && cache.blocks == v.blocks
    requires i < |dev.Recs()| && dev.Recs()[i] == r && r.Data? && sums == Sums(v, r)
    requires Applied(v, dev.Recs(), i, 0, 0, v.Pages(), c, cache.view, live)
    requires PagesOf(r.lbas) <= bound && Dirty(cache.view) <= bound && |bound| <= |cache.slots|
    modifies cache, cache.clock, dev.faults
    ensures cache.Valid() && |cache.slots| == old(|cache.slots|)
    ensures ok ==> Applied(v, dev.Recs(), i, |r.lbas|, 0, v.Pages(), c, cache.view, now)
    ensures ok ==> Dirty(cache.view) == old(Dirty(cache.view)) + PagesOf(r.lbas)
    ensures !ok ==> dev.Faulted()
  {
    hide Device.Intact, Device.Paced, CurrentAt, CoveredAt, LiveIn, Indexed, Sums, Dirty, DiskInv;
    dev.Facts();
    var k := 0;
    now := live;
    ghost var before := Dirty(cache.view);
    assert PagesOf(r.lbas[..0]) == {};
    while k < |r.lbas|
      invariant k <= |r.lbas| && cache.Valid() && |cache.slots| == old(|cache.slots|)
      invariant Applied(v, dev.Recs(), i, k, 0, v.Pages(), c, cache.view, now)
      invariant Dirty(cache.view) == before + PagesOf(r.lbas[..k])
    {
      ghost var p := r.lbas[k] / 336;
      assert p < v.Pages() by { WellShaped(v, dev.Recs(), i, k); }
      Fits(r.lbas, k, Dirty(cache.view), before, bound);
      var s := Occupy(v, dev, cache, c, r.lbas[k] / 336, i, k, 0, v.Pages());
      if s.Err? { return false, now; }
      k, now := ApplyGroup(v, cache, c, s.value, r, sums, k, now, dev.Recs(), i, before);
    }
    ok := true;
    assert r.lbas[..k] == r.lbas;
  }

  lemma Fits(lbas: seq<nat>, k: nat, dirty: set<nat>, before: set<nat>, bound: set<nat>)
    requires k < |lbas| && dirty == before + PagesOf(lbas[..k]) && before <= bound && PagesOf(lbas) <= bound
    ensures |dirty + {lbas[k] / 336}| <= |bound|
  {
    forall j | 0 <= j < k ensures lbas[..k][j] / 336 in PagesOf(lbas) { assert lbas[..k][j] == lbas[j]; }
    assert lbas[k] / 336 in PagesOf(lbas);
    Smaller(dirty + {lbas[k] / 336}, bound);
  }

  lemma TouchedPagesStep(v: Vol, recs: seq<Rec>, a: nat, i: nat)
    requires WellFormed(v, recs) && a <= i < |recs|
    ensures TouchedPages(v, recs, a, i + 1) ==
            TouchedPages(v, recs, a, i) + if recs[i].Data? then PagesOf(recs[i].lbas) else {}
  {
    hide Touched;
    forall p: nat
      ensures Touched(recs, a, i + 1, p) <==> Touched(recs, a, i, p) || (recs[i].Data? && p in PagesOf(recs[i].lbas))
    {
      TouchedStep(recs, a, i, p);
    }
    if recs[i].Data? {
      forall k | 0 <= k < |recs[i].lbas| ensures recs[i].lbas[k] / 336 < v.Pages() { WellShaped(v, recs, i, k); }
    }
  }
}
