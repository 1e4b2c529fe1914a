/** Counting mapped LBAs, page range by page range. */
module Live {
  import opened Blocks
  import opened Log

  ghost function LiveCount(v: Vol, recs: seq<Rec>): nat { |LiveIn(v, recs, |recs|, 0, 0, v.Pages())| }

  /** Applying payload `k` maps at most one new LBA: its own, if it was unmapped. */
  lemma LiveStep(v: Vol, recs: seq<Rec>, i: nat, k: nat, lo: nat, hi: nat)
    requires i < |recs| && recs[i].Data? && Distinct(recs[i].lbas) && k < |recs[i].lbas| && recs[i].lbas[k] < v.blocks
    ensures |LiveIn(v, recs, i, k + 1, lo, hi)| == |LiveIn(v, recs, i, k, lo, hi)| +
            if lo <= recs[i].lbas[k] / 336 < hi && Mid(v, recs, i, k, recs[i].lbas[k]) == NIL then 1 else 0
  {
    hide Mid;
    var lba := recs[i].lbas[k];
    var a, b := LiveIn(v, recs, i, k, lo, hi), LiveIn(v, recs, i, k + 1, lo, hi);
    forall x: nat ensures Mid(v, recs, i, k + 1, x) == if x == lba then Made(v, recs[i], k) else Mid(v, recs, i, k, x) {
      MidStep(v, recs, i, k, x);
    }
    if lo <= lba / 336 < hi { assert b == a + {lba}; } else { assert b == a; }
  }

  lemma LiveEnd(v: Vol, recs: seq<Rec>, i: nat, lo: nat, hi: nat)
    requires i < |recs| && recs[i].Data? && |recs[i].lbas| > 0
    ensures LiveIn(v, recs, i, |recs[i].lbas|, lo, hi) == LiveIn(v, recs, i + 1, 0, lo, hi)
  {
    hide Mid;
    forall x: nat ensures Mid(v, recs, i, |recs[i].lbas|, x) == Mid(v, recs, i + 1, 0, x) { MidEnd(v, recs, i, x); }
  }

  lemma LiveSnaps(v: Vol, recs: seq<Rec>, more: seq<Rec>, lo: nat, hi: nat)
    requires OnlySnaps(recs, more)
    ensures LiveIn(v, more, |more|, 0, lo, hi) == LiveIn(v, recs, |recs|, 0, lo, hi)
  {
    hide Ent;
    SnapsKeep(v, recs, more, |more|);
  }

  lemma LiveCountSnaps(v: Vol, recs: seq<Rec>, more: seq<Rec>)
    requires OnlySnaps(recs, more)
    ensures LiveCount(v, more) == LiveCount(v, recs)
  {
    LiveSnaps(v, recs, more, 0, v.Pages());
  }

  lemma LiveStable(v: Vol, recs: seq<Rec>, more: seq<Rec>, i: nat, lo: nat, hi: nat)
    requires i <= |recs| && recs <= more
    ensures LiveIn(v, more, i, 0, lo, hi) == LiveIn(v, recs, i, 0, lo, hi)
  {
    hide Ent;
    EntStable(v, recs, more, i);
  }

  lemma LiveSplit(v: Vol, recs: seq<Rec>, i: nat, lo: nat, mid: nat, hi: nat)
    requires i <= |recs| && lo <= mid <= hi
    ensures |LiveIn(v, recs, i, 0, lo, hi)| == |LiveIn(v, recs, i, 0, lo, mid)| + |LiveIn(v, recs, i, 0, mid, hi)|
  {
    hide Mid;
    assert LiveIn(v, recs, i, 0, lo, hi) == LiveIn(v, recs, i, 0, lo, mid) + LiveIn(v, recs, i, 0, mid, hi);
  }

  /** Untouched pages gain nothing. */
  lemma LiveUntouched(v: Vol, recs: seq<Rec>, a: nat, b: nat, lo: nat, hi: nat)
    requires a <= b <= |recs| && forall p: nat :: lo <= p < hi ==> !Touched(recs, a, b, p)
    ensures LiveIn(v, recs, a, 0, lo, hi) == LiveIn(v, recs, b, 0, lo, hi)
  {
    forall lba: nat | lo <= lba / 336 < hi ensures Mid(v, recs, a, 0, lba) == Mid(v, recs, b, 0, lba) {
      assert !Touched(recs, a, b, lba / 336);
      UntouchedLast(recs, a, b, lba);
    }
  }

  /** The addresses in use on one mapping page. */
  function Used(entries: seq<Entry>): nat {
    if entries == [] then 0
    else Used(entries[..|entries| - 1]) + if entries[|entries| - 1].physical != 0 then 1 else 0
  }

  ghost function LiveOn(v: Vol, recs: seq<Rec>, i: nat, p: nat, n: nat): set<nat>
    requires i <= |recs|
  {
    set lba | p * 336 <= lba < p * 336 + n && Ent(v, recs, i, lba) != NIL
  }

  lemma LiveOnStep(v: Vol, recs: seq<Rec>, i: nat, p: nat, n: nat)
    requires i <= |recs|
    ensures |LiveOn(v, recs, i, p, n + 1)| ==
            |LiveOn(v, recs, i, p, n)| + if Ent(v, recs, i, p * 336 + n) != NIL then 1 else 0
  {
    hide Ent;
    var a, b, x := LiveOn(v, recs, i, p, n), LiveOn(v, recs, i, p, n + 1), p * 336 + n;
    if Ent(v, recs, i, x) != NIL { assert b == a + {x}; } else { assert b == a; }
  }

  lemma {:induction false} UsedCounts(v: Vol, recs: seq<Rec>, i: nat, p: nat, n: nat)
    requires v.Ok() && WellFormed(v, recs) && i <= |recs| && n <= 336
    ensures Used(PageAt(v, recs, i, p)[..n]) == |LiveOn(v, recs, i, p, n)|
    decreases n
  {
    hide Ent, PageAt, WellFormed;
    var page := PageAt(v, recs, i, p);
    if n > 0 {
      UsedCounts(v, recs, i, p, n - 1);
      assert page[..n][..n - 1] == page[..n - 1];
      EntBound(v, recs, i, p * 336 + (n - 1));
      LiveOnStep(v, recs, i, p, n - 1);
    }
  }

  lemma UsedIsLive(v: Vol, recs: seq<Rec>, i: nat, p: nat)
    requires v.Ok() && WellFormed(v, recs) && i <= |recs|
    ensures Used(PageAt(v, recs, i, p)) == |LiveIn(v, recs, i, 0, p, p + 1)|
  {
    UsedCounts(v, recs, i, p, 336);
    var page := PageAt(v, recs, i, p);
    assert page[..336] == page;
    forall lba: nat ensures Ent(v, recs, i, lba) != NIL ==> lba < v.blocks { EntBound(v, recs, i, lba); }
    hide Ent;
    assert LiveOn(v, recs, i, p, 336) == LiveIn(v, recs, i, 0, p, p + 1);
  }
}
