/** The append log as a sequence of records, and the mapping it denotes.

    The record with log sequence number `n` is `recs[n - 1]`; each record remembers the
    boundary it was appended after. The mapping of an LBA after the first `i` records is
    decided by the last data record that contains it.
 */
module Log {
  import opened Blocks

  datatype Rec = Data(prev: nat, lbas: seq<nat>, payloads: seq<nat>) | Snap(prev: nat, page: nat)
  {
    function Size(): nat { if Data? then |lbas| + 1 else 1 }
    function Lba(k: nat): nat { if Data? && k < |lbas| then lbas[k] else 0 }
    function Payload(k: nat): nat { if Data? && k < |payloads| then payloads[k] else 0 }
    predicate Has(lba: nat) { Data? && lba in lbas }
  }

  function Boundary(v: Vol, recs: seq<Rec>, i: nat): nat
    requires i <= |recs|
  {
    if i == 0 then v.LogStart() - 1 else recs[i - 1].prev + recs[i - 1].Size()
  }

  function Tail(v: Vol, recs: seq<Rec>): nat { Boundary(v, recs, |recs|) }

  ghost predicate RecOk(v: Vol, r: Rec) {
    match r
    case Data(_, lbas, payloads) =>
      && 1 <= |lbas| <= MAX_PAYLOADS && |payloads| == |lbas| && Distinct(lbas)
      && forall k :: 0 <= k < |lbas| ==> lbas[k] < v.blocks
    case Snap(_, page) => page < v.Pages()
  }

  ghost predicate Linked(v: Vol, recs: seq<Rec>, i: nat)
    requires i < |recs|
  {
    RecOk(v, recs[i]) && recs[i].prev == Boundary(v, recs, i)
  }

  ghost predicate WellFormed(v: Vol, recs: seq<Rec>) {
    && (forall i :: 0 <= i < |recs| ==> Linked(v, recs, i))
    && Tail(v, recs) < v.backing
  }

  // ---- what the log denotes ----

  /** The last of the first `i` records that holds a payload for `lba`, or -1. */
  ghost function Last(recs: seq<Rec>, i: nat, lba: nat): (r: int)
    requires i <= |recs|
    ensures -1 <= r < i
    ensures r >= 0 ==> recs[r].Has(lba)
  {
    if i == 0 then -1 else if recs[i - 1].Has(lba) then i - 1 else Last(recs, i - 1, lba)
  }

  ghost function Find(s: seq<nat>, x: nat): (k: nat)
    requires x in s
    ensures k < |s| && s[k] == x
  {
    var k :| 0 <= k < |s| && s[k] == x; k
  }

  /** The mapping entry made by payload `k` of data record `r`. */
  ghost function Made(v: Vol, r: Rec, k: nat): Entry {
    Entry(r.prev + 1 + k, v.sum(r.Lba(k), r.prev + 1 + k, r.Payload(k)))
  }

  ghost function Ent(v: Vol, recs: seq<Rec>, i: nat, lba: nat): Entry
    requires i <= |recs|
  {
    var j := Last(recs, i, lba);
    if j < 0 then NIL else Made(v, recs[j], Find(recs[j].lbas, lba))
  }

  /** The logical block: the newest payload of `lba` in the first `i` records, or zeros. */
  ghost function Content(recs: seq<Rec>, i: nat, lba: nat): nat
    requires i <= |recs|
  {
    var j := Last(recs, i, lba);
    if j < 0 then 0 else recs[j].Payload(Find(recs[j].lbas, lba))
  }

  ghost predicate StageOk(recs: seq<Rec>, i: nat, k: nat) {
    i <= |recs| && (k == 0 || (i < |recs| && recs[i].Data? && k <= |recs[i].lbas|))
  }

  /** The mapping while record `i` is being applied: its first `k` payloads are in. */
  ghost function Mid(v: Vol, recs: seq<Rec>, i: nat, k: nat, lba: nat): Entry
    requires StageOk(recs, i, k)
  {
    if k > 0 && lba in recs[i].lbas[..k]
    then Made(v, recs[i], Find(recs[i].lbas[..k], lba))
    else Ent(v, recs, i, lba)
  }

  ghost function PageMid(v: Vol, recs: seq<Rec>, i: nat, k: nat, p: nat): (r: seq<Entry>)
    requires StageOk(recs, i, k)
    ensures |r| == 336
    ensures forall e :: 0 <= e < 336 ==> r[e] == Mid(v, recs, i, k, p * 336 + e)
  {
    seq(336, e requires 0 <= e < 336 => Mid(v, recs, i, k, p * 336 + e))
  }

  ghost function PageAt(v: Vol, recs: seq<Rec>, i: nat, p: nat): (r: seq<Entry>)
    requires i <= |recs|
    ensures |r| == 336
    ensures forall e :: 0 <= e < 336 ==> r[e] == Ent(v, recs, i, p * 336 + e)
  {
    PageMid(v, recs, i, 0, p)
  }

  /** LBAs of pages `lo` up to `hi` that are mapped at a stage of the replay. */
  ghost function LiveIn(v: Vol, recs: seq<Rec>, i: nat, k: nat, lo: nat, hi: nat): set<nat>
    requires StageOk(recs, i, k)
  {
    set lba | 0 <= lba < v.blocks && lo <= lba / 336 < hi && Mid(v, recs, i, k, lba) != NIL
  }

  /** Page `p` holds an LBA that some record from `a` up to `b` wrote. */
  ghost predicate Touched(recs: seq<Rec>, a: nat, b: nat, p: nat)
    requires b <= |recs|
  {
    exists lba: nat :: lba / 336 == p && Last(recs, b, lba) >= a
  }

  // ---- facts ----

  lemma {:induction false} BoundaryGrows(v: Vol, recs: seq<Rec>, i: nat, j: nat)
    requires v.Ok() && WellFormed(v, recs) && i <= j <= |recs|
    ensures Boundary(v, recs, i) + (j - i) <= Boundary(v, recs, j)
    decreases j
  {
    if i < j { BoundaryGrows(v, recs, i, j - 1); assert Linked(v, recs, j - 1); }
  }

  lemma BoundaryPrefix(v: Vol, recs: seq<Rec>, more: seq<Rec>)
    requires recs <= more
    ensures Boundary(v, more, |recs|) == Tail(v, recs)
  {
  }

  lemma {:induction false} LastStable(recs: seq<Rec>, more: seq<Rec>, i: nat, lba: nat)
    requires i <= |recs| && recs <= more
    ensures Last(more, i, lba) == Last(recs, i, lba)
    decreases i
  {
    if i > 0 { LastStable(recs, more, i - 1, lba); }
  }

  lemma EntStable(v: Vol, recs: seq<Rec>, more: seq<Rec>, i: nat)
    requires i <= |recs| && recs <= more
    ensures forall lba: nat :: Ent(v, more, i, lba) == Ent(v, recs, i, lba)
    ensures forall lba: nat :: Content(more, i, lba) == Content(recs, i, lba)
    ensures forall lba: nat :: Last(more, i, lba) == Last(recs, i, lba)
  {
    forall lba: nat ensures Last(more, i, lba) == Last(recs, i, lba) { LastStable(recs, more, i, lba); }
  }

  lemma PageStable(v: Vol, recs: seq<Rec>, more: seq<Rec>, i: nat, p: nat)
    requires i <= |recs| && recs <= more
    ensures PageAt(v, more, i, p) == PageAt(v, recs, i, p)
  {
    EntStable(v, recs, more, i);
  }

  /** A snapshot record changes no mapping. */
  lemma SnapKeeps(v: Vol, recs: seq<Rec>, i: nat)
    requires i < |recs| && recs[i].Snap?
    ensures forall lba: nat :: Last(recs, i + 1, lba) == Last(recs, i, lba)
    ensures forall lba: nat :: Ent(v, recs, i + 1, lba) == Ent(v, recs, i, lba)
    ensures forall lba: nat :: Content(recs, i + 1, lba) == Content(recs, i, lba)
    ensures forall p: nat :: PageAt(v, recs, i + 1, p) == PageAt(v, recs, i, p)
  {
    forall lba: nat ensures Last(recs, i + 1, lba) == Last(recs, i, lba) {}
  }

  lemma FindUnique(s: seq<nat>, k: nat, n: nat)
    requires Distinct(s) && k < n <= |s|
    ensures Find(s[..n], s[k]) == k
  {
    var j := Find(s[..n], s[k]);
    assert s[j] == s[k];
  }

  /** Applying payload `k` changes exactly one entry of the mapping. */
  lemma MidStep(v: Vol, recs: seq<Rec>, i: nat, k: nat, lba: nat)
    requires i < |recs| && recs[i].Data? && Distinct(recs[i].lbas) && k < |recs[i].lbas|
    ensures Mid(v, recs, i, k + 1, lba) ==
            if lba == recs[i].lbas[k] then Made(v, recs[i], k) else Mid(v, recs, i, k, lba)
  {
    var s := recs[i].lbas;
    assert s[..k + 1] == s[..k] + [s[k]];
    if lba == s[k] {
      FindUnique(s, k, k + 1);
    } else if lba in s[..k] {
      var j := Find(s[..k], lba);
      FindUnique(s, j, k + 1);
    }
  }

  lemma PageStep(v: Vol, recs: seq<Rec>, i: nat, k: nat, p: nat)
    requires i < |recs| && recs[i].Data? && Distinct(recs[i].lbas) && k < |recs[i].lbas|
    ensures PageMid(v, recs, i, k + 1, p) ==
            if p == recs[i].lbas[k] / 336
            then PageMid(v, recs, i, k, p)[recs[i].lbas[k] % 336 := Made(v, recs[i], k)]
            else PageMid(v, recs, i, k, p)
  {
    var a, b := PageMid(v, recs, i, k, p), PageMid(v, recs, i, k + 1, p);
    var lba := recs[i].lbas[k];
    forall e | 0 <= e < 336
      ensures b[e] == if p * 336 + e == lba then Made(v, recs[i], k) else a[e]
    {
      MidStep(v, recs, i, k, p * 336 + e);
    }
    if p == lba / 336 {
      assert b == a[lba % 336 := Made(v, recs[i], k)];
    } else {
      assert b == a;
    }
  }

  /** With every payload applied, the stage is the next record's start. */
  lemma MidEnd(v: Vol, recs: seq<Rec>, i: nat, lba: nat)
    requires i < |recs| && recs[i].Data? && |recs[i].lbas| > 0
    ensures Mid(v, recs, i, |recs[i].lbas|, lba) == Mid(v, recs, i + 1, 0, lba)
  {
    var s := recs[i].lbas;
    assert s[..|s|] == s;
  }

  lemma PageEnd(v: Vol, recs: seq<Rec>, i: nat, p: nat)
    requires i < |recs| && recs[i].Data? && |recs[i].lbas| > 0
    ensures PageMid(v, recs, i, |recs[i].lbas|, p) == PageAt(v, recs, i + 1, p)
  {
    forall e | 0 <= e < 336
      ensures PageMid(v, recs, i, |recs[i].lbas|, p)[e] == PageAt(v, recs, i + 1, p)[e]
    {
      MidEnd(v, recs, i, p * 336 + e);
    }
  }

  lemma EntBound(v: Vol, recs: seq<Rec>, i: nat, lba: nat)
    requires v.Ok() && WellFormed(v, recs) && i <= |recs|
    ensures Ent(v, recs, i, lba) != NIL ==>
              v.LogStart() <= Ent(v, recs, i, lba).physical <= Boundary(v, recs, i) && lba < v.blocks
    ensures (Ent(v, recs, i, lba) == NIL) <==> Last(recs, i, lba) < 0
  {
    var j := Last(recs, i, lba);
    if j >= 0 {
      assert Linked(v, recs, j);
      BoundaryGrows(v, recs, 0, j);
      BoundaryGrows(v, recs, j + 1, i);
    }
  }

  lemma PageValid(v: Vol, recs: seq<Rec>, i: nat, p: nat, limit: nat)
    requires v.Ok() && WellFormed(v, recs) && i <= |recs| && Boundary(v, recs, i) < limit
    ensures EntriesOk(v, p, PageAt(v, recs, i, p), limit)
  {
    forall e | 0 <= e < 336 ensures EntryOk(v, p, e, PageAt(v, recs, i, p)[e], limit) {
      EntBound(v, recs, i, p * 336 + e);
    }
  }

  /** Pages no record in between touched have the same mapping at both ends. */
  lemma {:induction false} UntouchedLast(recs: seq<Rec>, a: nat, b: nat, lba: nat)
    requires a <= b <= |recs| && Last(recs, b, lba) < a
    ensures Last(recs, a, lba) == Last(recs, b, lba)
    decreases b
  {
    if a < b { UntouchedLast(recs, a, b - 1, lba); }
  }

  lemma UntouchedPage(v: Vol, recs: seq<Rec>, a: nat, b: nat, p: nat)
    requires a <= b <= |recs| && !Touched(recs, a, b, p)
    ensures PageAt(v, recs, a, p) == PageAt(v, recs, b, p)
  {
    forall e | 0 <= e < 336
      ensures PageAt(v, recs, a, p)[e] == PageAt(v, recs, b, p)[e]
    {
      var lba: nat := p * 336 + e;
      assert lba / 336 == p;
      UntouchedLast(recs, a, b, lba);
    }
  }

  /** `more` appends nothing but snapshots to `recs`. */
  ghost predicate OnlySnaps(recs: seq<Rec>, more: seq<Rec>) {
    recs <= more && forall i :: |recs| <= i < |more| ==> more[i].Snap?
  }

  lemma NoSnaps(recs: seq<Rec>)
    ensures OnlySnaps(recs, recs)
  {
  }

  /** Snapshots change neither the mapping nor the contents. */
  lemma {:induction false} SnapsKeep(v: Vol, recs: seq<Rec>, more: seq<Rec>, n: nat)
    requires OnlySnaps(recs, more) && |recs| <= n <= |more|
    ensures forall lba: nat :: Ent(v, more, n, lba) == Ent(v, recs, |recs|, lba)
    ensures forall lba: nat :: Content(more, n, lba) == Content(recs, |recs|, lba)
    ensures forall lba: nat :: Last(more, n, lba) == Last(recs, |recs|, lba)
    decreases n
  {
    if n == |recs| {
      EntStable(v, recs, more, n);
    } else {
      SnapsKeep(v, recs, more, n - 1);
      SnapKeeps(v, more, n - 1);
    }
  }

  lemma SnapsKeepPage(v: Vol, recs: seq<Rec>, more: seq<Rec>, p: nat)
    requires OnlySnaps(recs, more)
    ensures PageAt(v, more, |more|, p) == PageAt(v, recs, |recs|, p)
  {
    SnapsKeep(v, recs, more, |more|);
  }

  /** One more record touches exactly the pages of its LBAs. */
  lemma TouchedStep(recs: seq<Rec>, a: nat, i: nat, p: nat)
    requires a <= i < |recs|
    ensures Touched(recs, a, i + 1, p) <==>
            || Touched(recs, a, i, p)
            || (recs[i].Data? && exists k :: 0 <= k < |recs[i].lbas| && recs[i].lbas[k] / 336 == p)
  {
    if Touched(recs, a, i + 1, p) {
      var lba: nat :| lba / 336 == p && Last(recs, i + 1, lba) >= a;
      if recs[i].Has(lba) {
        var k := Find(recs[i].lbas, lba);
        assert recs[i].lbas[k] / 336 == p;
      } else {
        assert Last(recs, i, lba) >= a;
      }
    }
    if Touched(recs, a, i, p) {
      var lba: nat :| lba / 336 == p && Last(recs, i, lba) >= a;
      assert Last(recs, i + 1, lba) >= a;
    }
    if recs[i].Data? && exists k :: 0 <= k < |recs[i].lbas| && recs[i].lbas[k] / 336 == p {
      var k :| 0 <= k < |recs[i].lbas| && recs[i].lbas[k] / 336 == p;
      assert Last(recs, i + 1, recs[i].lbas[k]) == i;
    }
  }

  lemma TouchedNone(recs: seq<Rec>, a: nat, p: nat)
    requires a <= |recs|
    ensures !Touched(recs, a, a, p)
  {
  }

  lemma {:induction false} LastGrows(recs: seq<Rec>, i: nat, j: nat, lba: nat)
    requires i <= j <= |recs|
    ensures Last(recs, i, lba) <= Last(recs, j, lba)
    decreases j
  {
    if i < j { LastGrows(recs, i, j - 1, lba); }
  }

  lemma TouchedGrows(recs: seq<Rec>, a: nat, i: nat, j: nat, p: nat)
    requires i <= j <= |recs| && Touched(recs, a, i, p)
    ensures Touched(recs, a, j, p)
  {
    var lba: nat :| lba / 336 == p && Last(recs, i, lba) >= a;
    LastGrows(recs, i, j, lba);
  }

  /** The pages below `v.Pages()` that the tail from `a` up to `i` touches. */
  ghost function TouchedPages(v: Vol, recs: seq<Rec>, a: nat, i: nat): set<nat>
    requires i <= |recs|
  {
    set p | 0 <= p < v.Pages() && Touched(recs, a, i, p)
  }

  lemma TouchedPagesStart(v: Vol, recs: seq<Rec>, a: nat)
    requires a <= |recs|
    ensures TouchedPages(v, recs, a, a) == {}
  {
    forall p: nat ensures !Touched(recs, a, a, p) { TouchedNone(recs, a, p); }
  }

  lemma TouchedStable(v: Vol, recs: seq<Rec>, more: seq<Rec>, a: nat, n: nat)
    requires n <= |recs| && recs <= more
    ensures TouchedPages(v, more, a, n) == TouchedPages(v, recs, a, n)
  {
    hide Last;
    EntStable(v, recs, more, n);
    assert forall p: nat :: Touched(more, a, n, p) <==> Touched(recs, a, n, p);
  }
}
