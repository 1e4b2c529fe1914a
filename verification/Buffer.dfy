/** The write-back buffer: an arena of payloads addressed by LBA. */
module Buffer {
  import opened Blocks
  import opened Sorting

  /** The mapping pages that a list of LBAs falls into. */
  ghost function PagesOf(lbas: seq<nat>): set<nat> { set k | 0 <= k < |lbas| :: lbas[k] / 336 }

  lemma PagesOfSnoc(lbas: seq<nat>, lba: nat)
    ensures PagesOf(lbas + [lba]) == PagesOf(lbas) + {lba / 336}
  {
    var more := lbas + [lba];
    assert more[|lbas|] == lba;
    forall k | 0 <= k < |lbas| ensures lbas[k] / 336 in PagesOf(more) { assert more[k] == lbas[k]; }
  }

  lemma {:induction false} PagesOfSize(lbas: seq<nat>)
    ensures |PagesOf(lbas)| <= |lbas|
  {
    if lbas != [] {
      var n := |lbas| - 1;
      PagesOfSize(lbas[..n]);
      assert lbas == lbas[..n] + [lbas[n]];
      PagesOfSnoc(lbas[..n], lbas[n]);
    }
  }

  lemma PagesOfSame(a: seq<nat>, b: seq<nat>)
    requires forall x :: x in a <==> x in b
    ensures PagesOf(a) == PagesOf(b)
  {
    forall k | 0 <= k < |a| ensures a[k] / 336 in PagesOf(b) { assert a[k] in b; }
    forall k | 0 <= k < |b| ensures b[k] / 336 in PagesOf(a) { assert b[k] in a; }
  }

  lemma {:induction false} SmallSet(s: set<nat>, n: nat)
    requires forall x :: x in s ==> x < n
    ensures |s| <= n
    decreases n
  {
    if n > 0 {
      SmallSet(s - {n - 1}, n - 1);
      if n - 1 in s { assert |s| == |s - {n - 1}| + 1; } else { assert s - {n - 1} == s; }
    } else {
      assert s == {};
    }
  }

  ghost function Elements(s: seq<nat>): set<nat> { set x | x in s }

  lemma {:induction false} DistinctSize(s: seq<nat>)
    requires Distinct(s)
    ensures |Elements(s)| == |s|
  {
    if s == [] {
      assert Elements(s) == {};
    } else {
      var n := |s| - 1;
      DistinctSize(s[..n]);
      assert s[n] !in Elements(s[..n]);
      assert s == s[..n] + [s[n]];
      assert Elements(s) == Elements(s[..n]) + {s[n]};
    }
  }

  class WriteBackBuffer {
    var arena: seq<nat>
    var lbas: seq<nat>
    var slotOf: map<nat, nat>
    ghost var contents: map<nat, nat>

    ghost predicate Valid()
      reads this
    {
      && |lbas| <= |arena| && Distinct(lbas)
      && (forall l :: l in slotOf <==> l in lbas)
      && (forall l :: l in slotOf ==> slotOf[l] < |lbas|)
      && (forall l, m :: l in slotOf && m in slotOf && l != m ==> slotOf[l] != slotOf[m])
      && contents.Keys == slotOf.Keys
      && (forall l :: l in slotOf ==> contents[l] == arena[slotOf[l]])
    }

    constructor (capacity: nat)
      requires capacity > 0
      ensures Valid() && lbas == [] && |arena| == capacity && contents == map[]
    {
      arena := seq(capacity, _ => 0);
      lbas := [];
      slotOf := map[];
      contents := map[];
    }

    function Get(lba: nat): (r: Option<nat>)
      reads this
      requires Valid()
      ensures r == if lba in contents then Some(contents[lba]) else None
    {
      if lba in slotOf then Some(arena[slotOf[lba]]) else None
    }

    /** Overwrites in place, or takes a new slot; tells whether it did. */
    method Store(lba: nat, data: nat) returns (added: bool)
      requires Valid() && (lba in contents || |lbas| < |arena|)
      modifies this
      ensures Valid() && contents == old(contents)[lba := data] && |arena| == old(|arena|)
      ensures added == (lba !in old(contents))
      ensures lbas == if added then old(lbas) + [lba] else old(lbas)
    {
      if lba in slotOf {
        arena := arena[slotOf[lba] := data];
        added := false;
      } else {
        var slot := |lbas|;
        arena := arena[slot := data];
        lbas := lbas + [lba];
        slotOf := slotOf[lba := slot];
        added := true;
      }
      contents := contents[lba := data];
    }

    method Clear()
      modifies this
      ensures Valid() && lbas == [] && contents == map[] && |arena| == old(|arena|)
    {
      lbas := [];
      slotOf := map[];
      contents := map[];
    }

    /** Payloads stay in their slots. */
    method SortByLba()
      requires Valid()
      modifies this`lbas
      ensures Valid() && Increasing(lbas) && |lbas| == old(|lbas|)
      ensures forall l :: l in lbas <==> l in old(lbas)
    {
      lbas := Sort(lbas);
    }

    method Payloads(start: nat, end: nat) returns (r: seq<nat>)
      requires Valid() && start <= end <= |lbas|
      ensures |r| == end - start
      ensures forall k :: 0 <= k < |r| ==> lbas[start + k] in contents && r[k] == contents[lbas[start + k]]
    {
      r := [];
      while |r| < end - start
        invariant |r| <= end - start
        invariant forall k :: 0 <= k < |r| ==> lbas[start + k] in contents && r[k] == contents[lbas[start + k]]
      {
        r := r + [arena[slotOf[lbas[start + |r|]]]];
      }
    }
  }
}
