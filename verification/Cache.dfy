/** The bounded mapping cache: fixed slots, a page lookup and CLOCK replacement.

    `view` is what the cache means: the resident pages, their entries and whether each is
    dirty. Slots, lookup and clock are how it is kept.
 */
module Cache {
  import opened Blocks
  import opened Sorting
  import opened Sets
  import Clock

  datatype Slot = Slot(entries: seq<Entry>, page: nat, dirty: bool, prefetched: bool)
  datatype Cached = Cached(entries: seq<Entry>, dirty: bool)
  datatype Acquisition = Resident(slot: nat) | Vacant(slot: nat) | CheckpointRequired

  type View = map<nat, Cached>

  ghost function Dirty(view: View): set<nat> { set p | p in view && view[p].dirty }

  ghost predicate Indexed(slots: seq<Slot>, lookup: map<nat, nat>, resident: nat, view: View) {
    && resident <= |slots|
    && (forall p :: p in lookup ==> lookup[p] < resident && slots[lookup[p]].page == p)
    && (forall s :: 0 <= s < resident ==> slots[s].page in lookup && lookup[slots[s].page] == s)
    && (forall s :: resident <= s < |slots| ==> !slots[s].dirty)
    && view.Keys == lookup.Keys
    && (forall p :: p in lookup ==> view[p] == Cached(slots[lookup[p]].entries, slots[lookup[p]].dirty))
  }

  /** `MappingEntries::validate` for a page of a volume of `blocks` blocks. */
  predicate Installable(blocks: nat, p: nat, entries: seq<Entry>) {
    && |entries| == ENTRIES
    && forall k :: 0 <= k < ENTRIES ==>
         && (entries[k].physical == 0 ==> entries[k].checksum == 0)
         && (p * 336 + k >= blocks ==> entries[k] == NIL)
  }

  /** The pages of the dirty slots among the first `n`. */
  ghost function DirtyIn(slots: seq<Slot>, n: nat): set<nat>
    requires n <= |slots|
  {
    set s | 0 <= s < n && slots[s].dirty :: slots[s].page
  }

  lemma DirtyInView(slots: seq<Slot>, lookup: map<nat, nat>, resident: nat, view: View)
    requires Indexed(slots, lookup, resident, view)
    ensures DirtyIn(slots, resident) == Dirty(view)
  {
    forall p | p in Dirty(view) ensures p in DirtyIn(slots, resident) {
      var s := lookup[p];
      assert slots[s].dirty && slots[s].page == p;
    }
  }

  /** Distinct pages: counting dirty slots counts dirty pages. */
  lemma DirtyStep(slots: seq<Slot>, lookup: map<nat, nat>, resident: nat, view: View, n: nat)
    requires Indexed(slots, lookup, resident, view) && n < resident
    ensures slots[n].dirty ==> slots[n].page !in DirtyIn(slots, n)
    ensures DirtyIn(slots, n + 1) == DirtyIn(slots, n) + if slots[n].dirty then {slots[n].page} else {}
  {
    if slots[n].page in DirtyIn(slots, n) {
      var s :| 0 <= s < n && slots[s].dirty && slots[s].page == slots[n].page;
      assert lookup[slots[s].page] == s;
    }
  }

  lemma {:induction false} AllDirty(slots: seq<Slot>, lookup: map<nat, nat>, resident: nat, view: View, n: nat)
    requires Indexed(slots, lookup, resident, view) && n <= resident
    requires forall s :: 0 <= s < n ==> slots[s].dirty
    ensures |DirtyIn(slots, n)| == n
    decreases n
  {
    if n > 0 {
      AllDirty(slots, lookup, resident, view, n - 1);
      DirtyStep(slots, lookup, resident, view, n - 1);
    } else {
      assert DirtyIn(slots, 0) == {};
    }
  }

  /** `ids` lists the elements of `pages`, each once. */
  ghost predicate Lists(ids: seq<nat>, pages: set<nat>) {
    Distinct(ids) && |ids| == |pages| && forall p :: p in ids <==> p in pages
  }

  lemma ListsSnoc(ids: seq<nat>, pages: set<nat>, p: nat)
    requires Lists(ids, pages) && p !in pages
    ensures Lists(ids + [p], pages + {p})
  {
    assert forall q :: q in ids + [p] <==> q in ids || q == p;
  }

  method SortListed(found: seq<nat>, ghost pages: set<nat>) returns (ids: seq<nat>)
    requires Lists(found, pages)
    ensures Increasing(ids) && |ids| == |pages| && forall p :: p in ids <==> p in pages
  {
    ids := Sort(found);
  }

  lemma ListsNone(slots: seq<Slot>)
    ensures Lists([], DirtyIn(slots, 0))
  {
    assert DirtyIn(slots, 0) == {};
  }

  // ---- the four ways the slots change ----

  lemma FreshSlot(slots: seq<Slot>, lookup: map<nat, nat>, resident: nat, view: View, p: nat, entries: seq<Entry>)
    requires Indexed(slots, lookup, resident, view) && resident < |slots| && p !in lookup
    ensures Indexed(slots[resident := Slot(entries, p, false, false)], lookup[p := resident], resident + 1,
                    view[p := Cached(entries, false)])
  {
  }

  lemma EvictSlot(slots: seq<Slot>, lookup: map<nat, nat>, resident: nat, view: View, s: nat, p: nat,
                  entries: seq<Entry>)
    requires Indexed(slots, lookup, resident, view) && s < resident && p !in lookup
    ensures Indexed(slots[s := Slot(entries, p, false, false)], (lookup - {slots[s].page})[p := s], resident,
                    (view - {slots[s].page})[p := Cached(entries, false)])
  {
  }

  lemma SlotPage(slots: seq<Slot>, lookup: map<nat, nat>, resident: nat, view: View, s: nat)
    requires Indexed(slots, lookup, resident, view) && s < resident
    ensures slots[s].page in view && view[slots[s].page].dirty == slots[s].dirty
  {
  }

  lemma FlagSlot(slots: seq<Slot>, lookup: map<nat, nat>, resident: nat, view: View, s: nat, flag: bool)
    requires Indexed(slots, lookup, resident, view) && s < resident
    ensures Indexed(slots[s := slots[s].(prefetched := flag)], lookup, resident, view)
  {
  }

  lemma UpdateSlot(slots: seq<Slot>, lookup: map<nat, nat>, resident: nat, view: View, s: nat, entries: seq<Entry>)
    requires Indexed(slots, lookup, resident, view) && s < resident
    ensures Indexed(slots[s := slots[s].(entries := entries, dirty := true)], lookup, resident,
                    view[slots[s].page := Cached(entries, true)])
  {
  }

  ghost function Cleaned(view: View): View { map p | p in view :: Cached(view[p].entries, false) }

  /** The slots once the first `n` of them are marked clean. */
  ghost function Swept(slots: seq<Slot>, n: nat): (r: seq<Slot>)
    ensures |r| == |slots|
  {
    seq(|slots|, s requires 0 <= s < |slots| => if s < n then slots[s].(dirty := false) else slots[s])
  }

  lemma SweptStep(slots: seq<Slot>, n: nat)
    requires n < |slots|
    ensures Swept(slots, 0) == slots
    ensures Swept(slots, n + 1) == Swept(slots, n)[n := Swept(slots, n)[n].(dirty := false)]
  {
  }

  lemma CleanSlots(slots: seq<Slot>, lookup: map<nat, nat>, resident: nat, view: View)
    requires Indexed(slots, lookup, resident, view)
    ensures Indexed(Swept(slots, resident), lookup, resident, Cleaned(view))
    ensures Dirty(Cleaned(view)) == {}
  {
  }

  class Cache {
    const pages: nat
    const blocks: nat
    const clock: Clock.Clock
    var slots: seq<Slot>
    var lookup: map<nat, nat>
    var resident: nat
    ghost var view: View

    ghost predicate Valid()
      reads this, clock
    {
      clock.Valid() && clock.capacity == |slots| && Indexed(slots, lookup, resident, view)
    }

    /** Slot `s` may take page `p`: it is the next unused one, or holds a clean page. */
    ghost predicate Replaceable(s: nat, p: nat)
      reads this
    {
      p !in lookup && s < |slots| && resident <= |slots| && s <= resident && !slots[s].dirty
    }

    ghost predicate Full()
      reads this
    {
      resident == |slots| && forall s :: 0 <= s < |slots| ==> slots[s].dirty
    }

    constructor (capacity: nat, pages: nat, blocks: nat)
      requires capacity > 0
      ensures Valid() && fresh(clock) && view == map[] && |slots| == capacity
      ensures this.pages == pages && this.blocks == blocks
    {
      this.pages := pages;
      this.blocks := blocks;
      clock := new Clock.Clock(capacity);
      slots := seq(capacity, _ => Slot(EmptyPage(), 0, false, false));
      lookup := map[];
      resident := 0;
      view := map[];
    }

    lemma FullCount()
      requires Valid() && Full()
      ensures |Dirty(view)| == |slots|
    {
      AllDirty(slots, lookup, resident, view, resident);
      DirtyInView(slots, lookup, resident, view);
    }

    method DirtyCount() returns (n: nat)
      requires Valid()
      ensures n == |Dirty(view)|
    {
      n := 0;
      var s := 0;
      assert DirtyIn(slots, 0) == {};
      while s < resident
        invariant s <= resident <= |slots| && n == |DirtyIn(slots, s)|
      {
        DirtyStep(slots, lookup, resident, view, s);
        if slots[s].dirty { n := n + 1; }
        s := s + 1;
      }
      DirtyInView(slots, lookup, resident, view);
    }

    /** The dirty pages with their entries, in ascending page order, each once. */
    method SortedDirty() returns (ids: seq<nat>, pages: seq<seq<Entry>>)
      requires Valid()
      ensures Increasing(ids) && |ids| == |Dirty(view)| && forall p :: p in ids <==> p in Dirty(view)
      ensures |pages| == |ids| && forall k :: 0 <= k < |ids| ==> ids[k] in view && pages[k] == view[ids[k]].entries
    {
      ids := DirtyIds();
      assert forall k :: 0 <= k < |ids| ==> ids[k] in Dirty(view);
      pages := seq(|ids|, k requires 0 <= k < |ids| && Valid() && ids[k] in Dirty(view) reads this, clock =>
                           slots[lookup[ids[k]]].entries);
    }

    method DirtyIds() returns (ids: seq<nat>)
      requires Valid()
      ensures Increasing(ids) && |ids| == |Dirty(view)| && forall p :: p in ids <==> p in Dirty(view)
    {
      DirtyInView(slots, lookup, resident, view);
      assert resident <= |slots|;
      hide Indexed, DirtyIn, Dirty, Sort, Distinct, Increasing;
      var found := [];
      var s := 0;
      assert Lists([], DirtyIn(slots, 0)) by { ListsNone(slots); }
      while s < resident
        invariant s <= resident <= |slots| && Lists(found, DirtyIn(slots, s))
      {
        DirtyStep(slots, lookup, resident, view, s);
        if slots[s].dirty {
          ListsSnoc(found, DirtyIn(slots, s), slots[s].page);
          found := found + [slots[s].page];
        } else {
          assert DirtyIn(slots, s) + {} == DirtyIn(slots, s);
        }
        s := s + 1;
      }
      ids := SortListed(found, DirtyIn(slots, resident));
    }

    method Resolve(p: nat) returns (r: Acquisition)
      requires Valid()
      modifies this, clock
      ensures Valid() && view == old(view) && |slots| == old(|slots|)
      ensures r.Resident? <==> p in view
      ensures r.Resident? ==> p in lookup && r.slot == lookup[p]
      ensures r.Vacant? ==> Replaceable(r.slot, p)
      ensures r.CheckpointRequired? <==> p !in view && Full()
    {
      if p in lookup {
        var s := lookup[p];
        FlagSlot(slots, lookup, resident, view, s, false);
        slots := slots[s := slots[s].(prefetched := false)];
        clock.Set(s, true);
        r := Resident(s);
      } else if resident < |slots| {
        r := Vacant(resident);
      } else {
        var now := slots;
        var clean := (s: nat) => s < |now| && !now[s].dirty;
        var victim, _ := clock.Victim(clean);
        assert forall s :: 0 <= s < |slots| ==> clean(s) == !slots[s].dirty;
        r := if victim.Some? then Vacant(victim.value) else CheckpointRequired;
      }
    }

    /** `acquire`: a page number outside the volume is an error. */
    method Acquire(p: nat) returns (r: Result<Acquisition>)
      requires Valid()
      modifies this, clock
      ensures Valid() && view == old(view) && |slots| == old(|slots|)
      ensures r.Ok? <==> p < pages
      ensures r.Ok? ==> (r.value.Resident? <==> p in view)
      ensures r.Ok? && r.value.Resident? ==> p in lookup && r.value.slot == lookup[p]
      ensures r.Ok? && r.value.Vacant? ==> Replaceable(r.value.slot, p)
      ensures r.Ok? ==> (r.value.CheckpointRequired? <==> p !in view && Full())
    {
      if p >= pages { return Err(CacheFault); }
      var a := Resolve(p);
      r := Ok(a);
    }

    /** Puts page `p` into a replaceable slot. Only a clean page can be pushed out. */
    method Install(s: nat, p: nat, entries: seq<Entry>) returns (ok: bool, ghost gone: set<nat>)
      requires Valid() && Replaceable(s, p)
      modifies this, clock
      ensures Valid() && |slots| == old(|slots|)
      ensures ok == Installable(blocks, p, entries)
      ensures !ok ==> view == old(view)
      ensures ok ==> view == (old(view) - gone)[p := Cached(entries, false)] && p in lookup && lookup[p] == s
      ensures gone <= old(view).Keys - Dirty(old(view))
    {
      hide Installable, Indexed;
      ok := Installable(blocks, p, entries);
      gone := {};
      if !ok { return; }
      if s < resident {
        SlotPage(slots, lookup, resident, view, s);
        EvictSlot(slots, lookup, resident, view, s, p, entries);
        var q := slots[s].page;
        gone := {q};
        lookup := lookup - {q};
        view := view - {q};
        clock.Set(s, false);
      } else {
        FreshSlot(slots, lookup, resident, view, p, entries);
        resident := resident + 1;
        assert view - {} == view;
      }
      lookup := lookup[p := s];
      slots := slots[s := Slot(entries, p, false, false)];
      view := view[p := Cached(entries, false)];
      clock.Set(s, true);
    }

    method Update(s: nat, k: nat, e: Entry) returns (ok: bool)
      requires Valid() && s < resident && k < 336 && |slots[s].entries| == 336
      modifies this`slots, this`view
      ensures Valid() && |slots| == old(|slots|)
      ensures ok == (old(slots[s].page) * 336 + k < blocks && (e.physical == 0 ==> e.checksum == 0))
      ensures ok ==> slots[s].page == old(slots[s].page)
                     && view == old(view)[slots[s].page := Cached(old(slots[s].entries)[k := e], true)]
      ensures !ok ==> view == old(view) && slots == old(slots)
    {
      ok := slots[s].page * 336 + k < blocks && (e.physical == 0 ==> e.checksum == 0);
      if ok {
        UpdateSlot(slots, lookup, resident, view, s, slots[s].entries[k := e]);
        view := view[slots[s].page := Cached(slots[s].entries[k := e], true)];
        slots := slots[s := slots[s].(entries := slots[s].entries[k := e], dirty := true)];
      }
    }

    /** Every page became clean: its snapshot is in the published index. */
    method CheckpointPublished()
      requires Valid()
      modifies this`slots, this`view
      ensures Valid() && view == Cleaned(old(view)) && |slots| == old(|slots|) && Dirty(view) == {}
    {
      hide Indexed, Dirty, Cleaned, Swept, Clock.Clock.Valid;
      ghost var was := slots;
      Sweep();
      CleanSlots(was, lookup, resident, view);
      view := Cleaned(view);
    }

    /** Marks every slot in use clean. */
    method Sweep()
      requires Valid()
      modifies this`slots
      ensures slots == Swept(old(slots), resident)
    {
      assert resident <= |slots| && Swept(slots, 0) == slots;
      hide Indexed, Swept, Clock.Clock.Valid;
      ghost var was := slots;
      var s := 0;
      while s < resident
        invariant s <= resident && slots == Swept(was, s)
      {
        SweptStep(was, s);
        slots := slots[s := slots[s].(dirty := false)];
        s := s + 1;
      }
    }

    /** Speculation may use slot `s`: unreferenced, clean, and within the hand's next 32 slots. */
    ghost predicate IsCold(s: nat)
      reads this, clock
      requires Valid() && s < |slots|
    {
      Clock.Distance(clock.cursor, clock.capacity, s) < 32 && !Clock.Bit(clock.referenced, s) && !slots[s].dirty
    }

    ghost predicate NoneCold()
      reads this, clock
      requires Valid()
    {
      forall s :: 0 <= s < |slots| ==> !IsCold(s)
    }

    /** The first cold slot without a dirty page. */
    method ColdSlot() returns (r: Option<nat>)
      requires Valid()
      ensures r.Some? ==> r.value < |slots| && IsCold(r.value)
      ensures r.None? <==> NoneCold()
    {
      hide Clock.Bit;
      var cold := clock.Cold(0);
      var k := 0;
      while k < |cold|
        invariant k <= |cold| && forall j :: 0 <= j < k ==> slots[cold[j]].dirty
      {
        assert cold[k] in cold;
        if !slots[cold[k]].dirty {
          assert IsCold(cold[k]);
          return Some(cold[k]);
        }
        k := k + 1;
      }
      r := None;
    }

    /** Speculative admission: never replaces a resident page's entries or pushes out a dirty page. */
    method Prefetch(p: nat, entries: seq<Entry>) returns (r: Result<bool>, ghost gone: set<nat>)
      requires Valid()
      modifies this, clock
      ensures Valid() && |slots| == old(|slots|)
      ensures r == Ok(true) ==>
                && Installable(blocks, p, entries) && p < pages && p !in old(view)
                && view == (old(view) - gone)[p := Cached(entries, false)]
      ensures r != Ok(true) ==> view == old(view)
      ensures r == Ok(false) <==>
                p < pages && (p in old(view) || (old(resident) == |slots| && old(NoneCold())))
      ensures r.Err? ==> p >= pages || !Installable(blocks, p, entries)
      ensures gone <= old(view).Keys - Dirty(old(view))
    {
      hide Installable, NoneCold, Clock.Bit;
      gone := {};
      if p >= pages { return Err(CacheFault), gone; }
      if p in lookup { return Ok(false), gone; }
      var s := resident;
      if resident == |slots| {
        var cold := ColdSlot();
        if cold.None? { return Ok(false), gone; }
        s := cold.value;
        clock.AdvancePast(s);
      }
      var ok, pushed := Install(s, p, entries);
      gone := pushed;
      if !ok { return Err(CacheFault), gone; }
      FlagSlot(slots, lookup, resident, view, s, true);
      slots := slots[s := slots[s].(prefetched := true)];
      clock.Set(s, false);
      r := Ok(true);
    }

    /** The clean resident slots that speculation may take besides `s`. */
    ghost function ColdClean(s: nat): set<nat>
      reads this, clock
      requires Valid()
    {
      set q | 0 <= q < resident && q < |slots| && q != s && IsCold(q)
    }

    /** Pages a prefetch could admit once slot `s` is taken. */
    ghost function Room(s: nat, maximum: nat): nat
      reads this, clock
      requires Valid() && maximum > 0
    {
      var unused := |slots| - resident;
      var cold := |ColdClean(s)|;
      assert resident <= |slots|;
      (if s == resident && unused > 0 then unused - 1 else unused) + if cold < maximum - 1 then cold else maximum - 1
    }

    /** Counts the cold clean slots besides `s`, up to a limit. */
    method CountCold(s: nat, most: nat) returns (taken: nat)
      requires Valid()
      ensures taken == if |ColdClean(s)| < most then |ColdClean(s)| else most
    {
      hide Indexed, Clock.Bit, Taken, ColdClean, Clock.Distance;
      var cold := clock.Cold(0);
      TakenAll(cold, 0, s);
      taken := 0;
      var k := 0;
      NoneTaken(cold, s);
      while k < |cold| && taken < most
        invariant k <= |cold| && taken == |Taken(cold, k, s)| <= most
      {
        TakenStep(cold, k, s);
        if cold[k] < resident && cold[k] != s && !slots[cold[k]].dirty { taken := taken + 1; }
        k := k + 1;
      }
      TakenAll(cold, k, s);
    }

    /** Counts that room: unused slots, and up to `maximum - 1` cold clean ones. */
    method Available(s: nat, maximum: nat) returns (n: nat)
      requires Valid() && s < |slots| && maximum > 0
      ensures n == Room(s, maximum)
    {
      assert resident <= |slots|;
      hide Indexed, ColdClean;
      var taken := CountCold(s, maximum - 1);
      var unused := |slots| - resident;
      n := (if s == resident && unused > 0 then unused - 1 else unused) + taken;
    }

    ghost predicate Takeable(q: nat, s: nat)
      reads this
    {
      q < resident && q < |slots| && q != s && !slots[q].dirty
    }

    /** The slots among the first `k` of a list that speculation may take besides `s`. */
    ghost function Taken(cold: seq<nat>, k: nat, s: nat): set<nat>
      reads this
      requires k <= |cold|
    {
      if k == 0 then {} else Taken(cold, k - 1, s) + if Takeable(cold[k - 1], s) then {cold[k - 1]} else {}
    }

    lemma NoneTaken(cold: seq<nat>, s: nat)
      ensures Taken(cold, 0, s) == {}
    {
    }

    lemma {:induction false} TakenIn(cold: seq<nat>, k: nat, s: nat)
      requires k <= |cold|
      ensures forall q :: q in Taken(cold, k, s) <==> Takeable(q, s) && q in cold[..k]
    {
      if k > 0 {
        TakenIn(cold, k - 1, s);
        assert cold[..k] == cold[..k - 1] + [cold[k - 1]];
      }
    }

    lemma TakenStep(cold: seq<nat>, k: nat, s: nat)
      requires k < |cold| && Distinct(cold)
      ensures |Taken(cold, k + 1, s)| == |Taken(cold, k, s)| + if Takeable(cold[k], s) then 1 else 0
    {
      TakenIn(cold, k, s);
      assert cold[k] !in cold[..k];
    }

    /** What was counted is all of the cold clean slots, or as many as could be used. */
    lemma TakenAll(cold: seq<nat>, k: nat, s: nat)
      requires Valid() && cold == clock.Cold(0) && k <= |cold|
      ensures |Taken(cold, k, s)| <= |ColdClean(s)|
      ensures k == |cold| ==> Taken(cold, k, s) == ColdClean(s)
    {
      hide Indexed, Clock.Bit, Taken;
      TakenIn(cold, k, s);
      forall q | q in Taken(cold, k, s) ensures q in ColdClean(s) { assert q in cold; }
      if k == |cold| {
        assert cold[..k] == cold;
        forall q | q in ColdClean(s) ensures q in Taken(cold, k, s) { assert q in cold; }
      }
      Smaller(Taken(cold, k, s), ColdClean(s));
    }

    /** How many pages from `p` on one sequential read covers: as far as there is room, and as the pages are absent. */
    method PrefetchLimit(s: nat, p: nat, maximum: nat) returns (limit: nat)
      requires Valid() && Replaceable(s, p) && maximum > 0
      ensures 1 <= limit <= maximum && limit <= Room(s, maximum) + 1
      ensures limit > 1 ==> p + limit <= pages
      ensures forall q :: p < q < p + limit ==> q !in view
      ensures limit == maximum || limit == Room(s, maximum) + 1 || p + limit >= pages || p + limit in view
    {
      var available := Available(s, maximum);
      var present := lookup.Keys;
      limit := 1;
      assert present == view.Keys;
      hide Indexed;
      while limit < maximum && limit < available + 1 && p + limit < pages && p + limit !in present
        invariant 1 <= limit <= maximum && limit <= available + 1
        invariant limit > 1 ==> p + limit <= pages
        invariant forall q :: p < q < p + limit ==> q !in present
      {
        limit := limit + 1;
      }
      assert forall q :: q in view <==> q in present;
    }
  }
}
