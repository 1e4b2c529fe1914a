/** The second-chance replacement policy over packed reference bits. */
module Clock {
  import opened Blocks

  type Word = bv64

  /** The place of bit `n` in a word, as a shift amount. */
  function Shift(n: nat): bv64
    requires n < 64
  {
    (n as bv8) as bv64
  }

  function Mask(n: nat): Word
    requires n < 64
  {
    1 << Shift(n)
  }

  /** The reference bit of `slot` in the packed words. */
  predicate Bit(words: seq<Word>, slot: nat)
    requires slot / 64 < |words|
  {
    Hit(words[slot / 64], Mask(slot % 64))
  }

  predicate Hit(word: Word, mask: Word) { word & mask != 0 }

  function WithMask(word: Word, mask: Word, value: bool): Word { if value then word | mask else word & !mask }

  function WithBit(words: seq<Word>, slot: nat, value: bool): (r: seq<Word>)
    requires slot / 64 < |words|
    ensures |r| == |words|
  {
    words[slot / 64 := WithMask(words[slot / 64], Mask(slot % 64), value)]
  }

  lemma ShiftBack(n: nat)
    requires n < 64
    ensures (n as bv8) as nat == n
  {
  }

  lemma Widen(a: bv8, b: bv8)
    requires a != b
    ensures a as bv64 != b as bv64
  {
  }

  lemma SmallShift(n: nat)
    requires n < 64
    ensures Shift(n) < 64
  {
  }

  lemma ShiftsDiffer(n: nat, m: nat)
    requires n < 64 && m < 64 && n != m
    ensures Shift(n) != Shift(m)
  {
    ShiftBack(n);
    ShiftBack(m);
    Widen(n as bv8, m as bv8);
  }

  lemma ShiftsApart(a: bv64, b: bv64)
    requires a < 64 && b < 64 && a != b
    ensures (1 << a) & (1 << b) == (0 as bv64)
  {
  }

  lemma MaskNonzero(a: bv64)
    requires a < 64
    ensures (1 << a) != (0 as bv64)
  {
  }

  lemma OrApart(w: bv64, x: bv64, y: bv64)
    requires x & y == 0
    ensures (w | x) & y == w & y
  {
  }

  lemma ClearApart(w: bv64, x: bv64, y: bv64)
    requires x & y == 0
    ensures (w & !x) & y == w & y
  {
  }

  lemma OrHit(w: bv64, x: bv64)
    ensures (w | x) & x == x
  {
  }

  lemma ClearHit(w: bv64, x: bv64)
    ensures (w & !x) & x == 0
  {
  }

  lemma Apart(w: Word, x: Word, y: Word, value: bool)
    requires x & y == 0
    ensures Hit(WithMask(w, x, value), y) == Hit(w, y)
  {
    hide Hit;
    if value { OrMisses(w, x, y); } else { ClearMisses(w, x, y); }
  }

  lemma OrMisses(w: bv64, x: bv64, y: bv64)
    requires x & y == 0
    ensures Hit(w | x, y) == Hit(w, y)
  {
    OrApart(w, x, y);
  }

  lemma ClearMisses(w: bv64, x: bv64, y: bv64)
    requires x & y == 0
    ensures Hit(w & !x, y) == Hit(w, y)
  {
    ClearApart(w, x, y);
  }

  lemma Hits(w: Word, x: Word, value: bool)
    requires x != 0
    ensures Hit(WithMask(w, x, value), x) == value
  {
    if value { OrHit(w, x); } else { ClearHit(w, x); }
  }

  lemma MasksDiffer(n: nat, m: nat)
    requires n < 64 && m < 64 && n != m
    ensures Mask(n) & Mask(m) == 0 && Mask(n) != 0
  {
    hide Shift;
    SmallShift(n);
    SmallShift(m);
    ShiftsDiffer(n, m);
    ShiftsApart(Shift(n), Shift(m));
    MaskNonzero(Shift(n));
  }

  lemma SomeMask(n: nat)
    requires n < 64
    ensures Mask(n) != 0
  {
    hide Shift;
    SmallShift(n);
    MaskNonzero(Shift(n));
  }

  /** Within one word, setting bit `n` sets that bit and no other. */
  lemma WordBits(w: Word, n: nat, m: nat, value: bool)
    requires n < 64 && m < 64
    ensures Hit(WithMask(w, Mask(n), value), Mask(m)) == if m == n then value else Hit(w, Mask(m))
  {
    hide Mask, WithMask, Hit;
    if m == n {
      SomeMask(n);
      Hits(w, Mask(n), value);
    } else {
      MasksDiffer(n, m);
      Apart(w, Mask(n), Mask(m), value);
    }
  }

  /** Setting one packed bit leaves every other bit alone. */
  lemma PackedBits(words: seq<Word>, slot: nat, value: bool, s: nat)
    requires slot / 64 < |words| && s / 64 < |words|
    ensures Bit(WithBit(words, slot, value), s) == if s == slot then value else Bit(words, s)
  {
    hide Mask, WithMask, Hit;
    if s / 64 == slot / 64 {
      WordBits(words[slot / 64], slot % 64, s % 64, value);
    }
  }

  lemma NoBits(words: seq<Word>, s: nat)
    requires s / 64 < |words| && words[s / 64] == 0
    ensures !Bit(words, s)
  {
    hide Hit;
    NoneMasked(Mask(s % 64));
  }

  lemma NoneMasked(m: Word)
    ensures !Hit(0, m)
  {
  }

  /** How far the clock hand must travel from `cursor` to reach `slot`. */
  function Distance(cursor: nat, capacity: nat, slot: nat): nat
    requires cursor < capacity && slot < capacity
  {
    if cursor <= slot then slot - cursor else slot + capacity - cursor
  }

  /** The first `n` steps of the hand cleared exactly the slots they passed. */
  ghost predicate Swept(capacity: nat, start: nat, was: seq<Word>, words: seq<Word>, n: nat)
    requires start < capacity && |was| == |words| == (capacity + 63) / 64
  {
    forall s :: 0 <= s < capacity ==>
      Bit(words, s) == (Bit(was, s) && Distance(start, capacity, s) >= n)
  }

  /** None of the slots within `n` steps was both unreferenced and clean. */
  ghost predicate Passed(capacity: nat, start: nat, was: seq<Word>, clean: nat -> bool, n: nat)
    requires start < capacity && |was| == (capacity + 63) / 64
  {
    forall s :: 0 <= s < capacity && Distance(start, capacity, s) < n ==> Bit(was, s) || !clean(s)
  }

  /** None of the slots within `n` steps is clean. */
  ghost predicate Dirty(capacity: nat, start: nat, clean: nat -> bool, n: nat)
    requires start < capacity
  {
    forall s :: 0 <= s < capacity && Distance(start, capacity, s) < n ==> !clean(s)
  }

  class Clock {
    const capacity: nat
    var referenced: seq<Word>
    var cursor: nat

    ghost predicate Valid()
      reads this
    {
      0 < capacity && |referenced| == (capacity + 63) / 64 && cursor < capacity
    }

    constructor (capacity: nat)
      requires capacity > 0
      ensures Valid() && this.capacity == capacity && cursor == 0
      ensures forall s :: 0 <= s < capacity ==> !Bit(referenced, s)
    {
      this.capacity := capacity;
      referenced := seq((capacity + 63) / 64, _ => 0);
      cursor := 0;
      new;
      hide Bit;
      forall s | 0 <= s < capacity ensures !Bit(referenced, s) { NoBits(referenced, s); }
    }

    method Set(slot: nat, value: bool)
      requires Valid() && slot < capacity
      modifies this`referenced
      ensures Valid() && referenced == WithBit(old(referenced), slot, value)
    {
      referenced := WithBit(referenced, slot, value);
    }

    method AdvancePast(slot: nat)
      requires Valid() && slot < capacity
      modifies this`cursor
      ensures Valid() && cursor == if slot + 1 == capacity then 0 else slot + 1
    {
      cursor := if slot + 1 == capacity then 0 else slot + 1;
    }

    /** The unreferenced slots among the next 32, in clock order. */
    function Cold(offset: nat): (r: seq<nat>)
      reads this
      requires Valid()
      ensures forall k :: 0 <= k < |r| ==> r[k] < capacity && !Bit(referenced, r[k])
      ensures Distinct(r)
      ensures forall s :: s in r
                <==> 0 <= s < capacity && offset <= Distance(cursor, capacity, s) < 32 && !Bit(referenced, s)
      decreases 32 - offset
    {
      if offset >= 32 || offset >= capacity then []
      else
        var slot := if cursor + offset < capacity then cursor + offset else cursor + offset - capacity;
        assert forall s :: 0 <= s < capacity && Distance(cursor, capacity, s) == offset ==> s == slot;
        (if Bit(referenced, slot) then [] else [slot]) + Cold(offset + 1)
    }

    /** One step of the hand: clear a referenced slot, or stop at a clean one. */
    method Step(clean: nat -> bool, ghost start: nat, ghost was: seq<Word>, ghost n: nat)
      returns (slot: nat, stop: bool)
      requires Valid() && start < capacity && |was| == |referenced| && n < capacity
      requires cursor == if start + n < capacity then start + n else start + n - capacity
      requires Swept(capacity, start, was, referenced, n)
      requires Passed(capacity, start, was, clean, n)
      modifies this
      ensures Valid() && slot == old(cursor) && Distance(start, capacity, slot) == n
      ensures cursor == if start + n + 1 < capacity then start + n + 1 else start + n + 1 - capacity
      ensures Swept(capacity, start, was, referenced, n + 1)
      ensures stop == (!Bit(was, slot) && clean(slot))
      ensures !stop ==> Passed(capacity, start, was, clean, n + 1)
    {
      hide Bit, WithBit;
      slot := cursor;
      AdvancePast(slot);
      assert Distance(start, capacity, slot) == n;
      if Bit(referenced, slot) {
        ghost var words := referenced;
        Set(slot, false);
        forall s | 0 <= s < capacity
          ensures Bit(referenced, s) == (Bit(was, s) && Distance(start, capacity, s) >= n + 1)
        {
          PackedBits(words, slot, false, s);
        }
        stop := false;
      } else {
        stop := clean(slot);
      }
    }

    /** Two passes find a clean slot exactly when there is one. The first pass stops at the
        first slot that is clean and unreferenced; only if there is none does the second
        pass take the first clean slot. */
    method Victim(clean: nat -> bool) returns (r: Option<nat>, examined: nat)
      requires Valid()
      modifies this
      ensures Valid()
      ensures r.None? <==> forall s :: 0 <= s < capacity ==> !clean(s)
      ensures r.Some? ==> r.value < capacity && clean(r.value) && !Bit(referenced, r.value)
      ensures forall s :: 0 <= s < capacity && Bit(referenced, s) ==> Bit(old(referenced), s)
      ensures examined <= 2 * capacity
      ensures r.Some? && examined <= capacity ==>
                && !Bit(old(referenced), r.value)
                && Passed(capacity, old(cursor), old(referenced), clean, Distance(old(cursor), capacity, r.value))
      ensures r.Some? && examined > capacity ==>
                && Passed(capacity, old(cursor), old(referenced), clean, capacity)
                && Dirty(capacity, old(cursor), clean, Distance(old(cursor), capacity, r.value))
    {
      hide Bit, WithBit;
      examined := 0;
      ghost var start := cursor;
      var pass := 0;
      while pass < 2
        invariant 0 <= pass <= 2 && examined == pass * capacity && Valid() && cursor == start
        invariant pass == 0 ==> referenced == old(referenced)
        invariant pass >= 1 ==> Swept(capacity, start, old(referenced), referenced, capacity)
        invariant pass >= 1 ==> Passed(capacity, start, old(referenced), clean, capacity)
        invariant pass == 2 ==> forall s :: 0 <= s < capacity ==> !clean(s)
      {
        var step := 0;
        ghost var was := referenced;
        while step < capacity
          invariant 0 <= step <= capacity && examined == pass * capacity + step && Valid()
          invariant cursor == if start + step < capacity then start + step else start + step - capacity
          invariant Swept(capacity, start, was, referenced, step)
          invariant Passed(capacity, start, was, clean, step)
        {
          var slot, stop := Step(clean, start, was, step);
          examined := examined + 1;
          if stop {
            return Some(slot), examined;
          }
          step := step + 1;
        }
        pass := pass + 1;
      }
      r := None;
    }
  }
}
