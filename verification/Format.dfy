/** A freshly formatted backing file. */
module Format {
  import opened Blocks
  import opened Log
  import opened Disk

  function Zeros(n: nat): (r: seq<nat>)
    ensures |r| == n && forall k :: 0 <= k < n ==> r[k] == 0
  {
    seq(n, _ => 0)
  }

  /** The empty checkpoint, as either slot of a new volume holds it. */
  function EmptyRoot(v: Vol, slot: nat): Checkpoint
    requires v.Ok()
  {
    Checkpoint(Descriptor(slot, v.id, v.blocks, v.backing, 0, v.LogStart() - 1, v.indexSum(Zeros(v.Pages())), 0),
               Zeros(v.Pages()))
  }

  /** Writes both index bodies, then both descriptors; the log region is left as it was. */
  method FormatImage(v: Vol, blank: Image) returns (I: Image)
    requires v.Ok() && |blank| == v.backing
    requires forall a :: v.LogStart() <= a < |blank| ==> !Current(v, blank[a])
    ensures DiskInv(v, I, [], EmptyRoot(v, 0))
    ensures forall a :: v.LogStart() <= a < |blank| ==> I[a] == blank[a]
  {
    hide Chunk;
    I := WriteBody(v, blank, 0);
    var first := I;
    I := WriteBody(v, I, 1);
    forall b | 0 <= b < v.IndexBlocks() ensures I[v.Body(0) + b] == Index(Chunk(Zeros(v.Pages()), b)) {
      assert first[v.Body(0) + b] == Index(Chunk(Zeros(v.Pages()), b));
    }
    I := I[0 := Root(EmptyRoot(v, 0).desc)];
    I := I[1 := Root(EmptyRoot(v, 1).desc)];
    FormattedInv(v, I);
  }

  method WriteBody(v: Vol, start: Image, slot: nat) returns (I: Image)
    requires v.Ok() && |start| == v.backing && slot < 2
    ensures |I| == |start|
    ensures forall b :: 0 <= b < v.IndexBlocks() ==> I[v.Body(slot) + b] == Index(Chunk(Zeros(v.Pages()), b))
    ensures forall a :: 0 <= a < |I| && !(v.Body(slot) <= a < v.Body(slot) + v.IndexBlocks()) ==> I[a] == start[a]
  {
    hide Chunk;
    I := start;
    var b := 0;
    while b < v.IndexBlocks()
      invariant b <= v.IndexBlocks() && |I| == |start|
      invariant forall q :: 0 <= q < b ==> I[v.Body(slot) + q] == Index(Chunk(Zeros(v.Pages()), q))
      invariant forall a :: 0 <= a < |I| && !(v.Body(slot) <= a < v.Body(slot) + b) ==> I[a] == start[a]
    {
      I := I[v.Body(slot) + b := Index(Chunk(Zeros(v.Pages()), b))];
      b := b + 1;
    }
  }

  lemma FormattedInv(v: Vol, I: Image)
    requires v.Ok() && |I| == v.backing
    requires I[0] == Root(EmptyRoot(v, 0).desc) && I[1] == Root(EmptyRoot(v, 1).desc)
    requires forall b :: 0 <= b < v.IndexBlocks() ==> I[v.Body(0) + b] == Index(Chunk(Zeros(v.Pages()), b))
    requires forall a :: v.LogStart() <= a < |I| ==> !Current(v, I[a])
    ensures DiskInv(v, I, [], EmptyRoot(v, 0))
  {
    hide Chunk;
    var c := EmptyRoot(v, 0);
    assert BodyAt(v, I, c);
    forall p | 0 <= p < |c.index| ensures PtrAt(v, I, c, p) && Entries(I, c, p) == PageAt(v, [], 0, p) {
      assert c.index[p] == 0;
      assert EmptyPage() == PageAt(v, [], 0, p);
    }
  }
}
