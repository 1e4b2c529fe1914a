/** Root and index blocks as views of real bytes: the byte decoders and the loader's tests agree. */
module RootView {
  import opened Bytes
  import opened Blocks
  import opened Codec
  import opened RootCodec
  import opened Load

  /** A descriptor block, as the loader's model sees it. */
  function ViewRoot(hash: Hash, b: Bytes): Block {
    if MetadataOk(hash, b, RootMagic()) && b[6] == 0 && b[7] == 0 && Read32(b, 16) == SIZE
        && b[60..SEALED] == Zeros(4028)
    then Root(Descriptor(b[5], Read64(b, 8), Read32(b, 20), Read64(b, 24), Read64(b, 32), Read32(b, 40),
                         Read64(b, 44), Read64(b, 52)))
    else Raw(0)
  }

  lemma ValidAgrees(h: Hashes, d: RootRecord)
    requires d.slot < 2
    ensures RootValid(d) <==>
              var e := Descriptor(d.slot, d.volume, d.blocks, d.backing, d.lsn, d.boundary, d.indexSum, d.generation);
              DescriptorOk(VolOf(h, e), e)
  {
  }

  /** The descriptor decoder accepts exactly what the loader takes for a root. */
  lemma RootAgrees(hash: Hash, h: Hashes, b: Bytes, slot: nat, backing: U64)
    requires slot < 2
    ensures DecodeRoot(hash, b, slot, backing).Ok? <==> RootOk(h, ViewRoot(hash, b), slot, backing)
  {
    hide Decode, Power, Encode, Zeros, MetadataOk, RootValid, DescriptorOk, Read32, Read64;
    if MetadataOk(hash, b, RootMagic()) {
      assert |b| == SIZE by { Sized(hash, b); }
      ValidAgrees(h, RootRecord(slot, Read64(b, 8), Read32(b, 20), backing, Read64(b, 32), Read32(b, 40),
                                Read64(b, 44), Read64(b, 52)));
    }
  }

  lemma Sized(hash: Hash, b: Bytes)
    requires MetadataOk(hash, b, RootMagic())
    ensures |b| == SIZE
  {
  }

  /** An index block, as the loader's model sees it. */
  function ViewIndex(v: Vol, b: Bytes, block: nat): Block
    requires block * 1024 <= v.Pages()
  {
    var n := if block * 1024 + 1024 <= v.Pages() then 1024 else v.Pages() - block * 1024;
    if |b| == SIZE && b[n * 4..] == Zeros(SIZE - n * 4) then Index(Unpack32(b, 0, n)) else Raw(0)
  }

  /** The index decoder accepts exactly the blocks the loader gathers. */
  lemma IndexAgrees(v: Vol, d: Descriptor, index: seq<U32>, b: Bytes, block: nat)
    requires ShapeOk(v, index, block)
    ensures block * 1024 <= v.Pages()
    ensures DecodeIndex(v, d.boundary, index, block, b).Ok? <==> IndexOk(v, d, ViewIndex(v, b, block), block)
  {
    ShapeBound(v, index, block);
    hide Zeros, Unpack, Vol.Pages, Vol.IndexBlocks, PointerOk, Splice;
    var n := Held(index, block);
    if |b| == SIZE && b[n * 4..] == Zeros(SIZE - n * 4) {
      assert ViewIndex(v, b, block) == Index(Unpack32(b, 0, n));
    }
  }
}
