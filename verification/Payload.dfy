/** Test payloads: a 64-bit mixer that loses nothing, and blocks that name exactly one version. */
module Payload {
  const WORDS: nat := 512

  // ---- the mixer, step by step, each with its inverse ----

  function Shift30(x: bv64): bv64 { x ^ (x >> 30) }
  function Unshift30(y: bv64): bv64 { (y ^ (y >> 30)) ^ (y >> 60) }
  function Shift27(x: bv64): bv64 { x ^ (x >> 27) }
  function Unshift27(y: bv64): bv64 { (y ^ (y >> 27)) ^ (y >> 54) }
  function Shift31(x: bv64): bv64 { x ^ (x >> 31) }
  function Unshift31(y: bv64): bv64 { (y ^ (y >> 31)) ^ (y >> 62) }
  function Times1(x: bv64): bv64 { x * 0xBF58_476D_1CE4_E5B9 }
  function Over1(y: bv64): bv64 { y * 0x96DE_1B17_3F11_9089 }
  function Times2(x: bv64): bv64 { x * 0x94D0_49BB_1331_11EB }
  function Over2(y: bv64): bv64 { y * 0x3196_42B2_D24D_8EC3 }

  function Mix(x: bv64): bv64 { Shift31(Times2(Shift27(Times1(Shift30(x))))) }
  function Unmix(y: bv64): bv64 { Unshift30(Over1(Unshift27(Over2(Unshift31(y))))) }

  lemma ShiftExpand(x: bv64)
    ensures Unshift30(x ^ (x >> 30)) == x
    ensures Unshift27(x ^ (x >> 27)) == x
    ensures Unshift31(x ^ (x >> 31)) == x
    ensures Over1(x * 0xBF58_476D_1CE4_E5B9) == x
    ensures Over2(x * 0x94D0_49BB_1331_11EB) == x
  {
  }

  lemma UnshiftExpand(x: bv64)
    ensures Shift30((x ^ (x >> 30)) ^ (x >> 60)) == x
    ensures Shift27((x ^ (x >> 27)) ^ (x >> 54)) == x
    ensures Shift31((x ^ (x >> 31)) ^ (x >> 62)) == x
    ensures Times1(x * 0x96DE_1B17_3F11_9089) == x
    ensures Times2(x * 0x3196_42B2_D24D_8EC3) == x
  {
  }

  lemma StepsUndone(x: bv64)
    ensures Unshift30(Shift30(x)) == x && Unshift27(Shift27(x)) == x && Unshift31(Shift31(x)) == x
    ensures Over1(Times1(x)) == x && Over2(Times2(x)) == x
  {
    hide Unshift30, Unshift27, Unshift31, Over1, Over2;
    ShiftExpand(x);
  }

  lemma StepsRedone(x: bv64)
    ensures Shift30(Unshift30(x)) == x && Shift27(Unshift27(x)) == x && Shift31(Unshift31(x)) == x
    ensures Times1(Over1(x)) == x && Times2(Over2(x)) == x
  {
    hide Shift30, Shift27, Shift31, Times1, Times2;
    UnshiftExpand(x);
  }

  /** The mixer is a bijection on 64-bit words. */
  lemma MixBijective(x: bv64)
    ensures Unmix(Mix(x)) == x && Mix(Unmix(x)) == x
  {
    hide Shift30, Shift27, Shift31, Times1, Times2, Unshift30, Unshift27, Unshift31, Over1, Over2;
    var a := Shift30(x);
    var b := Times1(a);
    var c := Shift27(b);
    var d := Times2(c);
    StepsUndone(x);
    StepsUndone(a);
    StepsUndone(b);
    StepsUndone(c);
    StepsUndone(d);
    var e := Unshift31(x);
    var f := Over2(e);
    var g := Unshift27(f);
    var h := Over1(g);
    StepsRedone(x);
    StepsRedone(e);
    StepsRedone(f);
    StepsRedone(g);
    StepsRedone(h);
  }

  lemma MixInjective(x: bv64, y: bv64)
    requires Mix(x) == Mix(y)
    ensures x == y
  {
    hide Mix, Unmix;
    MixBijective(x);
    MixBijective(y);
  }

  // ---- the stream ----

  /** The generator's state after `k` steps, and how far a state is from the seed. */
  function State(seed: bv64, k: bv64): bv64 { seed + k * 0x9E37_79B9_7F4A_7C15 }
  function Distance(seed: bv64, state: bv64): bv64 { (state - seed) * 0xF1DE_83E1_9937_733D }

  function Next(state: bv64): bv64 { state + 0x9E37_79B9_7F4A_7C15 }

  lemma DistanceExpand(seed: bv64, k: bv64)
    ensures Distance(seed, seed + k * 0x9E37_79B9_7F4A_7C15) == k
  {
  }

  lemma DistanceIs(seed: bv64, k: bv64)
    ensures Distance(seed, State(seed, k)) == k
  {
    hide Distance;
    DistanceExpand(seed, k);
  }

  /** Over its whole period of 2^64 words the stream is zero at most once. */
  lemma ZeroAtMostOnce(seed: bv64, j: bv64, k: bv64)
    requires Mix(State(seed, j)) == 0 && Mix(State(seed, k)) == 0
    ensures j == k
  {
    hide Mix, State, Distance;
    MixInjective(State(seed, j), State(seed, k));
    DistanceIs(seed, j);
    DistanceIs(seed, k);
  }

  /** The next `n` words. */
  function Stream(state: bv64, n: nat): (r: seq<bv64>)
    ensures |r| == n
    decreases n
  {
    if n == 0 then [] else [Mix(Next(state))] + Stream(Next(state), n - 1)
  }

  lemma NextMoves(state: bv64)
    ensures Next(state) != state
  {
  }

  /** No two words in a row are zero, so a stream of two or more words is not all zeros. */
  lemma StreamNotZero(state: bv64, n: nat)
    requires n >= 2
    ensures exists i :: 0 <= i < n && Stream(state, n)[i] != 0
  {
    hide Mix, Next;
    var s := Stream(state, n);
    NextMoves(Next(state));
    if s[0] == 0 && s[1] == 0 {
      assert s[1] == Stream(Next(state), n - 1)[0];
      MixInjective(Next(state), Next(Next(state)));
    } else if s[0] != 0 {
      assert s[0] != 0;
    } else {
      assert s[1] != 0;
    }
  }

  // ---- blocks ----

  datatype Content = Zero | Written(version: bv64) | Invalid

  /** A nonzero 32-bit number. */
  predicate IsVersion(v: bv64) { 0 < v <= 0xFFFF_FFFF }

  function Xor(x: bv64, mask: bv64): bv64 { x ^ mask }
  function Not(x: bv64): bv64 { !x }

  function Mask(seed: bv64, lba: bv64): bv64 { Mix(Xor(seed, Mix(lba))) }
  function StreamSeed(seed: bv64, lba: bv64, version: bv64): bv64 { Mix(Xor(Mask(seed, lba), Mix(Not(version)))) }

  function BlockOf(seed: bv64, lba: bv64, version: bv64): (r: seq<bv64>)
    ensures |r| == WORDS
  {
    [Xor(version, Mask(seed, lba))] + Stream(StreamSeed(seed, lba, version), WORDS - 1)
  }

  predicate AllZero(b: seq<bv64>) { forall i :: 0 <= i < |b| ==> b[i] == 0 }

  function ContentOf(seed: bv64, lba: bv64, b: seq<bv64>): Content
    requires |b| == WORDS
  {
    hide Mask, StreamSeed, Stream, Mix, Xor, IsVersion, AllZero;
    if AllZero(b) then Zero
    else
      var version := Xor(b[0], Mask(seed, lba));
      if !IsVersion(version) then Invalid
      else if b[1..] == Stream(StreamSeed(seed, lba, version), WORDS - 1) then Written(version)
      else Invalid
  }

  lemma MaskTwice(x: bv64, mask: bv64)
    ensures Xor(Xor(x, mask), mask) == x
  {
    XorExpand(x, mask);
  }

  lemma XorExpand(x: bv64, mask: bv64)
    ensures Xor(x ^ mask, mask) == x
  {
  }

  /** Every written version decodes as itself, and never as zeros. */
  lemma PayloadRoundTrip(seed: bv64, lba: bv64, version: bv64)
    requires IsVersion(version)
    ensures ContentOf(seed, lba, BlockOf(seed, lba, version)) == Written(version)
  {
    hide Mask, StreamSeed, Stream, Mix, Xor, IsVersion;
    var b, s := BlockOf(seed, lba, version), Stream(StreamSeed(seed, lba, version), WORDS - 1);
    MaskTwice(version, Mask(seed, lba));
    StreamNotZero(StreamSeed(seed, lba, version), WORDS - 1);
    var i :| 0 <= i < WORDS - 1 && s[i] != 0;
    assert b[i + 1] == s[i];
    assert b[1..] == s;
  }

  /** A block decodes as a version only if it is exactly the block written for it. */
  lemma PayloadCanonical(seed: bv64, lba: bv64, b: seq<bv64>)
    requires |b| == WORDS && ContentOf(seed, lba, b).Written?
    ensures b == BlockOf(seed, lba, ContentOf(seed, lba, b).version) && IsVersion(ContentOf(seed, lba, b).version)
  {
    hide Mask, StreamSeed, Stream, Mix, Xor, IsVersion;
    MaskTwice(b[0], Mask(seed, lba));
    assert b == [b[0]] + b[1..];
  }

  /** Fills a block word by word. */
  method Fill(seed: bv64, lba: bv64, version: bv64, block: array<bv64>)
    requires block.Length == WORDS
    modifies block
    ensures block[..] == BlockOf(seed, lba, version)
  {
    hide Mask, StreamSeed, Mix, Next, Xor, IsVersion;
    var state := StreamSeed(seed, lba, version);
    ghost var s := Stream(state, WORDS - 1);
    block[0] := Xor(version, Mask(seed, lba));
    var i := 1;
    while i < WORDS
      invariant 1 <= i <= WORDS && block[0] == Xor(version, Mask(seed, lba))
      invariant forall j :: 1 <= j < i ==> block[j] == s[j - 1]
      invariant s[i - 1..] == Stream(state, WORDS - i)
    {
      state := Next(state);
      block[i] := Mix(state);
      assert s[i - 1..][0] == Mix(state) && s[i - 1..][1..] == s[i..];
      i := i + 1;
    }
    assert block[1..] == s;
    assert block[..] == [block[0]] + block[1..];
  }

  /** Decodes a block, stepping its own stream beside the words. */
  method Read(seed: bv64, lba: bv64, block: seq<bv64>) returns (r: Content)
    requires |block| == WORDS
    ensures r == ContentOf(seed, lba, block)
  {
    hide Mask, StreamSeed, Mix, Next, Xor, IsVersion;
    if AllZero(block) { return Zero; }
    var version := Xor(block[0], Mask(seed, lba));
    if !IsVersion(version) { return Invalid; }
    var state := StreamSeed(seed, lba, version);
    ghost var s := Stream(state, WORDS - 1);
    var i := 1;
    while i < WORDS
      invariant 1 <= i <= WORDS
      invariant forall j :: 1 <= j < i ==> block[j] == s[j - 1]
      invariant s[i - 1..] == Stream(state, WORDS - i)
    {
      state := Next(state);
      assert s[i - 1..][0] == Mix(state) && s[i - 1..][1..] == s[i..];
      if block[i] != Mix(state) {
        assert block[1..][i - 1] != s[i - 1];
        return Invalid;
      }
      i := i + 1;
    }
    assert block[1..] == s;
    r := Written(version);
  }
}
