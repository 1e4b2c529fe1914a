/** Little-endian integers and packed arrays of them. */
module Bytes {
  type Byte = n: nat | n < 256
  type Bytes = seq<Byte>

  function Power(w: nat): (r: nat)
    ensures r > 0
  {
    if w == 0 then 1 else 256 * Power(w - 1)
  }

  function Encode(n: nat, w: nat): (r: Bytes)
    ensures |r| == w
  {
    if w == 0 then [] else [n % 256] + Encode(n / 256, w - 1)
  }

  function Decode(s: Bytes): (r: nat)
    ensures r < Power(|s|)
  {
    if s == [] then 0 else s[0] + 256 * Decode(s[1..])
  }

  lemma {:induction false} DecodeEncode(n: nat, w: nat)
    requires n < Power(w)
    ensures Decode(Encode(n, w)) == n
  {
    if w > 0 {
      DecodeEncode(n / 256, w - 1);
      assert Encode(n, w)[1..] == Encode(n / 256, w - 1);
    }
  }

  lemma Digits(low: Byte, high: nat)
    ensures (low + 256 * high) % 256 == low && (low + 256 * high) / 256 == high
  {
  }

  lemma {:induction false} EncodeDecode(s: Bytes)
    ensures Encode(Decode(s), |s|) == s
  {
    hide Power;
    if s != [] {
      EncodeDecode(s[1..]);
      Digits(s[0], Decode(s[1..]));
      assert s == [s[0]] + s[1..];
    }
  }

  /** An array of `w`-byte integers, one after another. */
  function Pack(xs: seq<nat>, w: nat): (r: Bytes)
    ensures |r| == |xs| * w
  {
    if xs == [] then [] else Encode(xs[0], w) + Pack(xs[1..], w)
  }

  function Unpack(s: Bytes, count: nat, w: nat): (r: seq<nat>)
    requires |s| == count * w
    ensures |r| == count
    decreases count
  {
    if count == 0 then [] else
      Slack(count, w);
      [Decode(s[..w])] + Unpack(s[w..], count - 1, w)
  }

  lemma Slack(count: nat, w: nat)
    requires count > 0
    ensures count * w == w + (count - 1) * w
  {
  }

  lemma {:induction false} UnpackPack(xs: seq<nat>, w: nat)
    requires forall i :: 0 <= i < |xs| ==> xs[i] < Power(w)
    ensures Unpack(Pack(xs, w), |xs|, w) == xs
  {
    if xs != [] {
      Slack(|xs|, w);
      var s := Pack(xs, w);
      assert s[..w] == Encode(xs[0], w) && s[w..] == Pack(xs[1..], w);
      DecodeEncode(xs[0], w);
      UnpackPack(xs[1..], w);
    }
  }

  lemma {:induction false} PackUnpack(s: Bytes, count: nat, w: nat)
    requires |s| == count * w
    ensures Pack(Unpack(s, count, w), w) == s
    decreases count
  {
    if count > 0 {
      Slack(count, w);
      EncodeDecode(s[..w]);
      PackUnpack(s[w..], count - 1, w);
      assert Unpack(s, count, w)[1..] == Unpack(s[w..], count - 1, w);
    }
  }

  /** Element `i` of a packed array sits at byte `i * w`. */
  lemma {:induction false} UnpackAt(s: Bytes, count: nat, w: nat, i: nat)
    requires |s| == count * w && i < count
    ensures 0 <= i * w <= i * w + w <= |s| && Unpack(s, count, w)[i] == Decode(s[i * w..i * w + w]) < Power(w)
    decreases i
  {
    hide Decode, Power;
    Slack(count, w);
    if i == 0 {
      assert s[0..0 + w] == s[..w];
    } else {
      Slack(i, w);
      var a := (i - 1) * w;
      assert i * w == a + w;
      UnpackAt(s[w..], count - 1, w, i - 1);
      assert s[w..][a..a + w] == s[a + w..a + w + w];
    }
  }

  lemma PackAppend(xs: seq<nat>, x: nat, w: nat)
    ensures Pack(xs + [x], w) == Pack(xs, w) + Encode(x, w)
  {
    if xs == [] {
      assert Pack([x][1..], w) == [];
    } else {
      assert (xs + [x])[1..] == xs[1..] + [x];
      PackAppend(xs[1..], x, w);
    }
  }

  function Zeros(n: nat): (r: Bytes)
    ensures |r| == n && forall i :: 0 <= i < n ==> r[i] == 0
  {
    seq(n, _ => 0)
  }
}
