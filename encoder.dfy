/**
 * The threshold encoding applied while images are read: every pixel becomes a
 * pair of complementary channels, "light" (intensity at least 128) then "dark".
 */
module Encoder {
  import opened Idx

  const THRESHOLD: Byte := 128

  /** The channel-0 value of one pixel. */
  function Light(b: Byte): (bit: nat)
    ensures bit <= 1
    ensures bit == 1 <==> b >= THRESHOLD
  {
    if b >= THRESHOLD then 1 else 0
  }

  /** Channel `c` (0 light, 1 dark) of a pixel of intensity `b`. */
  function Channel(b: Byte, c: nat): (bit: nat)
    requires c < 2
    ensures bit <= 1
    ensures c == 1 ==> bit == 1 - Light(b)
  {
    if c == 0 then Light(b) else 1 - Light(b)
  }

  /** The encoding of an image, pixel after pixel in row-major order. */
  function Encoding(raw: seq<Byte>): (e: seq<nat>)
    ensures |e| == 2 * |raw|
  {
    if raw == [] then [] else [Light(raw[0]), 1 - Light(raw[0])] + Encoding(raw[1..])
  }

  /** Entry `k` of the encoding is channel `k % 2` of pixel `k / 2`. */
  lemma {:induction false} EncodingChannels(raw: seq<Byte>)
    ensures forall k :: 0 <= k < |Encoding(raw)| ==> Encoding(raw)[k] == Channel(raw[k / 2], k % 2)
  {
    if raw != [] {
      var rest := Encoding(raw[1..]);
      EncodingChannels(raw[1..]);
      var e := Encoding(raw);
      assert e == [Light(raw[0]), 1 - Light(raw[0])] + rest;
      forall k | 2 <= k < |e|
        ensures e[k] == Channel(raw[k / 2], k % 2)
      {
        assert e[k] == rest[k - 2] && (k - 2) / 2 == k / 2 - 1 && (k - 2) % 2 == k % 2;
      }
    }
  }

  /** Per pixel: channel 0 is on iff the intensity is at least 128, channel 1 is its complement. */
  lemma PixelChannels(raw: seq<Byte>, p: nat)
    requires p < |raw|
    ensures Encoding(raw)[2 * p] == 1 <==> raw[p] >= THRESHOLD
    ensures Encoding(raw)[2 * p] <= 1 && Encoding(raw)[2 * p + 1] <= 1
    ensures Encoding(raw)[2 * p] + Encoding(raw)[2 * p + 1] == 1
  {
    EncodingChannels(raw);
    var e := Encoding(raw);
    var i, j := 2 * p, 2 * p + 1;
    assert i / 2 == p && i % 2 == 0 && j / 2 == p && j % 2 == 1;
    assert e[i] == Channel(raw[p], 0) && e[j] == Channel(raw[p], 1);
  }

  /** Encoding an image split in two parts encodes each part in place. */
  lemma {:induction false} EncodingAppend(a: seq<Byte>, b: seq<Byte>)
    ensures Encoding(a + b) == Encoding(a) + Encoding(b)
  {
    if a != [] {
      assert (a + b)[1..] == a[1..] + b;
      EncodingAppend(a[1..], b);
    } else {
      assert a + b == b;
    }
  }

  /** The encoding of an all-dark image: channel 0 all off, channel 1 all on. */
  lemma AllDarkImage(raw: seq<Byte>)
    requires forall p :: 0 <= p < |raw| ==> raw[p] == 0
    ensures forall k :: 0 <= k < |Encoding(raw)| ==> Encoding(raw)[k] == k % 2
  {
    EncodingChannels(raw);
  }

  /** The pixels 0, 255, 128, 50 encode to the channel pairs 01 10 10 01. */
  lemma EncodingExample()
    ensures Encoding([0, 255, 128, 50]) == [0, 1, 1, 0, 1, 0, 0, 1]
  {
  }

  /** The encoding loop: fills a fresh array of 2 * |raw| channel values. */
  method EncodeImage(raw: seq<Byte>) returns (data: seq<nat>)
    ensures data == Encoding(raw)
  {
    var a := new nat[2 * |raw|];
    var pixel := 0;
    while pixel < |raw|
      invariant 0 <= pixel <= |raw|
      invariant forall k :: 0 <= k < 2 * pixel ==> a[k] == Channel(raw[k / 2], k % 2)
    {
      a[2 * pixel] := if raw[pixel] >= THRESHOLD then 1 else 0;
      a[2 * pixel + 1] := 1 - a[2 * pixel];
      pixel := pixel + 1;
    }
    data := a[..];
    EncodingChannels(raw);
  }
}
