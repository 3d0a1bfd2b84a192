/**
 * The IDX dataset format: bytes, 4-byte header words read in the host's byte
 * order, and the header check that corrects a byte-order mismatch by reversing
 * every header word and checking the magic number once more.
 */
module Idx {
  import opened Wrappers

  newtype Byte = x: int | 0 <= x < 256

  /** The byte order in which the host lays out an `int`. */
  datatype Endian = Little | Big

  const LABEL_MAGIC: int := 0x0000_0801
  const IMAGE_MAGIC: int := 0x0000_0803

  function Flip(e: Endian): (f: Endian)
    ensures f != e
  {
    if e == Little then Big else Little
  }

  /** The byte order reversed, as `std::reverse` does to a buffer. */
  function Reverse(s: seq<Byte>): (r: seq<Byte>)
    ensures |r| == |s|
    ensures forall i :: 0 <= i < |s| ==> r[i] == s[|s| - 1 - i]
  {
    if s == [] then [] else Reverse(s[1..]) + [s[0]]
  }

  lemma ReverseInvolutive(s: seq<Byte>)
    ensures Reverse(Reverse(s)) == s
  {
  }

  /** The unsigned value of four bytes, most significant first. */
  function BigEndianValue(b: seq<Byte>): (v: int)
    requires |b| == 4
    ensures 0 <= v < 0x1_0000_0000
  {
    ((b[0] as int * 256 + b[1] as int) * 256 + b[2] as int) * 256 + b[3] as int
  }

  /** A 32-bit pattern seen as a two's-complement `int`. */
  function ToInt32(u: int): (v: int)
    requires 0 <= u < 0x1_0000_0000
    ensures -0x8000_0000 <= v < 0x8000_0000
    ensures v % 0x1_0000_0000 == u
  {
    if u < 0x8000_0000 then u else u - 0x1_0000_0000
  }

  /**
   * Four bytes read into an `int` on a host of byte order `e`: the signed 32-bit
   * value of the bit pattern that puts the first byte lowest on a little-endian
   * host and highest on a big-endian one.
   */
  function Word(e: Endian, b: seq<Byte>): (v: int)
    requires |b| == 4
    ensures e == Little ==>
              v == ToInt32(b[0] as int + 0x100 * b[1] as int + 0x1_0000 * b[2] as int + 0x100_0000 * b[3] as int)
    ensures e == Big ==>
              v == ToInt32(b[3] as int + 0x100 * b[2] as int + 0x1_0000 * b[1] as int + 0x100_0000 * b[0] as int)
  {
    ToInt32(if e == Big then BigEndianValue(b) else BigEndianValue(Reverse(b)))
  }

  /** Reversing the bytes of a word is the same as reading it in the other order. */
  lemma ReverseFlipsOrder(e: Endian, b: seq<Byte>)
    requires |b| == 4
    ensures Word(e, Reverse(b)) == Word(Flip(e), b)
  {
    ReverseInvolutive(b);
  }

  /** A big-endian reading determines the four bytes. */
  lemma {:induction false} BigEndianInjective(b: seq<Byte>, c: seq<Byte>)
    requires |b| == 4 && |c| == 4
    requires BigEndianValue(b) == BigEndianValue(c)
    ensures b == c
  {
    var b01, c01 := b[0] as int * 256 + b[1] as int, c[0] as int * 256 + c[1] as int;
    var b012, c012 := b01 * 256 + b[2] as int, c01 * 256 + c[2] as int;
    assert b012 == c012 && b[3] == c[3];
    assert b01 == c01 && b[2] == c[2];
    assert b[0] == c[0] && b[1] == c[1];
    assert b == [b[0], b[1], b[2], b[3]] && c == [c[0], c[1], c[2], c[3]];
  }

  /** The 4-byte field number `k` of a file. */
  function FieldBytes(file: seq<Byte>, k: nat): (b: seq<Byte>)
    requires 4 * k + 4 <= |file|
    ensures |b| == 4
  {
    file[4 * k .. 4 * k + 4]
  }

  /** The first `n` header words of a file, all read in byte order `e`. */
  function Fields(e: Endian, file: seq<Byte>, n: nat): (fs: seq<int>)
    requires 4 * n <= |file|
    ensures |fs| == n
  {
    seq(n, k requires 0 <= k < n => Word(e, FieldBytes(file, k)))
  }

  /**
   * The readers' header step: read `n` words in host order; if the first is not
   * `magic`, reverse the bytes of every word; fail if the first still is not
   * `magic`.
   */
  function DecodeHeader(host: Endian, file: seq<Byte>, n: nat, magic: int): (r: Option<seq<int>>)
    requires 1 <= n && 4 * n <= |file|
    ensures r.Some? <==> Word(host, file[..4]) == magic || Word(host, Reverse(file[..4])) == magic
    ensures r.Some? ==> |r.value| == n && r.value[0] == magic
  {
    var fields := Fields(host, file, n);
    assert FieldBytes(file, 0) == file[..4];
    if fields[0] == magic then
      Some(fields)
    else
      var swapped := seq(n, k requires 0 <= k < n => Word(host, Reverse(FieldBytes(file, k))));
      if swapped[0] == magic then Some(swapped) else None
  }

  /**
   * An accepted header is read entirely in one byte order: the host's when the
   * magic matches that way, the opposite one otherwise.
   */
  lemma HeaderOneOrder(host: Endian, file: seq<Byte>, n: nat, magic: int)
    requires 1 <= n && 4 * n <= |file|
    requires DecodeHeader(host, file, n, magic).Some?
    ensures Word(host, file[..4]) == magic ==> DecodeHeader(host, file, n, magic).value == Fields(host, file, n)
    ensures Word(host, file[..4]) != magic ==> DecodeHeader(host, file, n, magic).value == Fields(Flip(host), file, n)
  {
    assert FieldBytes(file, 0) == file[..4];
    forall k | 0 <= k < n
      ensures Word(host, Reverse(FieldBytes(file, k))) == Fields(Flip(host), file, n)[k]
    {
      ReverseFlipsOrder(host, FieldBytes(file, k));
    }
  }

  /**
   * The header words one by one: word `k` is field `k` read in host order when
   * the magic matches that way, and field `k` byte-reversed otherwise.
   */
  lemma HeaderWords(host: Endian, file: seq<Byte>, n: nat, magic: int, k: nat)
    requires 1 <= n && 4 * n <= |file| && k < n
    requires DecodeHeader(host, file, n, magic).Some?
    ensures Word(host, file[..4]) == magic ==>
              DecodeHeader(host, file, n, magic).value[k] == Word(host, FieldBytes(file, k))
    ensures Word(host, file[..4]) != magic ==>
              DecodeHeader(host, file, n, magic).value[k] == Word(host, Reverse(FieldBytes(file, k)))
  {
    ReverseFlipsOrder(host, FieldBytes(file, k));
  }

  /** The four header bytes of a magic number in the canonical (big-endian) format. */
  function MagicBytes(magic: int): seq<Byte>
    requires magic == LABEL_MAGIC || magic == IMAGE_MAGIC
  {
    [0, 0, 8, (magic - 0x800) as Byte]
  }

  /** On either host, the magic is accepted in exactly one byte order. */
  lemma {:induction false} MagicReadsOneWay(e: Endian, b: seq<Byte>, magic: int)
    requires |b| == 4
    requires magic == LABEL_MAGIC || magic == IMAGE_MAGIC
    requires Word(e, b) == magic
    ensures Word(Flip(e), b) != magic
  {
    var m := MagicBytes(magic);
    assert BigEndianValue(m) == magic;
    if e == Big {
      BigEndianInjective(b, m);
      assert Reverse(b) == [b[3], b[2], b[1], b[0]];
    } else {
      BigEndianInjective(Reverse(b), m);
      ReverseInvolutive(b);
      assert b == Reverse(Reverse(b));
    }
  }

  /** Decoding a header does not depend on the host's byte order. */
  lemma {:induction false} HeaderHostIndependent(file: seq<Byte>, n: nat, magic: int)
    requires 1 <= n && 4 * n <= |file|
    requires magic == LABEL_MAGIC || magic == IMAGE_MAGIC
    ensures DecodeHeader(Little, file, n, magic) == DecodeHeader(Big, file, n, magic)
  {
    var b := file[..4];
    ReverseFlipsOrder(Little, b);
    ReverseFlipsOrder(Big, b);
    if Word(Little, b) == magic {
      MagicReadsOneWay(Little, b, magic);
      HeaderOneOrder(Little, file, n, magic);
      HeaderOneOrder(Big, file, n, magic);
    } else if Word(Big, b) == magic {
      MagicReadsOneWay(Big, b, magic);
      HeaderOneOrder(Little, file, n, magic);
      HeaderOneOrder(Big, file, n, magic);
    }
  }

  /** A file whose first `n` header words are each byte-reversed. */
  function SwapHeader(file: seq<Byte>, n: nat): (s: seq<Byte>)
    requires 4 * n <= |file|
    ensures |s| == |file|
    ensures s[4 * n..] == file[4 * n..]
    ensures forall k :: 0 <= k < n ==> FieldBytes(s, k) == Reverse(FieldBytes(file, k))
  {
    if n == 0 then file
    else
      var rest := SwapHeader(file[4..], n - 1);
      var s := Reverse(file[..4]) + rest;
      assert forall k :: 1 <= k < n ==> FieldBytes(s, k) == FieldBytes(rest, k - 1);
      assert forall k :: 1 <= k < n ==> FieldBytes(file[4..], k - 1) == FieldBytes(file, k);
      s
  }

  /** A header and its fully byte-swapped twin decode to the same values. */
  lemma {:induction false} HeaderSwapInvariant(host: Endian, file: seq<Byte>, n: nat, magic: int)
    requires 1 <= n && 4 * n <= |file|
    requires magic == LABEL_MAGIC || magic == IMAGE_MAGIC
    ensures DecodeHeader(host, SwapHeader(file, n), n, magic) == DecodeHeader(host, file, n, magic)
  {
    var s := SwapHeader(file, n);
    assert FieldBytes(s, 0) == s[..4] && FieldBytes(file, 0) == file[..4];
    var b := file[..4];
    ReverseInvolutive(b);
    ReverseFlipsOrder(host, b);
    ReverseFlipsOrder(Flip(host), b);
    assert Flip(Flip(host)) == host;
    forall k | 0 <= k < n
      ensures Fields(host, s, n)[k] == Fields(Flip(host), file, n)[k]
      ensures Fields(Flip(host), s, n)[k] == Fields(host, file, n)[k]
    {
      ReverseFlipsOrder(host, FieldBytes(file, k));
      ReverseFlipsOrder(Flip(host), FieldBytes(file, k));
    }
    assert Fields(host, s, n) == Fields(Flip(host), file, n);
    assert Fields(Flip(host), s, n) == Fields(host, file, n);
    assert s[..4] == Reverse(b);
    if Word(host, b) == magic {
      MagicReadsOneWay(host, b, magic);
      HeaderOneOrder(host, file, n, magic);
      HeaderOneOrder(host, s, n, magic);
    } else if Word(Flip(host), b) == magic {
      MagicReadsOneWay(Flip(host), b, magic);
      HeaderOneOrder(host, file, n, magic);
      HeaderOneOrder(host, s, n, magic);
    }
  }
}
