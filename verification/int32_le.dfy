/**
 * Little-endian signed 32-bit integers in a byte buffer: the storage an
 * `Int32Array` lays down and the read `DataView.getInt32(offset, true)`
 * performs on it.
 */
module Int32LE {
  import opened Results

  type byte = b: int | 0 <= b < 256

  const INT32_MIN: int := -0x8000_0000
  const INT32_MAX: int := 0x7FFF_FFFF
  const TWO_POW_32: int := 0x1_0000_0000

  /** Width in bytes of one encoded element. */
  const WIDTH: nat := 4

  predicate IsInt32(x: int) {
    INT32_MIN <= x <= INT32_MAX
  }

  predicate AllInt32(xs: seq<int>) {
    forall k :: 0 <= k < |xs| ==> IsInt32(xs[k])
  }

  /** The four bytes of `x` in two's complement, least significant first. */
  function EncodeInt32(x: int): (r: seq<byte>)
    requires IsInt32(x)
    ensures |r| == WIDTH
  {
    var u := if x < 0 then x + TWO_POW_32 else x;
    var q1 := u / 256;
    var q2 := q1 / 256;
    [u % 256, q1 % 256, q2 % 256, q2 / 256]
  }

  /** The unsigned value of four bytes, least significant first. */
  function Unsigned(b: seq<byte>): int
    requires |b| == WIDTH
  {
    b[0] as int + 256 * (b[1] as int + 256 * (b[2] as int + 256 * b[3] as int))
  }

  /** The two's-complement value of four bytes, least significant first. */
  function DecodeInt32(b: seq<byte>): (x: int)
    requires |b| == WIDTH
    ensures IsInt32(x)
    ensures x < 0 <==> b[3] >= 128
  {
    var u := Unsigned(b);
    if u > INT32_MAX then u - TWO_POW_32 else u
  }

  /** Dividing a byte plus a multiple of 256 by 256 splits it back apart. */
  lemma SplitByte(b: byte, rest: int)
    ensures (b + 256 * rest) % 256 == b
    ensures (b + 256 * rest) / 256 == rest
  {
  }

  /** Decoding undoes encoding. */
  lemma {:induction false} DecodeEncode(x: int)
    requires IsInt32(x)
    ensures DecodeInt32(EncodeInt32(x)) == x
  {
    var u := if x < 0 then x + TWO_POW_32 else x;
    var q1 := u / 256;
    var q2 := q1 / 256;
    assert u == u % 256 + 256 * (q1 % 256 + 256 * (q2 % 256 + 256 * (q2 / 256)));
  }

  /** Encoding undoes decoding: every four bytes are the encoding of some int32. */
  lemma {:induction false} EncodeDecode(b: seq<byte>)
    requires |b| == WIDTH
    ensures EncodeInt32(DecodeInt32(b)) == b
  {
    var u := Unsigned(b);
    SplitByte(b[0], b[1] as int + 256 * (b[2] as int + 256 * b[3] as int));
    SplitByte(b[1], b[2] as int + 256 * b[3] as int);
    SplitByte(b[2], b[3]);
    assert u / 256 / 256 / 256 == b[3];
  }

  /** The contents of the buffer behind an `Int32Array` built from `xs`. */
  function EncodeInt32s(xs: seq<int>): (r: seq<byte>)
    requires AllInt32(xs)
    ensures |r| == WIDTH * |xs|
  {
    if xs == [] then [] else EncodeInt32s(xs[..|xs| - 1]) + EncodeInt32(xs[|xs| - 1])
  }

  /** Slot `k` of an encoded `Int32Array` holds the encoding of its k-th element. */
  lemma {:induction false} EncodedSlot(xs: seq<int>, k: nat)
    requires AllInt32(xs) && k < |xs|
    ensures EncodeInt32s(xs)[WIDTH * k..WIDTH * k + WIDTH] == EncodeInt32(xs[k])
  {
    var init := xs[..|xs| - 1];
    var front := EncodeInt32s(init);
    assert EncodeInt32s(xs) == front + EncodeInt32(xs[|xs| - 1]);
    if k < |init| {
      EncodedSlot(init, k);
      assert front[WIDTH * k..WIDTH * k + WIDTH] == EncodeInt32(init[k]);
    }
  }

  /**
   * `DataView.getInt32(off, true)`: decodes the four bytes at `off`, or fails
   * when they run past the end of the buffer.
   */
  function GetInt32(buf: seq<byte>, off: nat): (r: Result<int>)
    ensures r.Success? <==> off + WIDTH <= |buf|
    ensures r.Failure? ==> r.error == RangeError
    ensures r.Success? ==> IsInt32(r.value)
  {
    if off + WIDTH > |buf| then Failure(RangeError)
    else Success(DecodeInt32(buf[off..off + WIDTH]))
  }

  /** A successful read returns the int32 whose encoding is the four bytes at `off`. */
  lemma GetInt32Encodes(buf: seq<byte>, off: nat)
    requires off + WIDTH <= |buf|
    ensures GetInt32(buf, off).Success?
    ensures EncodeInt32(GetInt32(buf, off).value) == buf[off..off + WIDTH]
  {
    EncodeDecode(buf[off..off + WIDTH]);
  }

  /** Reading the k-th slot of an encoded `Int32Array` gives back its k-th element. */
  lemma {:induction false} GetInt32OfEncoded(xs: seq<int>, k: nat)
    requires AllInt32(xs)
    ensures GetInt32(EncodeInt32s(xs), WIDTH * k) ==
              if k < |xs| then Success(xs[k]) else Failure(RangeError)
  {
    if k < |xs| {
      EncodedSlot(xs, k);
      DecodeEncode(xs[k]);
    }
  }
}
