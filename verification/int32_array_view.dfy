/**
 * Views of little-endian int32 arrays: `getArrayView<number>(getter, 4)` where
 * `getter` is `DataView.getInt32(offset, true)` over one buffer.
 */
module Int32ArrayViews {
  import opened Results
  import opened Int32LE
  import opened ArrayViews

  /** The view constructor for int32 elements of `buf`, stride 4. */
  function Int32ArrayView(buf: seq<byte>): (c: ArrayViewClass<int>)
    ensures c.stride == WIDTH
    ensures forall off: nat :: c.getter(off).Success? <==> off + WIDTH <= |buf|
  {
    GetArrayView((off: nat) => GetInt32(buf, off), WIDTH)
  }

  /** The int32 view class reads with `getInt32(offset, true)` over `buf`. */
  lemma Int32ArrayViewReads(buf: seq<byte>, off: nat)
    ensures Int32ArrayView(buf).getter(off) == GetInt32(buf, off)
  {
  }

  /**
   * `get(i)` succeeds exactly when the four bytes at `start + 4 * i` lie in the
   * buffer, whatever the declared length; otherwise it raises a range error.
   */
  lemma GetWithinBuffer(buf: seq<byte>, start: nat, len: nat, i: nat)
    ensures var r := Int32ArrayView(buf).New(start, len).Get(i);
            (r.Success? <==> start + WIDTH * i + WIDTH <= |buf|) &&
            (r.Failure? ==> r.error == RangeError) &&
            (r.Success? ==> EncodeInt32(r.value) == buf[start + WIDTH * i..start + WIDTH * i + WIDTH])
  {
    if start + WIDTH * i + WIDTH <= |buf| {
      GetInt32Encodes(buf, start + WIDTH * i);
    }
  }

  /**
   * Over an encoded `Int32Array`, a view starting at slot `j` reads slot
   * `j + i` as its element `i`, with no check of `i` against the declared
   * length, and fails once that slot is past the end of the buffer.
   */
  lemma {:induction false} GetOfEncoded(xs: seq<int>, j: nat, len: nat, i: nat)
    requires AllInt32(xs)
    ensures Int32ArrayView(EncodeInt32s(xs)).New(WIDTH * j, len).Get(i) ==
              if j + i < |xs| then Success(xs[j + i]) else Failure(RangeError)
  {
    var v := Int32ArrayView(EncodeInt32s(xs)).New(WIDTH * j, len);
    assert v.OffsetOf(i) == WIDTH * (j + i);
    GetInt32OfEncoded(xs, j + i);
  }

  /**
   * Iterating a view of `n` elements that starts at slot `j` and stays inside
   * the encoded `Int32Array` yields the slice `xs[j..j + n]`.
   */
  lemma {:induction false} ElementsOfEncoded(xs: seq<int>, j: nat, n: nat)
    requires AllInt32(xs)
    requires j + n <= |xs|
    ensures Int32ArrayView(EncodeInt32s(xs)).New(WIDTH * j, n).Elements() == Success(xs[j..j + n])
  {
    var v := Int32ArrayView(EncodeInt32s(xs)).New(WIDTH * j, n);
    forall i | 0 <= i < n
      ensures v.Get(i) == Success(xs[j..j + n][i])
    {
      GetOfEncoded(xs, j, n, i);
    }
    var r := v.Elements();
    assert r.Success?;
    assert r.value == xs[j..j + n];
  }

  /**
   * A view that declares more elements than the encoded `Int32Array` holds
   * from slot `j` on fails to iterate, with a range error.
   */
  lemma {:induction false} ElementsPastEnd(xs: seq<int>, j: nat, n: nat)
    requires AllInt32(xs)
    requires 0 < n && j + n > |xs|
    ensures Int32ArrayView(EncodeInt32s(xs)).New(WIDTH * j, n).Elements() == Failure(RangeError)
  {
    var v := Int32ArrayView(EncodeInt32s(xs)).New(WIDTH * j, n);
    GetOfEncoded(xs, j, n, n - 1);
    assert v.Get(n - 1).Failure?;
  }

  /** `GetOfEncoded` for a slot inside the array, with its element given by name. */
  lemma GetOfEncodedIs(xs: seq<int>, j: nat, len: nat, i: nat, y: int)
    requires AllInt32(xs) && j + i < |xs| && xs[j + i] == y
    ensures Int32ArrayView(EncodeInt32s(xs)).New(WIDTH * j, len).Get(i) == Success(y)
  {
    GetOfEncoded(xs, j, len, i);
  }

  /** `ElementsOfEncoded`, with the slice it yields given by name. */
  lemma ElementsOfEncodedAre(xs: seq<int>, j: nat, n: nat, ys: seq<int>)
    requires AllInt32(xs) && j + n <= |xs| && xs[j..j + n] == ys
    ensures Int32ArrayView(EncodeInt32s(xs)).New(WIDTH * j, n).Elements() == Success(ys)
  {
    ElementsOfEncoded(xs, j, n);
  }

  /** `xs` holds the elements of `new Int32Array([1, 2, 3])`. */
  predicate IsOneTwoThree(xs: seq<int>) {
    |xs| == 3 && xs[0] == 1 && xs[1] == 2 && xs[2] == 3
  }

  /*
   * The scenarios below are those of the unit tests, over the buffer of
   * `new Int32Array([])` or of `new Int32Array([1, 2, 3])` (12 bytes).
   */

  /** `length()` returns the declared count, also for empty views and an empty buffer. */
  lemma LengthScenarios(xs: seq<int>)
    requires IsOneTwoThree(xs)
    ensures Int32ArrayView(EncodeInt32s([])).New(0, 0).Length() == 0
    ensures Int32ArrayView(EncodeInt32s(xs)).New(0, 3).Length() == 3
    ensures Int32ArrayView(EncodeInt32s(xs)).New(4, 2).Length() == 2
    ensures Int32ArrayView(EncodeInt32s(xs)).New(4, 1).Length() == 1
    ensures Int32ArrayView(EncodeInt32s(xs)).New(8, 1).Length() == 1
    ensures Int32ArrayView(EncodeInt32s(xs)).New(12, 0).Length() == 0
  {
  }

  /** `get` inside the declared length of a view over the whole array. */
  lemma GetScenarios(xs: seq<int>)
    requires IsOneTwoThree(xs)
    ensures Int32ArrayView(EncodeInt32s(xs)).New(0, 3).Get(0) == Success(1)
    ensures Int32ArrayView(EncodeInt32s(xs)).New(0, 3).Get(2) == Success(3)
  {
    GetOfEncodedIs(xs, 0, 3, 0, 1);
    GetOfEncodedIs(xs, 0, 3, 2, 3);
  }

  /** `get` inside the declared length of views that start further in. */
  lemma GetOffsetScenarios(xs: seq<int>)
    requires IsOneTwoThree(xs)
    ensures Int32ArrayView(EncodeInt32s(xs)).New(4, 1).Get(0) == Success(2)
    ensures Int32ArrayView(EncodeInt32s(xs)).New(8, 1).Get(0) == Success(3)
  {
    GetOfEncodedIs(xs, 1, 1, 0, 2);
    GetOfEncodedIs(xs, 2, 1, 0, 3);
  }

  /** `get` past the declared length, and past the end of the buffer. */
  lemma NoBoundsCheckScenarios(xs: seq<int>)
    requires IsOneTwoThree(xs)
    ensures Int32ArrayView(EncodeInt32s(xs)).New(0, 1).Get(2) == Success(3)
    ensures Int32ArrayView(EncodeInt32s(xs)).New(0, 3).Get(4) == Failure(RangeError)
  {
    GetOfEncodedIs(xs, 0, 1, 2, 3);
    GetOfEncoded(xs, 0, 3, 4);
  }

  /** Iterating an empty view reads nothing, even where any read would fail. */
  lemma EmptyIterationScenarios(xs: seq<int>)
    requires IsOneTwoThree(xs)
    ensures Int32ArrayView(EncodeInt32s([])).New(0, 0).Elements() == Success([])
    ensures Int32ArrayView(EncodeInt32s(xs)).New(12, 0).Elements() == Success([])
  {
  }

  /** Iteration of the non-empty views the tests spread into arrays. */
  lemma IterationScenarios(xs: seq<int>)
    requires IsOneTwoThree(xs)
    ensures Int32ArrayView(EncodeInt32s(xs)).New(0, 3).Elements() == Success([1, 2, 3])
    ensures Int32ArrayView(EncodeInt32s(xs)).New(4, 2).Elements() == Success([2, 3])
    ensures Int32ArrayView(EncodeInt32s(xs)).New(4, 1).Elements() == Success([2])
    ensures Int32ArrayView(EncodeInt32s(xs)).New(8, 1).Elements() == Success([3])
  {
    assert xs[0..3] == [1, 2, 3];
    ElementsOfEncodedAre(xs, 0, 3, [1, 2, 3]);
    assert xs[1..3] == [2, 3];
    ElementsOfEncodedAre(xs, 1, 2, [2, 3]);
    assert xs[1..2] == [2];
    ElementsOfEncodedAre(xs, 1, 1, [2]);
    assert xs[2..3] == [3];
    ElementsOfEncodedAre(xs, 2, 1, [3]);
  }
}
