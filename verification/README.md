# ArrayView: lazy fixed-stride views over a binary buffer

webviz's `binaryObjects` package reads arrays inside a serialized binary blob
without decoding them up front. `getArrayView(getter, stride)` binds an element
decoder and a byte stride and returns a class. Each instance,
`new ArrayView(start, length)`, is an immutable pair of a start offset in bytes
and a declared element count, and it offers three operations:

- `length()` returns the declared count;
- `get(i)` decodes the element at byte offset `start + i * stride`. It does not
  check `i` against the declared length. Only the decoder can fail, and it
  fails when the bytes it needs lie outside the buffer;
- iterating the view (`[...view]`) yields `get(0) … get(length - 1)` in order.
  Each pass has its own cursor.

The behaviour is fixed by the unit tests in
`packages/webviz-core/src/util/binaryObjects/ArrayView.test.js`. There the
decoder is `DataView.getInt32(offset, true)` over the buffer of an
`Int32Array`, and the stride is 4. The implementation file
`packages/webviz-core/src/util/binaryObjects/ArrayView.js` is not part of this
model. Every contract here comes from what the tests assert about it.

The project has four modules:

- `Results` (`results.dfy`): the outcome of a read, either `Success(value)` or
  `Failure(RangeError)`.
- `Int32LE` (`int32_le.dfy`): the bytes an `Int32Array` stores (little-endian
  two's complement) and the read `getInt32(offset, true)`. The read is a total
  function that fails when `offset + 4` runs past the end of the buffer.
- `ArrayViews` (`array_view.dfy`): the factory, the view class and views,
  generic in the element type. The decoder is a function
  `nat -> Result<T>`. Views are immutable values, so they are a datatype. The
  class (`ArrayViewClass`) holds the decoder and the stride, and every view it
  constructs shares them. `Length`, `OffsetOf` and `Get` are plain functions.
  Iteration is the method `Iterate`, a cursor loop proved equal to the function
  `Elements`. It reads every element through a `Reader` object that calls the
  decoder and logs the offset of each call. Its contract pins down that log:
  an empty view reads nothing, and a failing read ends the walk.
- `Int32ArrayViews` (`int32_array_view.dfy`): the int32 views the tests build,
  general lemmas about them, and the tests' scenarios as lemmas.

## Model

| member | source | states |
|---|---|---|
| `Int32LE.EncodeInt32` | packages/webviz-core/src/util/binaryObjects/ArrayView.test.js:24 | one int32 element occupies exactly four bytes of the `Int32Array` buffer |
| `Int32LE.DecodeInt32` | packages/webviz-core/src/util/binaryObjects/ArrayView.test.js:16 | four bytes decode to a value in the int32 range, negative exactly when the top bit of the last byte is set |
| `Int32LE.DecodeEncode` | packages/webviz-core/src/util/binaryObjects/ArrayView.test.js:24-26 | decoding the little-endian encoding of an int32 gives the value back |
| `Int32LE.EncodeDecode` | packages/webviz-core/src/util/binaryObjects/ArrayView.test.js:15-16 | every four bytes are the encoding of the value they decode to, so the decoder loses nothing |
| `Int32LE.EncodeInt32s` | packages/webviz-core/src/util/binaryObjects/ArrayView.test.js:24-25 | the buffer of `new Int32Array(xs)` holds four bytes per element of `xs` |
| `Int32LE.EncodedSlot` | packages/webviz-core/src/util/binaryObjects/ArrayView.test.js:24-25 | bytes `4k .. 4k+3` of that buffer are the encoding of `xs[k]` |
| `Int32LE.GetInt32` | packages/webviz-core/src/util/binaryObjects/ArrayView.test.js:15-16 | `getInt32(off, true)` succeeds exactly when `off + 4` is at most the buffer size, and otherwise fails with a range error; on success the value is in the int32 range |
| `Int32LE.GetInt32Encodes` | packages/webviz-core/src/util/binaryObjects/ArrayView.test.js:15-16 | a successful read returns the int32 whose encoding is exactly the four bytes at `off` |
| `Int32LE.GetInt32OfEncoded` | packages/webviz-core/src/util/binaryObjects/ArrayView.test.js:24-26 | reading offset `4k` of an encoded `Int32Array` gives `xs[k]` when `k` is a slot of `xs`, and a range error otherwise |
| `ArrayViews.GetArrayView` | packages/webviz-core/src/util/binaryObjects/ArrayView.test.js:18 | the class the factory returns holds exactly the getter and the stride it was given |
| `ArrayViews.ArrayViewClass.New` | packages/webviz-core/src/util/binaryObjects/ArrayView.test.js:28-33 | construction always succeeds and checks nothing; `length()` of the new view is the length passed in, for any buffer and any start offset |
| `ArrayViews.ArrayView.Length` | packages/webviz-core/src/util/binaryObjects/ArrayView.test.js:19-20 | `length()` returns the count stored at construction |
| `ArrayViews.ArrayView.OffsetOf` | packages/webviz-core/src/util/binaryObjects/ArrayView.test.js:44-48 | element `i` sits `i` strides past the start offset, so with stride 4 the view `(4, 1)` reads element 0 at byte 4 |
| `ArrayViews.ArrayView.Get` | packages/webviz-core/src/util/binaryObjects/ArrayView.test.js:44-59 | `get(i)` returns exactly what the shared getter returns at the offset of element `i`, a failure included: the view neither catches nor rewraps it |
| `ArrayViews.ArrayView.GetIgnoresLength` | packages/webviz-core/src/util/binaryObjects/ArrayView.test.js:51-57 | `get(i)` gives the same result whatever the declared length, so an index past the length is not rejected |
| `ArrayViews.ArrayView.Elements` | packages/webviz-core/src/util/binaryObjects/ArrayView.test.js:80-84 | `[...view]` is empty for a zero-length view; on success it holds exactly `length` values, value `i` being `get(i)`; on failure it carries the error of a `get` below the length, with every earlier `get` succeeding |
| `ArrayViews.ArrayView.Offsets` | packages/webviz-core/src/util/binaryObjects/ArrayView.test.js:80-84 | the offsets of elements `0 .. n-1`, in index order |
| `ArrayViews.ArrayView.Prefix` | packages/webviz-core/src/util/binaryObjects/ArrayView.test.js:80-84 | reading elements `0 .. n-1` succeeds exactly when every `get(i)` with `i < n` succeeds; it then yields exactly `n` values with value `i` equal to `get(i)`; otherwise it fails with the error of the first `get` that failed, after all earlier ones succeeded |
| `ArrayViews.ArrayView.PrefixFailureSticks` | packages/webviz-core/src/util/binaryObjects/ArrayView.test.js:58-59 | once a read has failed, no longer walk succeeds: the failure is propagated unchanged. The cited lines show the read throwing; no test iterates a view whose read fails |
| `ArrayViews.ArrayView.Iterate` | packages/webviz-core/src/util/binaryObjects/ArrayView.test.js:71 | the cursor loop produces `Elements()`. The reader's log grows by exactly the offsets of elements `0 .. calls-1`, in order. On success `calls` is `length`, so an empty view performs no read. On failure the walk stops at the first failing element: that read fails with the returned error, and all earlier reads succeeded |
| `ArrayViews.Reader.Read` | packages/webviz-core/src/util/binaryObjects/ArrayView.test.js:16 | a read returns what the getter returns at the offset and appends the offset to the log |
| `ArrayViews.IterateTwice` | packages/webviz-core/src/util/binaryObjects/ArrayView.test.js:80 | two iteration passes over one view give the same outcome and make the same reads, so each pass restarts at index 0. This is intended behaviour; each test view is spread only once |
| `Int32ArrayViews.Int32ArrayView` | packages/webviz-core/src/util/binaryObjects/ArrayView.test.js:14-18 | the int32 view class has stride 4, and its getter succeeds exactly when four bytes remain at the offset |
| `Int32ArrayViews.Int32ArrayViewReads` | packages/webviz-core/src/util/binaryObjects/ArrayView.test.js:16-18 | the int32 view class's getter is `getInt32(offset, true)` over the buffer |
| `Int32ArrayViews.GetWithinBuffer` | packages/webviz-core/src/util/binaryObjects/ArrayView.test.js:51-59 | `get(i)` on any buffer succeeds exactly when bytes `start + 4i .. start + 4i + 3` are in the buffer, whatever the declared length; otherwise it raises a range error |
| `Int32ArrayViews.GetOfEncoded` | packages/webviz-core/src/util/binaryObjects/ArrayView.test.js:38-59 | over an encoded `Int32Array`, `get(i)` on a view starting at slot `j` returns `xs[j + i]` for any declared length; once `j + i` is past the last slot it fails with a range error |
| `Int32ArrayViews.ElementsOfEncoded` | packages/webviz-core/src/util/binaryObjects/ArrayView.test.js:74-85 | iterating a view of `n` elements from slot `j` that fits in the array yields the slice `xs[j .. j+n]` |
| `Int32ArrayViews.ElementsPastEnd` | packages/webviz-core/src/util/binaryObjects/ArrayView.test.js:58-59 | a non-empty view that declares more elements than the array holds from its start fails to iterate, with a range error. The cited lines show the read throwing; no test iterates such a view |
| `Int32ArrayViews.LengthScenarios` | packages/webviz-core/src/util/binaryObjects/ArrayView.test.js:13-34 | the length assertions of the tests, including `(0, 0)` on an empty buffer and `(12, 0)` on a 12-byte one |
| `Int32ArrayViews.GetScenarios` | packages/webviz-core/src/util/binaryObjects/ArrayView.test.js:44-45 | `(0,3).get(0) = 1` and `(0,3).get(2) = 3` |
| `Int32ArrayViews.GetOffsetScenarios` | packages/webviz-core/src/util/binaryObjects/ArrayView.test.js:47-48 | `(4,1).get(0) = 2` and `(8,1).get(0) = 3` |
| `Int32ArrayViews.NoBoundsCheckScenarios` | packages/webviz-core/src/util/binaryObjects/ArrayView.test.js:51-59 | `(0,1).get(2) = 3` although 2 is past the declared length, and `(0,3).get(4)` fails with a range error at offset 16 of the 12-byte buffer |
| `Int32ArrayViews.EmptyIterationScenarios` | packages/webviz-core/src/util/binaryObjects/ArrayView.test.js:64-84 | a zero-length view iterates to `[]` on an empty buffer (line 71) and at offset 12 of a 12-byte buffer (line 84) |
| `Int32ArrayViews.IterationScenarios` | packages/webviz-core/src/util/binaryObjects/ArrayView.test.js:74-83 | `[...(0,3)] = [1,2,3]`, `[...(4,2)] = [2,3]`, `[...(4,1)] = [2]`, `[...(8,1)] = [3]` |

## Left out

- `ArrayView.js` itself is not part of this model. Lengths, reads, the missing
  check of `get(i)` against the length, and iteration come from the test
  assertions. Two properties are intended behaviour that no test exercises: a
  fresh cursor for each iteration pass, and a failing read ending an iteration.
- Laziness: the JavaScript iterator yields one element at a time. `Iterate`
  gathers the whole outcome. Its reader's log records the reads the generator
  would perform, in order, and the first failure stops both.
- `Int32LE.EncodeInt32s` requires every element to be in the int32 range.
  `new Int32Array(xs)` accepts any numbers and wraps them modulo 2^32. That
  wrapping is not modelled; the tests only build arrays from `[]` and
  `[1, 2, 3]`.
- The exception type: the tests only check that an error is thrown. The model
  has one abstract error, `RangeError`, and does not model how it is thrown.
- Host objects `Int32Array`, `ArrayBuffer` and `DataView` are modelled as a byte
  sequence and a pure little-endian read. `Int32Array` stores in the platform's
  byte order; the model takes that order to be little-endian, as the tests do
  by reading with `getInt32(offset, true)`.
- Misconfiguration is not modelled: start offsets, lengths, indices and
  offsets are natural numbers, so negative values cannot be expressed. A stride
  of 0 is allowed and behaves as the arithmetic says; nothing validates it.
- JavaScript numbers are doubles. The model computes `start + i * stride` with
  unbounded integers, which agree with doubles for every offset a buffer can
  have.
- Flow's generic annotation `getArrayView<number>` becomes the type parameter
  `T` of `ArrayViews`. The tests' element type is `int`.
