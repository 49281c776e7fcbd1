/**
 * Lazy, zero-copy views over fixed-stride arrays inside a binary buffer.
 * `GetArrayView(getter, stride)` binds an element decoder and a byte stride
 * and gives back a constructor; each view it constructs is an immutable
 * `(start, len)` pair that decodes elements only when they are read.
 */
module ArrayViews {
  import opened Results

  /**
   * What `getArrayView(getter, stride)` returns: the constructor of views
   * that share this decoder and this stride. The decoder reads one element
   * at a byte offset and fails when the buffer does not hold it.
   */
  datatype ArrayViewClass<T> = ArrayViewClass(getter: nat -> Result<T>, stride: nat)
  {
    /** `new ArrayView(start, len)`: always succeeds, checks nothing against the buffer. */
    function New(start: nat, len: nat): (v: ArrayView<T>)
      ensures v.Length() == len
      ensures v.cls == this && v.start == start
    {
      ArrayView(this, start, len)
    }
  }

  /** The factory: binds the decoder and the stride once for every view it makes. */
  function GetArrayView<T>(getter: nat -> Result<T>, stride: nat): (c: ArrayViewClass<T>)
    ensures c.getter == getter && c.stride == stride
  {
    ArrayViewClass(getter, stride)
  }

  /** One view: a start offset in bytes and a declared element count. */
  datatype ArrayView<T> = ArrayView(cls: ArrayViewClass<T>, start: nat, len: nat)
  {
    /** `length()`: the count given at construction. */
    function Length(): (n: nat)
      ensures n == len
    {
      len
    }

    /** Byte offset of element `i`: `i` strides past `start`. */
    function OffsetOf(i: nat): (off: nat)
      ensures off == start + i * cls.stride
    {
      start + i * cls.stride
    }

    /**
     * `get(i)`: whatever the shared decoder returns at the offset of element
     * `i`, a failure included. There is no check of `i` against `len`.
     */
    function Get(i: nat): (r: Result<T>)
      ensures r == cls.getter(OffsetOf(i))
    {
      cls.getter(OffsetOf(i))
    }

    /** `get(i)` does not depend on the declared length. */
    lemma GetIgnoresLength(i: nat, n: nat)
      ensures ArrayView(cls, start, n).Get(i) == Get(i)
    {
    }

    /**
     * The outcome of reading elements `0 .. n - 1` in order: their values, or
     * the error of the first read that failed.
     */
    function Prefix(n: nat): (r: Result<seq<T>>)
      ensures r.Success? <==> forall i :: 0 <= i < n ==> Get(i).Success?
      ensures r.Success? ==> |r.value| == n && forall i :: 0 <= i < n ==> Get(i) == Success(r.value[i])
      ensures r.Failure? ==>
                exists k :: 0 <= k < n && Get(k) == Failure(r.error) && forall j :: 0 <= j < k ==> Get(j).Success?
    {
      if n == 0 then Success([])
      else
        match Prefix(n - 1)
        case Failure(e) => Failure(e)
        case Success(s) =>
          match Get(n - 1)
          case Failure(e) => Failure(e)
          case Success(x) => Success(s + [x])
    }

    /**
     * What iterating the whole view (`[...view]`) produces: `get(0) ..
     * get(len - 1)` in order, or the error of the first of them that fails.
     */
    function Elements(): (r: Result<seq<T>>)
      ensures len == 0 ==> r == Success([])
      ensures r.Success? ==> |r.value| == len && forall i :: 0 <= i < len ==> Get(i) == Success(r.value[i])
      ensures r.Failure? ==>
                exists k :: 0 <= k < len && Get(k) == Failure(r.error) && forall j :: 0 <= j < k ==> Get(j).Success?
    {
      Prefix(len)
    }

    /** The offsets of elements `0 .. n - 1`, in order. */
    function Offsets(n: nat): (r: seq<nat>)
      ensures |r| == n && forall k :: 0 <= k < n ==> r[k] == OffsetOf(k)
    {
      if n == 0 then [] else Offsets(n - 1) + [OffsetOf(n - 1)]
    }

    /** Once a prefix has failed, every longer prefix fails with the same error. */
    lemma {:induction false} PrefixFailureSticks(i: nat, m: nat)
      requires i <= m
      requires Prefix(i).Failure?
      ensures Prefix(m) == Prefix(i)
    {
      if i < m {
        PrefixFailureSticks(i, m - 1);
      }
    }

    /**
     * Iteration: a fresh cursor walks from 0 to `len - 1`, reading each element
     * through `reader` and appending it. `calls` is how many reads it made, and
     * the reader's log shows they were exactly the offsets of elements
     * `0 .. calls - 1`: none for an empty view, and a failure stops the walk at
     * the first bad element.
     */
    method Iterate(reader: Reader<T>) returns (r: Result<seq<T>>, calls: nat)
      requires reader.getter == cls.getter
      modifies reader
      ensures r == Elements()
      ensures reader.log == old(reader.log) + Offsets(calls)
      ensures r.Success? ==> calls == len
      ensures r.Failure? ==>
                0 < calls <= len && Get(calls - 1) == Failure(r.error) &&
                forall j :: 0 <= j < calls - 1 ==> Get(j).Success?
    {
      var acc: seq<T> := [];
      var i: nat := 0;
      calls := 0;
      while i < len
        invariant i <= len
        invariant calls == i
        invariant Prefix(i) == Success(acc)
        invariant reader.log == old(reader.log) + Offsets(i)
      {
        var x := reader.Read(OffsetOf(i));
        calls := calls + 1;
        if x.Failure? {
          PrefixFailureSticks(i + 1, len);
          return Failure(x.error), calls;
        }
        acc := acc + [x.value];
        i := i + 1;
      }
      r := Success(acc);
    }
  }

  /**
   * The decoder as iteration calls it: each read returns what the getter
   * returns at that offset and is appended to the log of reads so far.
   */
  class Reader<T> {
    const getter: nat -> Result<T>
    ghost var log: seq<nat>

    constructor (getter: nat -> Result<T>)
      ensures this.getter == getter && log == []
    {
      this.getter := getter;
      log := [];
    }

    method Read(off: nat) returns (r: Result<T>)
      modifies this
      ensures r == getter(off)
      ensures log == old(log) + [off]
    {
      r := getter(off);
      log := log + [off];
    }
  }

  /**
   * Iteration is restartable: two passes over the same view, each with its own
   * cursor, give the same outcome and perform the same reads.
   */
  method IterateTwice<T>(v: ArrayView<T>, reader: Reader<T>)
    returns (first: Result<seq<T>>, second: Result<seq<T>>, calls: nat)
    requires reader.getter == v.cls.getter
    modifies reader
    ensures first == second == v.Elements()
    ensures reader.log == old(reader.log) + v.Offsets(calls) + v.Offsets(calls)
  {
    var n2;
    first, calls := v.Iterate(reader);
    second, n2 := v.Iterate(reader);
    assert calls == n2;
  }
}
