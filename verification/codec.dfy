/** Measure-then-write encoding of one frame. The serializer is driven twice;
    each time it hands over the record in chunks of its choice. */
module FrameCodec {
  import opened Rows

  type Byte = b: int | 0 <= b < 256

  /** First drive: count the bytes, failing as soon as they exceed the limit. */
  class Counter {
    const limit: nat
    var bytes: nat

    constructor (limit: nat)
      ensures this.limit == limit && bytes == 0
    {
      this.limit, bytes := limit, 0;
    }

    method Write(chunk: seq<Byte>) returns (ok: bool)
      modifies this
      ensures bytes == old(bytes) + |chunk| && (ok <==> bytes <= limit)
    {
      bytes := bytes + |chunk|;
      ok := bytes <= limit;
    }
  }

  /** Second drive: fill storage of exactly the measured size. */
  class FrameWriter {
    const limit: nat
    var bytes: seq<Byte>

    constructor (limit: nat)
      ensures this.limit == limit && bytes == []
    {
      this.limit, bytes := limit, [];
    }

    method Write(chunk: seq<Byte>) returns (ok: bool)
      requires |bytes| <= limit
      modifies this
      ensures ok <==> |old(bytes)| + |chunk| <= limit
      ensures bytes == if ok then old(bytes) + chunk else old(bytes)
    {
      ok := |chunk| <= limit - |bytes|;
      if ok {
        bytes := bytes + chunk;
      }
    }
  }

  lemma FlattenPrefix<T>(chunks: seq<seq<T>>, n: nat)
    requires n < |chunks|
    ensures Flatten(chunks[..n + 1]) == Flatten(chunks[..n]) + chunks[n]
    ensures |Flatten(chunks[..n + 1])| <= |Flatten(chunks)|
  {
    assert chunks[..n + 1] == chunks[..n] + [chunks[n]];
    FlattenSnoc(chunks[..n], chunks[n]);
    assert chunks == chunks[..n + 1] + chunks[n + 1..];
    FlattenConcat(chunks[..n + 1], chunks[n + 1..]);
  }

  /** `measured` and `written` are the chunks of the two drives, `limit` the live
      byte limit, and `reserved` whether the frame reservation is granted. The
      encoding succeeds iff the record fits, is reserved, and did not change its
      size; then it is the second drive's bytes, with the working space charged. */
  method EncodeFrame(measured: seq<seq<Byte>>, written: seq<seq<Byte>>, limit: nat, reserved: bool)
    returns (result: Outcome<seq<Byte>>, charge: nat)
    ensures result.Ok? <==>
      |Flatten(measured)| <= limit && reserved && |Flatten(written)| == |Flatten(measured)|
    ensures result.Ok? ==> result.value == Flatten(written) && charge == 3 * |result.value| + 32
    ensures !result.Ok? ==> charge == 0
    ensures result == Err(MemoryBudget) <==> |Flatten(measured)| <= limit && !reserved
    ensures result.Ok? || result == Err(MemoryBudget) || result == Err(Encode)
  {
    charge := 0;
    var count := new Counter(limit);
    var n := 0;
    while n < |measured|
      invariant n <= |measured| && count.bytes == |Flatten(measured[..n])| <= limit
    {
      FlattenPrefix(measured, n);
      var counted := count.Write(measured[n]);
      if !counted {
        return Err(Encode), 0;
      }
      n := n + 1;
    }
    assert measured[..n] == measured;
    if !reserved {
      return Err(MemoryBudget), 0;
    }
    var writer := new FrameWriter(count.bytes);
    n := 0;
    while n < |written|
      invariant count.bytes == |Flatten(measured)| == writer.limit
      invariant n <= |written| && writer.bytes == Flatten(written[..n]) && |writer.bytes| <= writer.limit
    {
      FlattenPrefix(written, n);
      var stored := writer.Write(written[n]);
      if !stored {
        return Err(Encode), 0;
      }
      n := n + 1;
    }
    assert written[..n] == written;
    if |writer.bytes| != count.bytes {
      return Err(Encode), 0;
    }
    result, charge := Ok(writer.bytes), 3 * |writer.bytes| + 32;
  }
}
