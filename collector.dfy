/** `Uint8ArrayCollector` (src/BluetoothPrinterLibrary/bleManager.js): an
    ordered list of received byte chunks that can be glued into one buffer. */
module Collector {
  import opened Wrappers
  import opened Chunking

  /** The argument of `add`: a `Uint8Array` or any other JavaScript value. */
  datatype JsValue = Uint8Array(bytes: seq<byte>) | OtherValue

  /** The message of the `TypeError` that `add` throws for a non-`Uint8Array`. */
  const OnlyUint8Array: string := "Only Uint8Array allowed"

  class Uint8ArrayCollector {
    /** The chunks added since the last reset, in arrival order. */
    var chunks: seq<seq<byte>>

    constructor ()
      ensures chunks == []
    {
      chunks := [];
    }

    /** Appends a `Uint8Array`; anything else throws a `TypeError` and
        leaves the list as it was. */
    method Add(chunk: JsValue) returns (r: Result<(), string>)
      modifies this
      ensures r.Ok? <==> chunk.Uint8Array?
      ensures r.Err? ==> r.error == OnlyUint8Array
      ensures chunks == if chunk.Uint8Array? then old(chunks) + [chunk.bytes] else old(chunks)
    {
      if !chunk.Uint8Array? {
        return Err(OnlyUint8Array);
      }
      chunks := chunks + [chunk.bytes];
      r := Ok(());
    }

    /** Sums the chunk lengths, allocates a buffer of that size and copies
        each chunk in at a running offset. The list itself is not touched. */
    method Assemble() returns (result: seq<byte>)
      ensures result == Flatten(chunks)
      ensures |result| == TotalLength(chunks)
    {
      var totalLength := 0;
      for k := 0 to |chunks|
        invariant totalLength == TotalLength(chunks[..k])
      {
        assert chunks[..k + 1][..k] == chunks[..k];
        totalLength := totalLength + |chunks[k]|;
      }
      assert chunks[..|chunks|] == chunks;
      FlattenLength(chunks);
      var buffer := new byte[totalLength];
      var offset := 0;
      for k := 0 to |chunks|
        invariant offset == |Flatten(chunks[..k])|
        invariant buffer.Length == totalLength && offset <= totalLength
        invariant buffer[..offset] == Flatten(chunks[..k])
      {
        FlattenPrefix(chunks, k);
        ghost var before := buffer[..];
        SetAt(buffer, chunks[k], offset);
        assert buffer[..offset + |chunks[k]|] == before[..offset] + chunks[k];
        offset := offset + |chunks[k]|;
      }
      result := buffer[..];
    }

    /** Forgets every chunk; resetting twice is the same as once. */
    method Reset()
      modifies this
      ensures chunks == []
    {
      chunks := [];
    }
  }
}
