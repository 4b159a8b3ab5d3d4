/** Byte buffers, their concatenation, and the fixed-size slicing that every
    writer in the library uses to respect the per-write byte limit. */
module Chunking {
  import opened Wrappers

  /** One element of a `Uint8Array`. */
  newtype byte = b: int | 0 <= b < 0x100

  function Min(a: nat, b: nat): nat { if a <= b then a else b }

  /** The in-order concatenation of `chunks`. */
  function Flatten(chunks: seq<seq<byte>>): seq<byte>
  {
    if chunks == [] then [] else Flatten(chunks[..|chunks| - 1]) + chunks[|chunks| - 1]
  }

  /** The sum of the chunk lengths (the `reduce` in `assemble`). */
  function TotalLength(chunks: seq<seq<byte>>): nat
  {
    if chunks == [] then 0 else TotalLength(chunks[..|chunks| - 1]) + |chunks[|chunks| - 1]|
  }

  lemma {:induction false} FlattenLength(chunks: seq<seq<byte>>)
    ensures |Flatten(chunks)| == TotalLength(chunks)
  {
    if chunks != [] {
      FlattenLength(chunks[..|chunks| - 1]);
    }
  }

  lemma {:induction false} FlattenAppend(a: seq<seq<byte>>, b: seq<seq<byte>>)
    ensures Flatten(a + b) == Flatten(a) + Flatten(b)
  {
    if b == [] {
      assert a + b == a;
    } else {
      var n := |b| - 1;
      assert (a + b)[..|a + b| - 1] == a + b[..n];
      FlattenAppend(a, b[..n]);
    }
  }

  /** The first `k + 1` chunks concatenate to the first `k` followed by
      chunk `k`, and that prefix is no longer than the whole. */
  lemma FlattenPrefix(chunks: seq<seq<byte>>, k: nat)
    requires k < |chunks|
    ensures Flatten(chunks[..k + 1]) == Flatten(chunks[..k]) + chunks[k]
    ensures |Flatten(chunks[..k + 1])| <= |Flatten(chunks)|
  {
    assert chunks[..k + 1][..k] == chunks[..k];
    FlattenAppend(chunks[..k + 1], chunks[k + 1..]);
    assert chunks[..k + 1] + chunks[k + 1..] == chunks;
  }

  lemma FlattenCons(c: seq<byte>, rest: seq<seq<byte>>)
    ensures Flatten([c] + rest) == c + Flatten(rest)
  {
    FlattenAppend([c], rest);
    assert Flatten([c]) == Flatten([]) + c;
  }

  /** `Math.ceil(len / size)` on naturals: the least `c` with `c * size >= len`. */
  function CeilDiv(len: nat, size: nat): (c: nat)
    requires size > 0
    ensures len == 0 ==> c == 0
    ensures len > 0 ==> (c - 1) * size < len <= c * size
  {
    var m := len + size - 1;
    assert m == (m / size) * size + m % size;
    assert (m / size - 1) * size == (m / size) * size - size;
    m / size
  }

  /** Only one count meets the ceiling's characterisation. */
  lemma CeilDivUnique(len: nat, size: nat, c: nat)
    requires size > 0 && len > 0
    requires (c - 1) * size < len <= c * size
    ensures c == CeilDiv(len, size)
  {
    var d := CeilDiv(len, size);
    if c < d {
      MulMonotone(c, d - 1, size);
    } else if d < c {
      MulMonotone(d, c - 1, size);
    }
  }

  lemma MulMonotone(a: nat, b: nat, k: nat)
    requires a <= b
    ensures a * k <= b * k
  {
  }

  /** The slices `data[i*size .. min(i*size + size, |data|)]` for
      i = 0, 1, …: every writer of the library sends exactly these. */
  function Chunks(data: seq<byte>, size: nat): seq<seq<byte>>
    requires size > 0
    decreases |data|
  {
    if |data| == 0 then []
    else [data[..Min(size, |data|)]] + Chunks(data[Min(size, |data|)..], size)
  }

  /** Concatenating the chunks gives the payload back, bit for bit. */
  lemma {:induction false} ChunksFlatten(data: seq<byte>, size: nat)
    requires size > 0
    ensures Flatten(Chunks(data, size)) == data
    decreases |data|
  {
    if |data| > 0 {
      var k := Min(size, |data|);
      ChunksFlatten(data[k..], size);
      FlattenCons(data[..k], Chunks(data[k..], size));
      assert data[..k] + data[k..] == data;
    }
  }

  /** Every chunk is non-empty and at most `size` bytes long. */
  lemma {:induction false} ChunksBounded(data: seq<byte>, size: nat)
    requires size > 0
    ensures forall c :: c in Chunks(data, size) ==> 0 < |c| <= size
    decreases |data|
  {
    if |data| > 0 {
      ChunksBounded(data[Min(size, |data|)..], size);
    }
  }

  /** There are `ceil(|data| / size)` chunks; an empty payload has none. */
  lemma ChunksCount(data: seq<byte>, size: nat)
    requires size > 0
    ensures |Chunks(data, size)| == CeilDiv(|data|, size)
  {
    if |data| > 0 {
      ChunksCountBounds(data, size);
      CeilDivUnique(|data|, size, |Chunks(data, size)|);
    }
  }

  lemma {:induction false} ChunksCountBounds(data: seq<byte>, size: nat)
    requires size > 0 && |data| > 0
    ensures (|Chunks(data, size)| - 1) * size < |data| <= |Chunks(data, size)| * size
    decreases |data|
  {
    var k := Min(size, |data|);
    var c := |Chunks(data, size)|;
    if |data| > size {
      ChunksCountBounds(data[k..], size);
      assert c * size == (c - 1) * size + size;
      assert (c - 1) * size == (c - 2) * size + size;
    }
  }

  /** A payload that fits in one write is sent as itself. */
  lemma SingleChunk(data: seq<byte>, size: nat)
    requires 0 < |data| <= size
    ensures Chunks(data, size) == [data]
  {
    assert data[..Min(size, |data|)] == data;
    assert data[Min(size, |data|)..] == [];
  }

  /** Chunk `i` starts at byte `i * size` and ends at `min(i*size + size, |data|)`. */
  lemma {:induction false} ChunkAt(data: seq<byte>, size: nat, i: nat)
    requires size > 0
    requires i < |Chunks(data, size)|
    ensures i * size < |data|
    ensures Chunks(data, size)[i] == data[i * size .. Min(i * size + size, |data|)]
    decreases i
  {
    if i > 0 {
      assert |data| > size;
      var rest := data[size..];
      assert Chunks(data, size)[i] == Chunks(rest, size)[i - 1];
      ChunkAt(rest, size, i - 1);
      MulSucc(i, size);
      SliceOfSuffix(data, size, (i - 1) * size);
    }
  }

  lemma MulSucc(i: nat, size: nat)
    requires i > 0
    ensures i * size == (i - 1) * size + size
  {
  }

  /** Slicing after dropping the first `size` bytes is slicing further on. */
  lemma SliceOfSuffix(data: seq<byte>, size: nat, j: nat)
    requires size <= |data| && j < |data| - size
    ensures data[size..][j .. Min(j + size, |data| - size)] == data[j + size .. Min(j + size + size, |data|)]
  {
  }

  /** The position of the first failed write in `results`, if any. */
  function FirstFailed(results: seq<Status>): (r: Option<nat>)
    ensures r.Some? ==> r.value < |results| && results[r.value].Failed?
    ensures r.Some? ==> forall i :: 0 <= i < r.value ==> results[i].Done?
    ensures r.None? ==> forall i :: 0 <= i < |results| ==> results[i].Done?
  {
    if results == [] then None
    else if results[0].Failed? then Some(0)
    else match FirstFailed(results[1..])
      case None => None
      case Some(j) => Some(j + 1)
  }

  /** What a sequential chunked write loop that stops at the first error has
      done: the chunks handed to the write primitive, in order (the failing
      one included), and the message of the error that stopped it. */
  ghost predicate StoppedAtFirstFailure(data: seq<byte>, size: nat, results: seq<Status>,
                                        written: seq<seq<byte>>, failure: Option<string>)
    requires size > 0
    requires |results| >= |Chunks(data, size)|
  {
    var all := Chunks(data, size);
    match FirstFailed(results[..|all|])
    case None => written == all && failure == None
    case Some(j) => written == all[..j + 1] && failure == Some(results[j].message)
  }

  /** The loop shared by `send` and `writeBinary`: for i in 0 ..< ceil(n/size),
      write `data[i*size .. min(i*size + size, n)]` and await it; the first
      write that throws ends the loop. `results[i]` is the platform's answer
      to the i-th write. */
  method WriteInChunks(data: seq<byte>, size: nat, results: seq<Status>)
    returns (written: seq<seq<byte>>, failure: Option<string>)
    requires size > 0
    requires |results| >= CeilDiv(|data|, size)
    ensures |results| >= |Chunks(data, size)|
    ensures StoppedAtFirstFailure(data, size, results, written, failure)
  {
    ChunksCount(data, size);
    var totalChunks := CeilDiv(|data|, size);
    ghost var all := Chunks(data, size);
    written := [];
    for i := 0 to totalChunks
      invariant written == all[..i]
      invariant forall j :: 0 <= j < i ==> results[j].Done?
    {
      var start := i * size;
      ChunkAt(data, size, i);
      var end := Min(start + size, |data|);
      var chunk := data[start..end];
      written := written + [chunk];
      if results[i].Failed? {
        failure := Some(results[i].message);
        assert results[..|all|][i].Failed?;
        return;
      }
    }
    failure := None;
    assert written == all;
  }

  /** `target.set(src, offset)` on a typed array: the bytes at
      `offset .. offset + |src|` become `src`, the rest stays. */
  method SetAt(target: array<byte>, src: seq<byte>, offset: nat)
    requires offset + |src| <= target.Length
    modifies target
    ensures target[..] == old(target[..offset]) + src + old(target[offset + |src|..])
  {
    for j := 0 to |src|
      invariant forall m :: 0 <= m < j ==> target[offset + m] == src[m]
      invariant forall m :: 0 <= m < target.Length && !(offset <= m < offset + j) ==> target[m] == old(target[m])
    {
      target[offset + j] := src[j];
    }
    assert target[..] == old(target[..offset]) + src + old(target[offset + |src|..]);
  }
}
