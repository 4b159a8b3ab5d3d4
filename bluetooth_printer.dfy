/** The stand-alone printer component (`src/BluetoothPrinter.js`): it
    connects to a device, picks a writable and a readable characteristic,
    and streams large payloads in 200-byte chunks with a pause between
    chunks. The component's React state is the class's fields. */
module BluetoothPrinter {
  import opened Wrappers
  import opened Chunking
  import opened Text
  import opened Gatt

  const LargeChunkSize: nat := 200
  const DelayBetweenChunksMs: nat := 20

  const NoWritableFound: string := "No writable characteristic found"
  const CharacteristicNotAvailable: string := "Characteristic not available"
  const NoWriteOperation: string := "Characteristic does not support write or writeWithoutResponse operations"
  const WriteFailedPrefix: string := "Characteristic write failed: "

  /** The platform call `sendChunk` uses for a write. */
  datatype WriteMode = WithoutResponse | WithResponse

  /** `sendChunk`'s choice: `writeValueWithoutResponse` whenever that flag is
      set, otherwise `writeValueWithResponse` when `write` is set, otherwise
      no way to write. */
  function WriteModeFor(p: Properties): (r: Option<WriteMode>)
    ensures r == Some(WithoutResponse) <==> p.writeWithoutResponse
    ensures r == Some(WithResponse) <==> !p.writeWithoutResponse && p.write
    ensures r.None? <==> !p.write && !p.writeWithoutResponse
  {
    if p.writeWithoutResponse then Some(WithoutResponse)
    else if p.write then Some(WithResponse)
    else None
  }

  /** The characteristic `connectDevice` keeps always has both write flags,
      so `sendChunk` always takes its first branch for it. */
  lemma SelectedWritesWithoutResponse(chars: seq<Characteristic>, k: nat)
    requires IsSelection(chars, k)
    ensures WriteModeFor(chars[k].properties) == Some(WithoutResponse)
  {
  }

  /** `sendChunk`: `outcome` is the platform's answer to the write, used
      only when a write is issued. A missing characteristic fails before the
      `try`; every other failure is rewrapped. */
  function SendChunk(characteristic: Option<Characteristic>, outcome: Status): (r: Status)
    ensures r.Done? <==>
              characteristic.Some? && WriteModeFor(characteristic.value.properties).Some? && outcome.Done?
    ensures characteristic.None? ==> r == Failed(CharacteristicNotAvailable)
    ensures characteristic.Some? && r.Failed? ==>
              && |WriteFailedPrefix| <= |r.message|
              && r.message[..|WriteFailedPrefix|] == WriteFailedPrefix
              && r.message[|WriteFailedPrefix|..] ==
                   if WriteModeFor(characteristic.value.properties).None? then NoWriteOperation
                   else outcome.message
  {
    if characteristic.None? then Failed(CharacteristicNotAvailable)
    else
      var inner :=
        if WriteModeFor(characteristic.value.properties).None? then Failed(NoWriteOperation)
        else outcome;
      match inner
      case Done => Done
      case Failed(message) =>
        assert (WriteFailedPrefix + message)[|WriteFailedPrefix|..] == message;
        Failed(WriteFailedPrefix + message)
  }

  /** What `sendLargeData` does, in order: hand a chunk to `sendChunk`, or
      wait `ms` milliseconds. */
  datatype Event = Send(chunk: seq<byte>) | Pause(ms: nat)

  /** The chunks with a pause between every two of them. */
  function Paced(chunks: seq<seq<byte>>): seq<Event>
  {
    if |chunks| == 0 then []
    else if |chunks| == 1 then [Send(chunks[0])]
    else Paced(chunks[..|chunks| - 1]) + [Pause(DelayBetweenChunksMs), Send(chunks[|chunks| - 1])]
  }

  /** Sends sit at the even positions, in order, and pauses at the odd ones:
      a pause only ever separates two chunks and never follows the last. */
  lemma {:induction false} PacedShape(chunks: seq<seq<byte>>)
    ensures |Paced(chunks)| == if chunks == [] then 0 else 2 * |chunks| - 1
    ensures forall i :: 0 <= i < |Paced(chunks)| ==>
              Paced(chunks)[i] == if i % 2 == 0 then Send(chunks[i / 2]) else Pause(DelayBetweenChunksMs)
    decreases |chunks|
  {
    if |chunks| >= 2 {
      var init := chunks[..|chunks| - 1];
      PacedShape(init);
      var n := |chunks|;
      forall i | 0 <= i < |Paced(chunks)|
        ensures Paced(chunks)[i] == if i % 2 == 0 then Send(chunks[i / 2]) else Pause(DelayBetweenChunksMs)
      {
        if i < 2 * n - 3 {
          assert Paced(chunks)[i] == Paced(init)[i];
          if i % 2 == 0 {
            assert init[i / 2] == chunks[i / 2];
          }
        } else if i == 2 * n - 3 {
          assert i % 2 == 1;
        } else {
          assert i / 2 == n - 1;
        }
      }
    }
  }

  /** The bytes handed to `sendChunk`, in order. */
  function SentBytes(trace: seq<Event>): seq<byte>
  {
    if trace == [] then []
    else SentBytes(trace[..|trace| - 1]) + EventBytes(trace[|trace| - 1])
  }

  function EventBytes(e: Event): seq<byte>
  {
    if e.Send? then e.chunk else []
  }

  lemma {:induction false} SentBytesAppend(a: seq<Event>, b: seq<Event>)
    ensures SentBytes(a + b) == SentBytes(a) + SentBytes(b)
    decreases |b|
  {
    if b != [] {
      SentBytesAppend(a, b[..|b| - 1]);
      assert (a + b)[..|a + b| - 1] == a + b[..|b| - 1];
      assert (a + b)[|a + b| - 1] == b[|b| - 1];
    } else {
      assert a + b == a;
    }
  }

  /** Pausing adds no bytes: what reaches `sendChunk` is the chunks' concatenation. */
  lemma {:induction false} PacedSendsChunks(chunks: seq<seq<byte>>)
    ensures SentBytes(Paced(chunks)) == Flatten(chunks)
    decreases |chunks|
  {
    if |chunks| == 1 {
      FlattenCons(chunks[0], []);
    } else if |chunks| >= 2 {
      var init := chunks[..|chunks| - 1];
      var last := chunks[|chunks| - 1];
      PacedSendsChunks(init);
      SentBytesAppend(Paced(init), [Pause(DelayBetweenChunksMs), Send(last)]);
      SentBytesAppend([Pause(DelayBetweenChunksMs)], [Send(last)]);
      assert [Pause(DelayBetweenChunksMs)][..0] == [];
      FlattenAppend(init, [last]);
      FlattenCons(last, []);
      assert init + [last] == chunks;
    }
  }

  /** The error `sendLargeData` rethrows for the chunk numbered `k`. */
  function ChunkFailure(k: nat, message: string): string
  {
    "Failed to send chunk " + NatToString(k) + ": " + message
  }

  /** The result of each chunk's `sendChunk`, given the platform's answers. */
  function ChunkStatuses(characteristic: Option<Characteristic>, outcomes: seq<Status>): (r: seq<Status>)
    ensures |r| == |outcomes|
    ensures forall i :: 0 <= i < |outcomes| ==> r[i] == SendChunk(characteristic, outcomes[i])
  {
    seq(|outcomes|, i requires 0 <= i < |outcomes| => SendChunk(characteristic, outcomes[i]))
  }

  /** What `sendLargeData` has done: every 200-byte chunk up to and including
      the first one `sendChunk` rejects, paced, and either success or the
      numbered error of that chunk. */
  ghost predicate PacedUntilFirstFailure(data: seq<byte>, statuses: seq<Status>, trace: seq<Event>, r: Status)
    requires |statuses| >= |Chunks(data, LargeChunkSize)|
  {
    var all := Chunks(data, LargeChunkSize);
    match FirstFailed(statuses[..|all|])
    case None => trace == Paced(all) && r == Done
    case Some(j) => trace == Paced(all[..j + 1]) && r == Failed(ChunkFailure(j + 1, statuses[j].message))
  }

  /** The component's state. */
  class PrinterComponent {
    var selectedDevice: Option<Device>
    var characteristic: Option<Characteristic>
    var readChar: Option<Characteristic>
    var isConnected: bool
    var error: Option<string>
    /** Whether the `gattserverdisconnected` listener is registered. */
    var listening: bool
    /** `device.gatt.connected`. */
    var linkUp: bool

    constructor()
      ensures selectedDevice.None? && characteristic.None? && readChar.None?
      ensures !isConnected && error.None? && !listening && !linkUp
    {
      selectedDevice := None;
      characteristic := None;
      readChar := None;
      isConnected := false;
      error := None;
      listening := false;
      linkUp := false;
    }

    /** `connectDevice(device)`. The platform's answers are inputs: whether
        `gatt.connect()` succeeds, the service's characteristics (or the
        error `getPrimaryService`/`getCharacteristics` throws), and whether
        reading the status characteristic succeeds. The readable
        characteristic is stored before its status is read; any error
        clears the selection, removes the listener and drops the link, but
        keeps the previously stored write characteristic. */
    method ConnectDevice(device: Device, link: Status, discovered: Result<seq<Characteristic>, string>,
                         statusRead: Status)
      modifies this
      ensures isConnected <==> ConnectFailure(link, discovered, statusRead).None?
      ensures isConnected ==>
                && selectedDevice == Some(device) && error.None? && listening && linkUp
                && characteristic.Some?
                && exists k: nat :: IsSelection(discovered.value, k) && characteristic.value == discovered.value[k]
      ensures !isConnected ==>
                && selectedDevice.None? && !listening && !linkUp
                && error == ConnectFailure(link, discovered, statusRead)
                && characteristic == old(characteristic)
      ensures link.Done? && discovered.Ok? && AnyReadable(discovered.value) ==>
                readChar.Some? && exists k: nat :: IsFirstReadable(discovered.value, k) && readChar.value == discovered.value[k]
      ensures !(link.Done? && discovered.Ok? && AnyReadable(discovered.value)) ==> readChar == old(readChar)
    {
      selectedDevice := Some(device);
      error := None;
      listening := true;
      linkUp := link.Done?;
      if link.Failed? {
        Abandon(link.message);
        return;
      }
      if discovered.Err? {
        Abandon(discovered.error);
        return;
      }
      var chars := discovered.value;
      var found := SelectWritable(chars);
      var readable := FirstReadable(chars);
      if readable.Some? {
        readChar := Some(chars[readable.value]);
        if statusRead.Failed? {
          Abandon(statusRead.message);
          return;
        }
      }
      if found.None? {
        Abandon(NoWritableFound);
        return;
      }
      characteristic := Some(chars[found.value]);
      isConnected := true;
    }

    /** The `catch` of `connectDevice`. */
    method Abandon(message: string)
      modifies this
      ensures error == Some(message) && !isConnected && selectedDevice.None?
      ensures !listening && !linkUp
      ensures characteristic == old(characteristic) && readChar == old(readChar)
    {
      error := Some(message);
      isConnected := false;
      selectedDevice := None;
      listening := false;
      if linkUp {
        linkUp := false;
      }
    }

    /** `onDisconnected`, run when the platform reports the link lost: forget
        the device and the write characteristic. */
    method OnDisconnected()
      modifies this
      ensures selectedDevice.None? && characteristic.None? && !isConnected && !linkUp
      ensures readChar == old(readChar) && error == old(error) && listening == old(listening)
    {
      linkUp := false;
      selectedDevice := None;
      characteristic := None;
      isConnected := false;
    }

    /** `sendLargeData(data)`: `outcomes[i]` is the platform's answer to the
        write of chunk `i`. While bytes remain, take the next 200, send them,
        advance the offset by the chunk's length and pause if more remain;
        a failed chunk ends the transfer with its number. */
    method SendLargeData(data: seq<byte>, outcomes: seq<Status>) returns (trace: seq<Event>, r: Status)
      requires |outcomes| >= CeilDiv(|data|, LargeChunkSize)
      ensures |outcomes| >= |Chunks(data, LargeChunkSize)|
      ensures PacedUntilFirstFailure(data, ChunkStatuses(characteristic, outcomes), trace, r)
      ensures r.Done? ==> SentBytes(trace) == data
    {
      ChunksCount(data, LargeChunkSize);
      ghost var all := Chunks(data, LargeChunkSize);
      ghost var statuses := ChunkStatuses(characteristic, outcomes);
      ghost var k: nat := 0;
      var offset := 0;
      trace := [];
      if |data| > 0 {
        ChunkAt(data, LargeChunkSize, 0);
      }
      while offset < |data|
        invariant k <= |all| && offset <= |data|
        invariant offset < |data| <==> k < |all|
        invariant k < |all| ==> offset == k * LargeChunkSize
        invariant forall j :: 0 <= j < k ==> statuses[j].Done?
        invariant trace == Paced(all[..k]) + if 0 < k < |all| then [Pause(DelayBetweenChunksMs)] else []
        decreases |data| - offset
      {
        NextChunk(data, k);
        var chunk := data[offset..Min(offset + LargeChunkSize, |data|)];
        var chunkNumber := offset / LargeChunkSize + 1;
        PacedStep(all, k);
        trace := trace + [Send(chunk)];
        var status := SendChunk(characteristic, outcomes[chunkNumber - 1]);
        if status.Failed? {
          r := Failed(ChunkFailure(chunkNumber, status.message));
          StoppedAt(data, statuses, k, trace, r);
          return;
        }
        offset := offset + |chunk|;
        k := k + 1;
        if offset < |data| {
          trace := trace + [Pause(DelayBetweenChunksMs)];
        }
      }
      r := Done;
      assert all[..k] == all;
      SentEverything(data, statuses, trace);
    }
  }

  /** The arithmetic of one turn of `sendLargeData`'s loop: at offset
      `k * 200` the chunk taken is chunk `k`, its number is `k + 1`, and the
      offset it leads to is the next chunk's start, or the end. */
  lemma NextChunk(data: seq<byte>, k: nat)
    requires k < |Chunks(data, LargeChunkSize)|
    ensures k * LargeChunkSize < |data|
    ensures (k * LargeChunkSize) / LargeChunkSize + 1 == k + 1
    ensures Chunks(data, LargeChunkSize)[k] == data[k * LargeChunkSize .. Min(k * LargeChunkSize + LargeChunkSize, |data|)]
    ensures k + 1 < |Chunks(data, LargeChunkSize)| ==>
              Min(k * LargeChunkSize + LargeChunkSize, |data|) == (k + 1) * LargeChunkSize < |data|
    ensures k + 1 == |Chunks(data, LargeChunkSize)| ==>
              Min(k * LargeChunkSize + LargeChunkSize, |data|) == |data|
  {
    ChunkAt(data, LargeChunkSize, k);
    if k + 1 < |Chunks(data, LargeChunkSize)| {
      ChunkAt(data, LargeChunkSize, k + 1);
    } else {
      ChunksCountBounds(data, LargeChunkSize);
    }
  }

  lemma StoppedAt(data: seq<byte>, statuses: seq<Status>, k: nat, trace: seq<Event>, r: Status)
    requires k < |Chunks(data, LargeChunkSize)| <= |statuses|
    requires statuses[k].Failed? && forall j :: 0 <= j < k ==> statuses[j].Done?
    requires trace == Paced(Chunks(data, LargeChunkSize)[..k + 1])
    requires r == Failed(ChunkFailure(k + 1, statuses[k].message))
    ensures PacedUntilFirstFailure(data, statuses, trace, r)
  {
    FirstFailedAt(statuses[..|Chunks(data, LargeChunkSize)|], k);
  }

  lemma SentEverything(data: seq<byte>, statuses: seq<Status>, trace: seq<Event>)
    requires |Chunks(data, LargeChunkSize)| <= |statuses|
    requires forall j :: 0 <= j < |Chunks(data, LargeChunkSize)| ==> statuses[j].Done?
    requires trace == Paced(Chunks(data, LargeChunkSize))
    ensures PacedUntilFirstFailure(data, statuses, trace, Done)
    ensures SentBytes(trace) == data
  {
    FirstFailedNone(statuses[..|Chunks(data, LargeChunkSize)|]);
    PacedSendsChunks(Chunks(data, LargeChunkSize));
    ChunksFlatten(data, LargeChunkSize);
  }

  /** Whether any characteristic has `read`. */
  predicate AnyReadable(chars: seq<Characteristic>)
  {
    exists k: nat :: 0 <= k < |chars| && chars[k].properties.read
  }

  /** Whether any characteristic has both write flags. */
  predicate AnyWritable(chars: seq<Characteristic>)
  {
    exists k: nat :: 0 <= k < |chars| && Writable(chars[k])
  }

  /** The error `connectDevice` ends with, in the order its steps can fail. */
  function ConnectFailure(link: Status, discovered: Result<seq<Characteristic>, string>,
                          statusRead: Status): (r: Option<string>)
    ensures r.None? <==>
              && link.Done? && discovered.Ok?
              && (AnyReadable(discovered.value) ==> statusRead.Done?)
              && AnyWritable(discovered.value)
    ensures link.Failed? ==> r == Some(link.message)
    ensures link.Done? && discovered.Err? ==> r == Some(discovered.error)
    ensures link.Done? && discovered.Ok? && AnyReadable(discovered.value) && statusRead.Failed? ==>
              r == Some(statusRead.message)
    ensures link.Done? && discovered.Ok? && (AnyReadable(discovered.value) ==> statusRead.Done?) &&
            !AnyWritable(discovered.value) ==>
              r == Some(NoWritableFound)
  {
    if link.Failed? then Some(link.message)
    else if discovered.Err? then Some(discovered.error)
    else if AnyReadable(discovered.value) && statusRead.Failed? then Some(statusRead.message)
    else if !AnyWritable(discovered.value) then Some(NoWritableFound)
    else None
  }

  /** One more chunk extends the paced trace by a pause (if chunks were sent
      before) and the chunk. */
  lemma PacedStep(all: seq<seq<byte>>, k: nat)
    requires k < |all|
    ensures Paced(all[..k + 1]) ==
              Paced(all[..k]) + (if 0 < k then [Pause(DelayBetweenChunksMs)] else []) + [Send(all[k])]
  {
    if k > 0 {
      assert all[..k + 1][..k] == all[..k];
    }
  }

  lemma {:induction false} FirstFailedAt(results: seq<Status>, k: nat)
    requires k < |results| && results[k].Failed?
    requires forall j :: 0 <= j < k ==> results[j].Done?
    ensures FirstFailed(results) == Some(k)
    decreases k
  {
    if k > 0 {
      FirstFailedAt(results[1..], k - 1);
    }
  }

  lemma {:induction false} FirstFailedNone(results: seq<Status>)
    requires forall j :: 0 <= j < |results| ==> results[j].Done?
    ensures FirstFailed(results) == None
    decreases |results|
  {
    if results != [] {
      FirstFailedNone(results[1..]);
    }
  }

  /** The fields `decodePrinterStatus` returns: each is its byte masked by
      one bit, so it is either 0 or that bit's value. */
  datatype PrinterStatus = PrinterStatus(operationComplete: bv8, errorOccurred: bv8, paperOut: bv8)

  /** `uint8Array[i]`, where a missing byte (`undefined`) masks to 0. */
  function ByteAt(raw: seq<byte>, i: nat): bv8
  {
    if i < |raw| then raw[i] as bv8 else 0
  }

  function DecodePrinterStatus(raw: seq<byte>): (s: PrinterStatus)
    ensures s.operationComplete == 0 || s.operationComplete == 0x01
    ensures s.errorOccurred == 0 || s.errorOccurred == 0x02
    ensures s.paperOut == 0 || s.paperOut == 0x04
  {
    PrinterStatus(ByteAt(raw, 0) & 0x01, ByteAt(raw, 1) & 0x02, ByteAt(raw, 2) & 0x04)
  }

  /** The same fields by arithmetic: bit 0 of byte 0, bit 1 of byte 1 and
      bit 2 of byte 2, each at its own weight; bytes past the end read as 0. */
  lemma DecodeReadsStatusBits(raw: seq<byte>)
    ensures DecodePrinterStatus(raw).operationComplete as int ==
              if |raw| > 0 then raw[0] as int % 2 else 0
    ensures DecodePrinterStatus(raw).errorOccurred as int ==
              if |raw| > 1 then (raw[1] as int / 2) % 2 * 2 else 0
    ensures DecodePrinterStatus(raw).paperOut as int ==
              if |raw| > 2 then (raw[2] as int / 4) % 2 * 4 else 0
  {
  }
}
