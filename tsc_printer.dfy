/** The TSC label-printer component (`src/TSCBluetoothPrinter.js`): it
    picks a writable characteristic with the same rule as the other printer
    component and writes commands in 180-byte chunks, carrying on past a
    chunk whose write fails. */
module TscPrinter {
  import opened Wrappers
  import opened Chunking
  import opened Text
  import opened Gatt

  /** The chunk size, chosen to fit the smallest MTU iOS negotiates. */
  const TscChunkSize: nat := 180

  /** The messages of the failed writes, in order: what `sendCommand` logs. */
  function FailureMessages(outcomes: seq<Status>): (r: seq<string>)
    ensures |r| <= |outcomes|
    ensures |r| == 0 <==> forall i :: 0 <= i < |outcomes| ==> outcomes[i].Done?
  {
    if outcomes == [] then []
    else
      var init := FailureMessages(outcomes[..|outcomes| - 1]);
      assert forall i :: 0 <= i < |outcomes| - 1 ==> outcomes[..|outcomes| - 1][i] == outcomes[i];
      match outcomes[|outcomes| - 1]
      case Done => init
      case Failed(message) => init + [message]
  }

  /** One more write extends the log by its message exactly when it failed. */
  lemma LogStep(outcomes: seq<Status>, k: nat)
    requires k < |outcomes|
    ensures FailureMessages(outcomes[..k + 1]) ==
              FailureMessages(outcomes[..k]) + if outcomes[k].Failed? then [outcomes[k].message] else []
  {
    assert outcomes[..k + 1][..k] == outcomes[..k];
  }

  class TscComponent {
    var device: Option<Device>
    var characteristic: Option<Characteristic>

    constructor()
      ensures device.None? && characteristic.None?
    {
      device := None;
      characteristic := None;
    }

    /** `connectToPrinter()`: `discovery` is what `requestDevice` returns
        and `discovered` the service's characteristics (or the error any
        step up to `getCharacteristics` throws). Device and characteristic
        are stored only when a writable characteristic is found; every
        error is caught and only logged. */
    method ConnectToPrinter(discovery: Result<Device, string>, discovered: Result<seq<Characteristic>, string>)
      modifies this
      ensures discovery.Ok? && discovered.Ok? && (exists k: nat :: IsSelection(discovered.value, k)) ==>
                && device == Some(discovery.value)
                && characteristic.Some?
                && exists k: nat :: IsSelection(discovered.value, k) && characteristic.value == discovered.value[k]
      ensures !(discovery.Ok? && discovered.Ok? && (exists k: nat :: IsSelection(discovered.value, k))) ==>
                device == old(device) && characteristic == old(characteristic)
    {
      if discovery.Err? || discovered.Err? {
        return;
      }
      var chars := discovered.value;
      var found := SelectWritable(chars);
      if found.Some? {
        device := Some(discovery.value);
        characteristic := Some(chars[found.value]);
      }
    }

    /** `sendCommand(command)`: without a characteristic nothing is written.
        Otherwise the UTF-8 bytes are written as `data[i .. i+180]` for
        i = 0, 180, …; `outcomes[j]` is the platform's answer to write `j`.
        A failed write is logged and the loop moves on, so every chunk is
        written. */
    method SendCommand(command: string, outcomes: seq<Status>) returns (written: seq<seq<byte>>, logged: seq<string>)
      requires characteristic.Some? ==> |outcomes| >= CeilDiv(|Utf8Encode(command)|, TscChunkSize)
      ensures characteristic.None? ==> written == [] && logged == []
      ensures characteristic.Some? ==>
                && written == Chunks(Utf8Encode(command), TscChunkSize)
                && Flatten(written) == Utf8Encode(command)
                && |written| <= |outcomes|
                && logged == FailureMessages(outcomes[..|written|])
    {
      if characteristic.None? {
        return [], [];
      }
      var data := Utf8Encode(command);
      ChunksCount(data, TscChunkSize);
      ghost var all := Chunks(data, TscChunkSize);
      written := [];
      logged := [];
      var i := 0;
      ghost var k: nat := 0;
      if |data| > 0 {
        ChunkAt(data, TscChunkSize, 0);
      }
      while i < |data|
        invariant k <= |all|
        invariant i < |data| <==> k < |all|
        invariant k < |all| ==> i == k * TscChunkSize
        invariant written == all[..k]
        invariant logged == FailureMessages(outcomes[..k])
        decreases |all| - k
      {
        NextTscChunk(data, k);
        var chunk := data[i..Min(i + TscChunkSize, |data|)];
        assert chunk == all[k];
        assert all[..k + 1] == all[..k] + [all[k]];
        written := written + [chunk];
        var outcome := outcomes[i / TscChunkSize];
        LogStep(outcomes, k);
        if outcome.Failed? {
          logged := logged + [outcome.message];
        }
        i := i + TscChunkSize;
        k := k + 1;
      }
      assert all[..k] == all;
      ChunksFlatten(data, TscChunkSize);
      assert written == Chunks(Utf8Encode(command), TscChunkSize);
    }
  }

  /** The arithmetic of one turn of `sendCommand`'s loop: at `i = k * 180`
      the slice taken is chunk `k`, and `i + 180` is at or past the end
      exactly when it was the last chunk. */
  lemma NextTscChunk(data: seq<byte>, k: nat)
    requires k < |Chunks(data, TscChunkSize)|
    ensures k * TscChunkSize < |data|
    ensures (k * TscChunkSize) / TscChunkSize == k
    ensures Chunks(data, TscChunkSize)[k] == data[k * TscChunkSize .. Min(k * TscChunkSize + TscChunkSize, |data|)]
    ensures k + 1 < |Chunks(data, TscChunkSize)| <==> (k + 1) * TscChunkSize < |data|
  {
    ChunkAt(data, TscChunkSize, k);
    if k + 1 < |Chunks(data, TscChunkSize)| {
      ChunkAt(data, TscChunkSize, k + 1);
    } else {
      ChunksCountBounds(data, TscChunkSize);
    }
  }
}
