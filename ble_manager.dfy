/** `BLEManager` (src/BluetoothPrinterLibrary/bleManager.js): owns the
    discovered device, binds the RX (write) and TX (notify) characteristics,
    routes notifications, and offers chunked writes with and without a
    response. Platform calls are inputs: the discovery result, what the GATT
    connection yields, and the outcome of every write. */
module BleManager {
  import opened Wrappers
  import opened Chunking
  import opened Text
  import opened Gatt
  import opened CommandManager

  const ServiceUuid: string := "49535343-fe7d-4ae5-8fa9-9fafd205e455"
  const RxUuid: string := "49535343-8841-43f4-a8d4-ecbe34729bb3"
  const TxUuid: string := "49535343-1e4d-4bd9-ba61-23c647249616"

  /** The fire-and-forget writer's per-write byte limit. */
  const WriteChunkSize: nat := 512

  const NotDiscovered: string := "Please call requestDevice() first."
  const NoWritableCharacteristic: string := "No writable characteristic found."
  const RxNotInitialized: string := "RX characteristic not initialized."
  /** What the `writeFn` of the `*WithResponse` wrappers throws when no RX
      characteristic is bound (it dereferences `null`). */
  const NullRxWrite: string := "Cannot read properties of null (reading 'writeValueWithResponse')"

  /** What the platform does during `connect`: `gatt.connect()`, then
      `getPrimaryService(...).getCharacteristics()`, then, if a TX
      characteristic is bound, `startNotifications()`. */
  datatype GattSession = GattSession(link: Status, characteristics: Result<seq<Characteristic>, string>, notifications: Status)

  /** The binding a scan without `break` leaves: the last match, or what was
      bound before when nothing in the list matches. */
  function Bound(chars: seq<Characteristic>, uuid: string, needsWrite: bool, previous: Option<Characteristic>): Option<Characteristic>
  {
    match LastMatch(chars, uuid, needsWrite)
    case Some(j) => Some(chars[j])
    case None => previous
  }

  /** One more characteristic examined: it becomes the binding exactly when it matches. */
  lemma BoundStep(chars: seq<Characteristic>, i: nat, uuid: string, needsWrite: bool, previous: Option<Characteristic>)
    requires i < |chars|
    ensures Bound(chars[..i + 1], uuid, needsWrite, previous) ==
              if Matches(chars[i], uuid, needsWrite) then Some(chars[i]) else Bound(chars[..i], uuid, needsWrite, previous)
  {
    assert chars[..i + 1][..i] == chars[..i];
  }

  class BLEManager {
    var device: Option<Device>
    /** `device.gatt.connected`, as the platform reports it. */
    var gattConnected: bool
    var rxCharacteristic: Option<Characteristic>
    var txCharacteristic: Option<Characteristic>
    /** How many 'characteristicvaluechanged' listeners `connect()` has added
        to the TX characteristic; none is ever removed. */
    var listeners: nat
    /** `onReceive` is set. */
    var hasReceiveCallback: bool
    const cmdManager: BLECommandManager

    ghost predicate Valid()
      reads this, cmdManager, cmdManager.collector
    {
      cmdManager.Valid()
    }

    constructor ()
      ensures Valid() && fresh(cmdManager) && fresh(cmdManager.collector)
      ensures device.None? && rxCharacteristic.None? && txCharacteristic.None?
      ensures !gattConnected && listeners == 0 && !hasReceiveCallback
      ensures cmdManager.State() == Initial(DefaultTimeoutMs)
    {
      device := None;
      gattConnected := false;
      rxCharacteristic := None;
      txCharacteristic := None;
      listeners := 0;
      hasReceiveCallback := false;
      cmdManager := new BLECommandManager();
    }

    /** `requestDevice()`: store the device the platform returns; a failed
        discovery is rethrown and leaves the stored device as it was. */
    method RequestDevice(discovery: Result<Device, string>) returns (r: Result<Device, string>)
      modifies this
      ensures r == discovery
      ensures device == if discovery.Ok? then Some(discovery.value) else old(device)
      ensures gattConnected == (old(gattConnected) && discovery.Err?)
      ensures rxCharacteristic == old(rxCharacteristic)
      ensures txCharacteristic == old(txCharacteristic) && listeners == old(listeners)
      ensures hasReceiveCallback == old(hasReceiveCallback)
    {
      if discovery.Err? {
        return discovery;
      }
      device := Some(discovery.value);
      gattConnected := false;
      r := discovery;
    }

    /** `connect()`. Every characteristic is examined and none breaks the
        scan: RX ends up bound to the last one whose lower-cased UUID is
        `RxUuid` and that can be written, TX to the last one whose UUID is
        `TxUuid`. Bindings from an earlier connection are not cleared first. */
    method Connect(session: GattSession) returns (r: Result<(), string>)
      modifies this
      ensures device == old(device) && hasReceiveCallback == old(hasReceiveCallback)
      ensures old(device).None? ==> r == Err(NotDiscovered) && gattConnected == old(gattConnected)
      ensures old(device).None? || session.link.Failed? ==>
                rxCharacteristic == old(rxCharacteristic) && txCharacteristic == old(txCharacteristic) && listeners == old(listeners)
      ensures old(device).Some? && session.link.Failed? ==> r == Err(session.link.message) && gattConnected == old(gattConnected)
      ensures old(device).Some? && session.link.Done? ==> gattConnected
      ensures old(device).Some? && session.link.Done? && session.characteristics.Err? ==>
                r == Err(session.characteristics.error) && rxCharacteristic == old(rxCharacteristic) &&
                txCharacteristic == old(txCharacteristic) && listeners == old(listeners)
      ensures old(device).Some? && session.link.Done? && session.characteristics.Ok? ==>
                var chars := session.characteristics.value;
                && rxCharacteristic == Bound(chars, RxUuid, true, old(rxCharacteristic))
                && txCharacteristic == Bound(chars, TxUuid, false, old(txCharacteristic))
                && (rxCharacteristic.None? ==> r == Err(NoWritableCharacteristic) && listeners == old(listeners))
                && (rxCharacteristic.Some? && txCharacteristic.None? ==> r == Ok(()) && listeners == old(listeners))
                && (rxCharacteristic.Some? && txCharacteristic.Some? && session.notifications.Failed? ==>
                      r == Err(session.notifications.message) && listeners == old(listeners))
                && (rxCharacteristic.Some? && txCharacteristic.Some? && session.notifications.Done? ==>
                      r == Ok(()) && listeners == old(listeners) + 1)
    {
      if device.None? {
        return Err(NotDiscovered);
      }
      if session.link.Failed? {
        return Err(session.link.message);
      }
      gattConnected := true;
      if session.characteristics.Err? {
        return Err(session.characteristics.error);
      }
      BindCharacteristics(session.characteristics.value);
      if rxCharacteristic.None? {
        return Err(NoWritableCharacteristic);
      }
      if txCharacteristic.Some? {
        if session.notifications.Failed? {
          return Err(session.notifications.message);
        }
        listeners := listeners + 1;
      }
      r := Ok(());
    }

    /** The scan inside `connect()`: every characteristic is examined and
        none breaks the loop, so each binding ends at the last match and is
        left as it was when nothing matches. */
    method BindCharacteristics(chars: seq<Characteristic>)
      modifies this
      ensures rxCharacteristic == Bound(chars, RxUuid, true, old(rxCharacteristic))
      ensures txCharacteristic == Bound(chars, TxUuid, false, old(txCharacteristic))
      ensures device == old(device) && hasReceiveCallback == old(hasReceiveCallback)
      ensures gattConnected == old(gattConnected) && listeners == old(listeners)
    {
      for i := 0 to |chars|
        invariant rxCharacteristic == Bound(chars[..i], RxUuid, true, old(rxCharacteristic))
        invariant txCharacteristic == Bound(chars[..i], TxUuid, false, old(txCharacteristic))
        invariant device == old(device) && hasReceiveCallback == old(hasReceiveCallback)
        invariant gattConnected == old(gattConnected) && listeners == old(listeners)
      {
        BoundStep(chars, i, RxUuid, true, old(rxCharacteristic));
        BoundStep(chars, i, TxUuid, false, old(txCharacteristic));
        var ch := chars[i];
        if ToLower(ch.uuid) == ToLower(RxUuid) && (ch.properties.write || ch.properties.writeWithoutResponse) {
          rxCharacteristic := Some(ch);
        }
        if ToLower(ch.uuid) == ToLower(TxUuid) {
          txCharacteristic := Some(ch);
        }
      }
      assert chars[..|chars|] == chars;
    }

    /** A notification `chunk`: every registered listener runs, in order.
        Each one hands the chunk to the command manager, and also to
        `onReceive` (as decoded text) when a callback is set and no exchange
        was pending just before; `receive` never settles an exchange, so all
        listeners see the same answer. Without a listener nothing happens. */
    method Notify(chunk: seq<byte>) returns (forwarded: seq<seq<byte>>)
      requires Valid()
      modifies cmdManager, cmdManager.collector
      ensures Valid()
      ensures cmdManager.State() == ReceiveTimes(old(cmdManager.State()), chunk, listeners)
      ensures forwarded == if hasReceiveCallback && old(cmdManager.currentResolve).None? then Copies(chunk, listeners) else []
    {
      ghost var start := cmdManager.State();
      forwarded := [];
      for j := 0 to listeners
        invariant cmdManager.Valid()
        invariant cmdManager.State() == ReceiveTimes(start, chunk, j)
        invariant forwarded == if hasReceiveCallback && start.current.None? then Copies(chunk, j) else []
      {
        ReceiveTimesStep(start, chunk, j);
        var delivered := RunListener(chunk);
        if delivered {
          forwarded := forwarded + [chunk];
        }
      }
    }

    /** One listener's body: collect the chunk, and report whether it goes
        to `onReceive`, which it does when a callback is set and no exchange
        was pending. */
    method RunListener(chunk: seq<byte>) returns (delivered: bool)
      requires Valid()
      modifies cmdManager, cmdManager.collector
      ensures Valid()
      ensures cmdManager.State() == AfterReceive(old(cmdManager.State()), chunk)
      ensures delivered <==> hasReceiveCallback && old(cmdManager.currentResolve).None?
    {
      var isCommandWaiting := cmdManager.currentResolve.Some?;
      cmdManager.Receive(chunk);
      delivered := !isCommandWaiting && hasReceiveCallback;
    }

    /** `disconnect()`: drop the link if it is up, and always cancel the
        pending exchange. The device and the bindings stay stored. */
    method Disconnect()
      requires Valid()
      modifies this, cmdManager, cmdManager.collector
      ensures Valid() && gattConnected == (old(gattConnected) && old(device).None?)
      ensures device == old(device) && rxCharacteristic == old(rxCharacteristic)
      ensures txCharacteristic == old(txCharacteristic) && listeners == old(listeners)
      ensures hasReceiveCallback == old(hasReceiveCallback)
      ensures cmdManager.State() == AfterCancel(old(cmdManager.State()))
    {
      if device.Some? && gattConnected {
        gattConnected := false;
      }
      cmdManager.Cancel();
    }

    /** The 'gattserverdisconnected' handler, run after the platform lost the
        link: it always cancels the pending exchange. */
    method OnDisconnected()
      requires Valid()
      modifies this, cmdManager, cmdManager.collector
      ensures Valid() && !gattConnected
      ensures device == old(device) && rxCharacteristic == old(rxCharacteristic)
      ensures txCharacteristic == old(txCharacteristic) && listeners == old(listeners)
      ensures hasReceiveCallback == old(hasReceiveCallback)
      ensures cmdManager.State() == AfterCancel(old(cmdManager.State()))
    {
      gattConnected := false;
      cmdManager.Cancel();
    }

    /** `writeBinary(bytes)`: without RX it throws before writing anything;
        otherwise it writes 512-byte chunks in order with
        `writeValueWithResponse` and rethrows the first write error as is.
        No response is awaited and no timer is armed. */
    method WriteBinary(results: seq<Status>, bytes: seq<byte>) returns (written: seq<seq<byte>>, r: Result<(), string>)
      requires |results| >= CeilDiv(|bytes|, WriteChunkSize)
      ensures |results| >= |Chunks(bytes, WriteChunkSize)|
      ensures rxCharacteristic.None? ==> written == [] && r == Err(RxNotInitialized)
      ensures rxCharacteristic.Some? ==>
                StoppedAtFirstFailure(bytes, WriteChunkSize, results, written, if r.Err? then Some(r.error) else None)
    {
      ChunksCount(bytes, WriteChunkSize);
      if rxCharacteristic.None? {
        return [], Err(RxNotInitialized);
      }
      var failure;
      written, failure := WriteInChunks(bytes, WriteChunkSize, results);
      r := if failure.Some? then Err(failure.value) else Ok(());
    }

    /** `writeUtf8String(text)`: `writeBinary` of the UTF-8 bytes. */
    method WriteUtf8String(results: seq<Status>, text: string) returns (written: seq<seq<byte>>, r: Result<(), string>)
      requires |results| >= CeilDiv(|Utf8Encode(text)|, WriteChunkSize)
      ensures |results| >= |Chunks(Utf8Encode(text), WriteChunkSize)|
      ensures rxCharacteristic.None? ==> written == [] && r == Err(RxNotInitialized)
      ensures rxCharacteristic.Some? ==>
                StoppedAtFirstFailure(Utf8Encode(text), WriteChunkSize, results, written, if r.Err? then Some(r.error) else None)
    {
      written, r := WriteBinary(results, Utf8Encode(text));
    }

    /** `writeBinaryWithResponse(bytes)`: `cmdManager.send` with a `writeFn`
        that writes to RX; when RX is not bound every call of it throws. */
    method WriteBinaryWithResponse(results: seq<Status>, bytes: seq<byte>) returns (written: seq<seq<byte>>, r: SendResult)
      requires Valid()
      requires |results| >= CeilDiv(|bytes|, ChunkSize)
      modifies cmdManager
      ensures Valid()
      ensures |results| >= |Chunks(bytes, ChunkSize)|
      ensures SendStep(cmdManager.State(), written, r) ==
                AfterSend(old(cmdManager.State()), if rxCharacteristic.Some? then results else NullWrites(|results|), bytes)
    {
      ChunksCount(bytes, ChunkSize);
      var effective := if rxCharacteristic.Some? then results else NullWrites(|results|);
      written, r := cmdManager.Send(effective, bytes);
    }

    /** `writeUtf8StringWithResponse(text)`. */
    method WriteUtf8StringWithResponse(results: seq<Status>, text: string) returns (written: seq<seq<byte>>, r: SendResult)
      requires Valid()
      requires |results| >= CeilDiv(|Utf8Encode(text)|, ChunkSize)
      modifies cmdManager
      ensures Valid()
      ensures |results| >= |Chunks(Utf8Encode(text), ChunkSize)|
      ensures SendStep(cmdManager.State(), written, r) ==
                AfterSend(old(cmdManager.State()), if rxCharacteristic.Some? then results else NullWrites(|results|), Utf8Encode(text))
    {
      written, r := WriteBinaryWithResponse(results, Utf8Encode(text));
    }

    /** `setReceiveCallback(callback)`. */
    method SetReceiveCallback(present: bool)
      modifies this
      ensures hasReceiveCallback == present
      ensures device == old(device) && gattConnected == old(gattConnected) && listeners == old(listeners)
      ensures rxCharacteristic == old(rxCharacteristic) && txCharacteristic == old(txCharacteristic)
    {
      hasReceiveCallback := present;
    }
  }

  /** The answers of a `writeFn` that dereferences a null RX characteristic. */
  function NullWrites(n: nat): (r: seq<Status>)
    ensures |r| == n && forall i :: 0 <= i < n ==> r[i] == Failed(NullRxWrite)
  {
    seq(n, _ => Failed(NullRxWrite))
  }
}
