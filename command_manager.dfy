/** `BLECommandManager` (src/BluetoothPrinterLibrary/bleManager.js): at most
    one request/response exchange at a time; the request goes out in 512-byte
    chunks and the response is framed by silence, using timers.

    Timers follow JavaScript: `setTimeout` returns a fresh handle, the manager
    remembers only the latest one in `timeout`, and `clearTimeout(timeout)`
    cancels only that one. A timer whose handle was overwritten without being
    cleared stays live and still fires. The live timers are a map from handle to
    what the timer does; the environment fires any live timer with `Fire`.

    Promises follow JavaScript too: each accepted `send` creates exchange number
    `k`; resolving or rejecting a promise that is already settled does nothing,
    so `settled` records which exchanges have had an outcome delivered. */
module CommandManager {
  import opened Wrappers
  import opened Chunking
  import opened Collector

  /** The per-write byte limit of `send`. */
  const ChunkSize: nat := 512
  /** The default of the constructor's `timeoutMs`: how long `send` waits for a first reply. */
  const DefaultTimeoutMs: nat := 1000
  /** The literal delay of the idle timer that `receive` arms (not `timeoutMs`). */
  const IdleDelayMs: nat := 1000

  /** What a live timer does when it fires. */
  datatype TimerKind =
    | ResponseTimer(exchange: nat, delayMs: nat)  // armed by send: rejects `exchange` with "Response timeout"
    | IdleTimer(delayMs: nat)                     // armed by receive: delivers the collected bytes

  datatype CommandError = CommandInProgress | WriteFailed(cause: string) | ResponseTimeout
  {
    /** The message of the `Error` the caller sees. */
    function Message(): string
    {
      match this
      case CommandInProgress => "A command is already in progress."
      case WriteFailed(cause) => "Write failed: " + cause
      case ResponseTimeout => "Response timeout"
    }
  }

  /** The promise `send` returned, once `send`'s own body has run. */
  datatype SendResult = Rejected(error: CommandError) | Awaiting(exchange: nat)

  /** An outcome a timer delivers to the caller of an earlier `send`. */
  datatype Settlement = Resolved(exchange: nat, response: seq<byte>) | TimedOut(exchange: nat)

  datatype ManagerState = ManagerState(
    current: Option<nat>,          // currentResolve: the exchange whose resolve is stored
    chunks: seq<seq<byte>>,        // the collector's chunks
    timers: map<nat, TimerKind>,   // live timers by handle
    timeout: Option<nat>,          // this.timeout: the latest handle
    nextHandle: nat,               // the handle the next setTimeout returns
    exchanges: nat,                // how many sends were accepted
    settled: set<nat>,             // exchanges whose promise is settled
    timeoutMs: nat)

  function Initial(timeoutMs: nat): ManagerState
  {
    ManagerState(None, [], map[], None, 0, 0, {}, timeoutMs)
  }

  /** The bookkeeping every reachable state keeps: handles and exchange
      numbers are fresh when issued, and a pending exchange is unsettled. */
  ghost predicate Inv(s: ManagerState)
  {
    && (forall h :: h in s.timers ==> h < s.nextHandle)
    && (s.timeout.Some? ==> s.timeout.value < s.nextHandle)
    && (forall h :: h in s.timers && s.timers[h].ResponseTimer? ==> s.timers[h].exchange < s.exchanges)
    && (forall k :: k in s.settled ==> k < s.exchanges)
    && (s.current.Some? ==> s.current.value < s.exchanges && s.current.value !in s.settled)
  }

  /** `clearTimeout(this.timeout)`. */
  function ClearLatest(s: ManagerState): (r: ManagerState)
    ensures forall h :: h in r.timers <==> h in s.timers && Some(h) != s.timeout
    ensures forall h :: h in r.timers ==> r.timers[h] == s.timers[h]
    ensures r == s.(timers := r.timers)
  {
    if s.timeout.Some? then s.(timers := s.timers - {s.timeout.value}) else s
  }

  /** `this.timeout = setTimeout(…)`: a new live timer under a fresh handle. */
  function ArmTimer(s: ManagerState, kind: TimerKind): (r: ManagerState)
    ensures s.nextHandle in r.timers && r.timers[s.nextHandle] == kind
    ensures forall h :: h in r.timers <==> h in s.timers || h == s.nextHandle
    ensures forall h :: h in s.timers && h != s.nextHandle ==> r.timers[h] == s.timers[h]
    ensures r == s.(timers := r.timers, timeout := Some(s.nextHandle), nextHandle := s.nextHandle + 1)
  {
    s.(timers := s.timers[s.nextHandle := kind], timeout := Some(s.nextHandle), nextHandle := s.nextHandle + 1)
  }

  datatype SendStep = SendStep(state: ManagerState, written: seq<seq<byte>>, result: SendResult)

  /** `send(writeFn, data)`, where `results[i]` is what the i-th awaited
      `writeFn(chunk)` did. */
  function AfterSend(s: ManagerState, results: seq<Status>, data: seq<byte>): (r: SendStep)
    requires Inv(s)
    requires |results| >= |Chunks(data, ChunkSize)|
    ensures Inv(r.state)
    ensures r.state.current.Some? <==> s.current.Some? || r.result.Awaiting?
    ensures s.current.Some? ==> r == SendStep(s, [], Rejected(CommandInProgress))
  {
    if s.current.Some? then SendStep(s, [], Rejected(CommandInProgress))
    else
      var k := s.exchanges;
      var all := Chunks(data, ChunkSize);
      match FirstFailed(results[..|all|])
      case Some(j) =>
        SendStep(s.(exchanges := k + 1, settled := s.settled + {k}), all[..j + 1],
                 Rejected(WriteFailed(results[j].message)))
      case None =>
        SendStep(ArmTimer(s.(current := Some(k), exchanges := k + 1), ResponseTimer(k, s.timeoutMs)),
                 all, Awaiting(k))
  }

  /** `receive(chunk)`: append, clear the latest timer, arm a new idle timer. */
  function AfterReceive(s: ManagerState, chunk: seq<byte>): (r: ManagerState)
    requires Inv(s)
    ensures Inv(r)
    ensures r.chunks == s.chunks + [chunk] && r.current == s.current && r.settled == s.settled
    ensures r.timeout == Some(s.nextHandle) && s.nextHandle in r.timers && r.timers[s.nextHandle] == IdleTimer(IdleDelayMs)
    ensures s.timeout.Some? ==> s.timeout.value !in r.timers
    ensures forall h :: h in s.timers && Some(h) != s.timeout ==> h in r.timers && r.timers[h] == s.timers[h]
    ensures forall h :: h in r.timers ==> h == s.nextHandle || (h in s.timers && Some(h) != s.timeout)
    ensures r.nextHandle == s.nextHandle + 1
    ensures r.exchanges == s.exchanges && r.timeoutMs == s.timeoutMs
  {
    ArmTimer(ClearLatest(s.(chunks := s.chunks + [chunk])), IdleTimer(IdleDelayMs))
  }

  /** `n` copies of one chunk. */
  function Copies(chunk: seq<byte>, n: nat): (r: seq<seq<byte>>)
    ensures |r| == n && forall i :: 0 <= i < n ==> r[i] == chunk
  {
    if n == 0 then [] else Copies(chunk, n - 1) + [chunk]
  }

  /** `receive(chunk)` run `n` times in a row, as `n` listeners on the same
      notification do: the chunk is collected `n` times and nothing is settled. */
  function ReceiveTimes(s: ManagerState, chunk: seq<byte>, n: nat): (r: ManagerState)
    requires Inv(s)
    ensures Inv(r)
    ensures r.chunks == s.chunks + Copies(chunk, n)
    ensures r.current == s.current && r.settled == s.settled
    ensures n > 0 ==> r.timeout == Some(r.nextHandle - 1) && r.nextHandle - 1 in r.timers
                      && r.timers[r.nextHandle - 1] == IdleTimer(IdleDelayMs)
    ensures n == 0 ==> r == s
  {
    if n == 0 then s
    else
      AfterReceive(ReceiveTimes(s, chunk, n - 1), chunk)
  }

  /** One more listener run: `ReceiveTimes` grows by one `receive`. */
  lemma ReceiveTimesStep(s: ManagerState, chunk: seq<byte>, n: nat)
    requires Inv(s)
    ensures ReceiveTimes(s, chunk, n + 1) == AfterReceive(ReceiveTimes(s, chunk, n), chunk)
  {
  }

  datatype Fired = Fired(state: ManagerState, settlement: Option<Settlement>)

  /** The callback of the live timer `handle`. A response timer clears the
      pending exchange and the collector and rejects its own exchange; an idle
      timer assembles and resets the collector and resolves whichever exchange
      is pending. Settling an already settled promise does nothing. */
  function AfterFire(s: ManagerState, handle: nat): (r: Fired)
    requires Inv(s) && handle in s.timers
    ensures Inv(r.state)
    ensures r.state.current.None? && r.state.chunks == []
    ensures handle !in r.state.timers && r.state.timers == s.timers - {handle}
    ensures s.timers[handle].IdleTimer? && s.current.Some? ==>
              r.settlement == Some(Resolved(s.current.value, Flatten(s.chunks)))
    ensures s.timers[handle].IdleTimer? && s.current.None? ==> r.settlement.None?
    ensures s.timers[handle].ResponseTimer? ==>
              r.settlement == (if s.timers[handle].exchange in s.settled then None else Some(TimedOut(s.timers[handle].exchange)))
    ensures r.settlement.Some? ==> r.settlement.value.exchange !in s.settled
    ensures r.state.settled == s.settled + (if r.settlement.Some? then {r.settlement.value.exchange} else {})
    ensures r.state.timeout == s.timeout && r.state.nextHandle == s.nextHandle
    ensures r.state.exchanges == s.exchanges && r.state.timeoutMs == s.timeoutMs
  {
    var t := s.(timers := s.timers - {handle}, current := None, chunks := []);
    match s.timers[handle]
    case ResponseTimer(k, _) =>
      if k in s.settled then Fired(t, None)
      else Fired(t.(settled := s.settled + {k}), Some(TimedOut(k)))
    case IdleTimer(_) =>
      var full := Flatten(s.chunks);
      if s.current.Some? && s.current.value !in s.settled then
        Fired(t.(settled := s.settled + {s.current.value}), Some(Resolved(s.current.value, full)))
      else Fired(t, None)
  }

  /** `cancel()`: clear the latest timer, drop the pending exchange without
      settling it, reset the collector. */
  function AfterCancel(s: ManagerState): (r: ManagerState)
    requires Inv(s)
    ensures Inv(r)
    ensures r.current.None? && r.chunks == [] && r.settled == s.settled
    ensures s.timeout.Some? ==> s.timeout.value !in r.timers
    ensures forall h :: h in r.timers <==> h in s.timers && Some(h) != s.timeout
    ensures forall h :: h in r.timers ==> r.timers[h] == s.timers[h]
    ensures r.timeout == s.timeout && r.nextHandle == s.nextHandle
    ensures r.exchanges == s.exchanges && r.timeoutMs == s.timeoutMs
  {
    ClearLatest(s).(current := None, chunks := [])
  }

  /** Every write succeeds: the payload goes out as ceil(n/512) chunks of at
      most 512 bytes that concatenate back to it (none for an empty payload),
      the exchange stays pending and its response timer is the latest one. */
  lemma SendWritesWholePayload(s: ManagerState, results: seq<Status>, data: seq<byte>)
    requires Inv(s) && s.current.None?
    requires |results| >= |Chunks(data, ChunkSize)|
    requires forall i :: 0 <= i < |Chunks(data, ChunkSize)| ==> results[i].Done?
    ensures var r := AfterSend(s, results, data);
      && r.result == Awaiting(s.exchanges)
      && Flatten(r.written) == data
      && |r.written| == CeilDiv(|data|, ChunkSize)
      && (forall c :: c in r.written ==> 0 < |c| <= ChunkSize)
      && r.state.current == Some(s.exchanges)
      && r.state.timeout == Some(s.nextHandle)
      && r.state.timers == s.timers[s.nextHandle := ResponseTimer(s.exchanges, s.timeoutMs)]
      && r.state.chunks == s.chunks
      && r.state.nextHandle == s.nextHandle + 1
      && r.state.settled == s.settled && r.state.exchanges == s.exchanges + 1
  {
    ChunksFlatten(data, ChunkSize);
    ChunksCount(data, ChunkSize);
    ChunksBounded(data, ChunkSize);
  }

  /** The write of chunk `j` fails: chunks 0..j were written in order and no
      later one, the exchange is no longer pending, the caller sees
      "Write failed: …", and no timer is armed or cleared. */
  lemma SendStopsAtFailedWrite(s: ManagerState, results: seq<Status>, data: seq<byte>, j: nat)
    requires Inv(s) && s.current.None?
    requires |results| >= |Chunks(data, ChunkSize)|
    requires j < |Chunks(data, ChunkSize)| && results[j].Failed?
    requires forall i :: 0 <= i < j ==> results[i].Done?
    ensures var r := AfterSend(s, results, data);
      && r.result == Rejected(WriteFailed(results[j].message))
      && r.result.error.Message() == "Write failed: " + results[j].message
      && r.written == Chunks(data, ChunkSize)[..j + 1]
      && r.state.current.None?
      && r.state.timers == s.timers && r.state.timeout == s.timeout
      && r.state.chunks == s.chunks
      && r.state.settled == s.settled + {s.exchanges}
      && r.state.exchanges == s.exchanges + 1 && r.state.nextHandle == s.nextHandle
      && r.state.timeoutMs == s.timeoutMs
  {
    var all := Chunks(data, ChunkSize);
    assert results[..|all|][j].Failed?;
  }

  /** No reply arrives: the response timer rejects the exchange with
      "Response timeout", clears it and resets the collector. */
  lemma SilenceTimesOut(s: ManagerState, results: seq<Status>, data: seq<byte>)
    requires Inv(s) && s.current.None?
    requires |results| >= |Chunks(data, ChunkSize)|
    requires forall i :: 0 <= i < |Chunks(data, ChunkSize)| ==> results[i].Done?
    ensures var sent := AfterSend(s, results, data).state;
      && s.nextHandle in sent.timers
      && var f := AfterFire(sent, s.nextHandle);
      && f.settlement == Some(TimedOut(s.exchanges))
      && ResponseTimeout.Message() == "Response timeout"
      && f.state.current.None? && f.state.chunks == []
  {
    SendWritesWholePayload(s, results, data);
  }

  /** Two reply chunks arrive and then the line falls silent: the second
      chunk cleared the timer the first one armed, the response timer is
      gone, and the one remaining idle timer resolves the exchange once, with
      the collected bytes followed by both chunks. */
  lemma SilenceFramesOneResponse(s: ManagerState, results: seq<Status>, data: seq<byte>, a: seq<byte>, b: seq<byte>)
    requires Inv(s) && s.current.None?
    requires |results| >= |Chunks(data, ChunkSize)|
    requires forall i :: 0 <= i < |Chunks(data, ChunkSize)| ==> results[i].Done?
    ensures var sent := AfterSend(s, results, data).state;
      var t := AfterReceive(AfterReceive(sent, a), b);
      && s.nextHandle !in t.timers && s.nextHandle + 1 !in t.timers
      && t.timeout == Some(s.nextHandle + 2) && s.nextHandle + 2 in t.timers
      && var f := AfterFire(t, s.nextHandle + 2);
      && f.settlement == Some(Resolved(s.exchanges, Flatten(s.chunks) + a + b))
      && f.state.current.None? && f.state.chunks == []
  {
    SendWritesWholePayload(s, results, data);
    var sent := AfterSend(s, results, data).state;
    IdleAfterTwoReceives(sent, a, b);
  }

  /** Two notifications while an exchange is awaited: both earlier timers are
      gone and the idle timer, when it fires, resolves that exchange with the
      collected bytes followed by both chunks. */
  lemma IdleAfterTwoReceives(u: ManagerState, a: seq<byte>, b: seq<byte>)
    requires Inv(u) && u.current.Some? && u.timeout.Some?
    ensures var t := AfterReceive(AfterReceive(u, a), b);
      && u.timeout.value !in t.timers && u.nextHandle !in t.timers
      && t.timeout == Some(u.nextHandle + 1) && u.nextHandle + 1 in t.timers
      && AfterFire(t, u.nextHandle + 1).settlement == Some(Resolved(u.current.value, Flatten(u.chunks) + a + b))
  {
    var t := AfterReceive(AfterReceive(u, a), b);
    assert t.chunks == u.chunks + [a] + [b];
    FlattenAppend(u.chunks + [a], [b]);
    FlattenAppend(u.chunks, [a]);
    assert Flatten([a]) == a by { assert [a][..0] == []; }
    assert Flatten([b]) == b by { assert [b][..0] == []; }
  }

  /** As written, every `connect()` with a TX characteristic registers one
      more listener; with two of them a notification that arrives while an
      exchange is pending is collected twice, and the exchange resolves with
      the chunk doubled. */
  lemma TwoListenersDoubleTheChunk(s: ManagerState, chunk: seq<byte>)
    requires Inv(s) && s.current.Some?
    ensures var t := ReceiveTimes(s, chunk, 2);
      && t.timeout.Some? && t.timeout.value in t.timers
      && AfterFire(t, t.timeout.value).settlement == Some(Resolved(s.current.value, Flatten(s.chunks) + chunk + chunk))
  {
    assert Copies(chunk, 2) == [chunk] + [chunk];
    assert s.chunks + ([chunk] + [chunk]) == s.chunks + [chunk] + [chunk];
    FlattenAppend(s.chunks + [chunk], [chunk]);
    FlattenAppend(s.chunks, [chunk]);
    assert Flatten([chunk]) == chunk by { assert [chunk][..0] == []; }
  }

  /** `cancel` while awaiting a reply: the response timer is cleared, the
      exchange is dropped without an outcome, and the next `send` is accepted
      as a new exchange. */
  lemma CancelThenSendAgain(s: ManagerState, results: seq<Status>, data: seq<byte>, results2: seq<Status>, data2: seq<byte>)
    requires Inv(s) && s.current.None?
    requires |results| >= |Chunks(data, ChunkSize)|
    requires forall i :: 0 <= i < |Chunks(data, ChunkSize)| ==> results[i].Done?
    requires |results2| >= |Chunks(data2, ChunkSize)|
    ensures var c := AfterCancel(AfterSend(s, results, data).state);
      && s.nextHandle !in c.timers
      && s.exchanges !in c.settled
      && AfterSend(c, results2, data2).result != Rejected(CommandInProgress)
      && AfterSend(c, results2, data2).state.exchanges == s.exchanges + 2
  {
    SendWritesWholePayload(s, results, data);
  }

  /** As written, `send` overwrites the handle of an idle timer that an
      unsolicited notification armed without clearing it; that timer then
      resolves the new exchange with the unsolicited bytes. */
  lemma UnsolicitedBytesResolveNextExchange(x: seq<byte>, data: seq<byte>)
    requires 0 < |data| <= ChunkSize
    ensures var s1 := AfterReceive(Initial(DefaultTimeoutMs), x);
      var s2 := AfterSend(s1, [Done], data);
      && s2.result == Awaiting(0)
      && 0 in s2.state.timers
      && AfterFire(s2.state, 0).settlement == Some(Resolved(0, x))
  {
    var s1 := AfterReceive(Initial(DefaultTimeoutMs), x);
    SingleChunk(data, ChunkSize);
    assert Flatten(s1.chunks) == x by { assert [x][..0] == []; }
  }

  /** As written, a response timer that outlives its exchange (its handle was
      overwritten by the next `send`) clears the next exchange when it fires;
      that exchange's reply is then dropped and its caller never gets an
      outcome: it is neither settled nor pending, and no timer for it is live. */
  lemma StaleResponseTimerStrandsNextExchange(x: seq<byte>, y: seq<byte>, data: seq<byte>)
    requires 0 < |data| <= ChunkSize
    ensures var s1 := AfterReceive(Initial(DefaultTimeoutMs), x);
      var s2 := AfterSend(s1, [Done], data).state;
      && 0 in s2.timers
      && var s3 := AfterSend(AfterFire(s2, 0).state, [Done], data);
      && s3.result == Awaiting(1)
      && 1 in s3.state.timers
      && var s4 := AfterReceive(AfterFire(s3.state, 1).state, y);
      && 3 in s4.timers
      && var f := AfterFire(s4, 3);
      && f.settlement.None?
      && 1 !in f.state.settled && f.state.current.None?
      && (forall h :: h in f.state.timers ==> f.state.timers[h] != ResponseTimer(1, DefaultTimeoutMs))
  {
    SingleChunk(data, ChunkSize);
  }

  class BLECommandManager {
    var currentResolve: Option<nat>
    const collector: Uint8ArrayCollector
    var timers: map<nat, TimerKind>
    var timeout: Option<nat>
    var nextHandle: nat
    var exchanges: nat
    var settled: set<nat>
    const timeoutMs: nat

    function State(): ManagerState
      reads this, collector
    {
      ManagerState(currentResolve, collector.chunks, timers, timeout, nextHandle, exchanges, settled, timeoutMs)
    }

    ghost predicate Valid()
      reads this, collector
    {
      Inv(State())
    }

    constructor (timeoutMs: nat := DefaultTimeoutMs)
      ensures Valid() && State() == Initial(timeoutMs) && fresh(collector)
    {
      currentResolve := None;
      collector := new Uint8ArrayCollector();
      timers := map[];
      timeout := None;
      nextHandle := 0;
      exchanges := 0;
      settled := {};
      this.timeoutMs := timeoutMs;
    }

    /** `send(writeFn, data)`: fail fast if an exchange is pending; otherwise
        store the exchange, write the chunks in order, and either reject with
        "Write failed: …" or arm the response timer. */
    method Send(results: seq<Status>, data: seq<byte>) returns (written: seq<seq<byte>>, r: SendResult)
      requires Valid()
      requires |results| >= CeilDiv(|data|, ChunkSize)
      modifies this
      ensures |results| >= |Chunks(data, ChunkSize)|
      ensures Valid()
      ensures SendStep(State(), written, r) == AfterSend(old(State()), results, data)
    {
      ChunksCount(data, ChunkSize);
      if currentResolve.Some? {
        return [], Rejected(CommandInProgress);
      }
      var k := exchanges;
      currentResolve := Some(k);
      exchanges := k + 1;
      var failure;
      written, failure := WriteInChunks(data, ChunkSize, results);
      if failure.Some? {
        currentResolve := None;
        settled := settled + {k};
        return written, Rejected(WriteFailed(failure.value));
      }
      timers := timers[nextHandle := ResponseTimer(k, timeoutMs)];
      timeout := Some(nextHandle);
      nextHandle := nextHandle + 1;
      r := Awaiting(k);
    }

    /** `receive(chunk)`, called for every notification. */
    method Receive(chunk: seq<byte>)
      requires Valid()
      modifies this, collector
      ensures Valid()
      ensures State() == AfterReceive(old(State()), chunk)
    {
      var _ := collector.Add(Uint8Array(chunk));
      if timeout.Some? {
        timers := timers - {timeout.value};
      }
      timers := timers[nextHandle := IdleTimer(IdleDelayMs)];
      timeout := Some(nextHandle);
      nextHandle := nextHandle + 1;
    }

    /** The event loop runs the callback of the live timer `handle`. */
    method Fire(handle: nat) returns (settlement: Option<Settlement>)
      requires Valid() && handle in timers
      modifies this, collector
      ensures Valid()
      ensures Fired(State(), settlement) == AfterFire(old(State()), handle)
    {
      var kind := timers[handle];
      timers := timers - {handle};
      settlement := None;
      match kind {
        case ResponseTimer(k, _) =>
          currentResolve := None;
          collector.Reset();
          if k !in settled {
            settled := settled + {k};
            settlement := Some(TimedOut(k));
          }
        case IdleTimer(_) =>
          var full := collector.Assemble();
          collector.Reset();
          if currentResolve.Some? {
            settled := settled + {currentResolve.value};
            settlement := Some(Resolved(currentResolve.value, full));
            currentResolve := None;
          }
      }
    }

    /** `cancel()`. */
    method Cancel()
      requires Valid()
      modifies this, collector
      ensures Valid()
      ensures State() == AfterCancel(old(State()))
    {
      if timeout.Some? {
        timers := timers - {timeout.value};
      }
      currentResolve := None;
      collector.Reset();
    }
  }
}
