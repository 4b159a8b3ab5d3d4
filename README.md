# BluetoothPrinterWebApp in Dafny

This project models the printing side of BluetoothPrinterWebApp, a React web
application that drives TSC label printers over Web Bluetooth (BLE). It
proves properties of that model.

The heart of the application is the transport library
`src/BluetoothPrinterLibrary/bleManager.js`:

- **`Uint8ArrayCollector`** gathers response bytes.
- **`BLECommandManager`** allows one request/response exchange at a time. It writes the request in 512-byte chunks, then frames the reply by silence: a timer is re-armed on every incoming chunk.
- **`BLEManager`** binds the RX and TX characteristics. It routes notifications, and it writes fire-and-forget or through the command manager.

Three other pieces of the application are modelled as well:

- **`src/BluetoothPrinterLibrary/index.js`** turns printer statements (TEXT, BARCODE, BLOCK, PUTPCX, DOWNLOAD…) into strings. It also lays out the DOWNLOAD + bitmap + PUTPCX buffer.
- **`src/BluetoothPrinter.js`** is a component that picks a writable characteristic and streams data in 200-byte chunks with a pause between them.
- **`src/TSCBluetoothPrinter.js`** uses the same selection rule and writes in 180-byte chunks, carrying on past a failed chunk.

Files:

| file | contents |
|---|---|
| `wrappers.dfy` | `Option`, `Result`, and `Status` (a platform call that completed or threw a message) |
| `chunking.dfy` | bytes, concatenation, `ceil`, the `data[i*size .. (i+1)*size]` split, the stop-at-first-failure write loop, typed-array `set` |
| `text.dfy` | UTF-8 encoding and decimal rendering of naturals |
| `collector.dfy` | `Uint8ArrayCollector` as a class |
| `command_manager.dfy` | `BLECommandManager`: a value-level state machine (`AfterSend`, `AfterReceive`, `AfterFire`, `AfterCancel`), scenario lemmas, and the class whose methods follow it |
| `gatt.dfy` | characteristic records, the "prefer a UUID ending in bb3" selection, the last-match binding and the first-readable scan |
| `ble_manager.dfy` | `BLEManager` as a class |
| `printer_library.dfy` | the index.js builders, the PCX buffer and the wrappers around the shared manager |
| `bluetooth_printer.dfy` | the `BluetoothPrinter.js` component |
| `tsc_printer.dfy` | the `TSCBluetoothPrinter.js` component |

Platform calls are inputs to the model:

- The result of each write is an element of a `seq<Status>`; `results[i]` answers the i-th write.
- What `requestDevice`, `gatt.connect`, `getCharacteristics`, `startNotifications` and `readValue` return or throw is a parameter.
- `setTimeout` callbacks fire through an explicit `Fire(handle)` event that may pick any live timer.
- The JavaScript code keeps only the latest handle in `this.timeout`. A timer whose handle was overwritten without being cleared still fires, and the model keeps it.
- A promise is settled at most once. The exchanges whose promise has settled are recorded in `settled`.

Builders take their interpolated arguments as the strings JavaScript renders them to.

The model follows the code as written; in particular:

- `connect` binds TX to the last characteristic with the TX UUID, because the loop never breaks. It does not clear an RX or TX binding left over from an earlier connection before scanning.
- `disconnect` keeps the device and both bindings.
- `cancel` leaves the caller's promise pending for ever; it does not reject it.
- Every `connect` that binds TX adds one more notification listener, and none is ever removed. After two such connections each notification is collected twice (`CommandManager.TwoListenersDoubleTheChunk`).
- `send` does not clear an idle timer that a notification armed before it. Suppose bytes arrive with no exchange pending, and the next `send` comes before that idle timer's 1000 ms are up. Then the bytes are still in the collector, and the stale idle timer can resolve the new exchange early with the bytes collected so far; fired right after `send`, that is just the earlier bytes (`CommandManager.UnsolicitedBytesResolveNextExchange`). If the idle timer fires first, it assembles and resets the collector, and nothing carries over.

## Model

| member | source | states |
|---|---|---|
| Chunking.ChunksFlatten | src/BluetoothPrinterLibrary/bleManager.js:47-52 | the chunks `data.slice(i*size, min(i*size+size, n))` concatenate back to the payload |
| Chunking.ChunksBounded | src/BluetoothPrinterLibrary/bleManager.js:48-50 | every chunk is non-empty and at most the chunk size |
| Chunking.ChunksCount | src/BluetoothPrinterLibrary/bleManager.js:40-41 | there are `Math.ceil(n / size)` chunks, none for an empty payload |
| Chunking.ChunkAt | src/BluetoothPrinterLibrary/bleManager.js:48-50 | chunk i is exactly `data[i*size .. min(i*size+size, n)]` |
| Chunking.CeilDiv | src/BluetoothPrinterLibrary/bleManager.js:41 | `Math.ceil(n/size)`: the least count whose chunks cover n bytes |
| Chunking.CeilDivUnique | src/BluetoothPrinterLibrary/bleManager.js:41 | that count is unique |
| Chunking.FirstFailed | src/BluetoothPrinterLibrary/bleManager.js:47-57 | the first write that throws: every earlier write succeeded |
| Chunking.WriteInChunks | src/BluetoothPrinterLibrary/bleManager.js:204-211 | the awaited loop writes chunk after chunk in order and stops after the first one that throws, with its message |
| Chunking.SetAt | src/BluetoothPrinterLibrary/index.js:160-162 | `target.set(src, offset)` replaces exactly the bytes at `offset .. offset+|src|` |
| Chunking.FlattenAppend | src/BluetoothPrinterLibrary/bleManager.js:11-20 | concatenating two runs of chunks is concatenating their concatenations |
| Chunking.FlattenLength | src/BluetoothPrinterLibrary/bleManager.js:12 | the assembled length is the sum of chunk lengths |
| Text.Utf8EncodeAppend | src/BluetoothPrinterLibrary/index.js:150-157 | UTF-8 encoding of a concatenation is the concatenation of the encodings |
| Text.Utf8EncodeLength | src/BluetoothPrinterLibrary/bleManager.js:190-193 | encoding takes one to four bytes per character |
| Text.NatToStringRoundTrip | src/BluetoothPrinterLibrary/index.js:147 | the decimal rendering of a length reads back as that length |
| Text.NatToStringInjective | src/BluetoothPrinterLibrary/index.js:147 | distinct lengths render differently |
| Collector.Uint8ArrayCollector.Add | src/BluetoothPrinterLibrary/bleManager.js:6-9 | a `Uint8Array` is appended; any other value throws "Only Uint8Array allowed" and leaves the chunks unchanged |
| Collector.Uint8ArrayCollector.Assemble | src/BluetoothPrinterLibrary/bleManager.js:11-20 | the in-order concatenation of the chunks, of length their total, leaving the chunks unchanged |
| Collector.Uint8ArrayCollector.Reset | src/BluetoothPrinterLibrary/bleManager.js:22-24 | the chunks become empty |
| CommandManager.AfterSend | src/BluetoothPrinterLibrary/bleManager.js:35-65 | a `send` while an exchange is pending is rejected with no writes and an unchanged state; otherwise the exchange is pending exactly when every write succeeded; the bookkeeping invariant is kept |
| CommandManager.AfterReceive | src/BluetoothPrinterLibrary/bleManager.js:67-79 | the chunk is appended, the latest timer is cleared and a fresh 1000 ms idle timer becomes the latest; every other live timer, including one whose handle was overwritten, stays live with its kind, and no other timer appears; the exchange count and `timeoutMs` are unchanged |
| CommandManager.AfterFire | src/BluetoothPrinterLibrary/bleManager.js:59-78 | a fired timer is removed, and it clears the pending exchange and the collector. A response timer rejects its own exchange with "Response timeout" unless that exchange is already settled. An idle timer resolves the pending exchange with the collected bytes. Each promise settles at most once, the settled set grows by exactly the exchange settled, and the latest handle, handle counter and exchange count are unchanged |
| CommandManager.AfterCancel | src/BluetoothPrinterLibrary/bleManager.js:81-85 | the latest timer is gone and every other live timer stays live with its kind; `this.timeout` still holds the cleared handle; the handle counter, exchange count and `timeoutMs` are unchanged; nothing is pending, the collector is empty and no promise is settled |
| CommandManager.ClearLatest | src/BluetoothPrinterLibrary/bleManager.js:69 | `clearTimeout` takes exactly the latest handle out of the live timers; every other timer keeps its kind and no other field changes |
| CommandManager.ArmTimer | src/BluetoothPrinterLibrary/bleManager.js:59 | `setTimeout` makes the new timer live under the next handle, which becomes `this.timeout`; the handle counter advances, every earlier timer stays live with its kind, and no other field changes |
| CommandManager.SendWritesWholePayload | src/BluetoothPrinterLibrary/bleManager.js:40-59 | with every write succeeding, `ceil(n/512)` chunks of at most 512 bytes are written that concatenate to the payload; the exchange is pending and a `timeoutMs` response timer is the latest |
| CommandManager.SendStopsAtFailedWrite | src/BluetoothPrinterLibrary/bleManager.js:53-57 | a failed write j: chunks 0..j only, "Write failed: …", nothing pending, the exchange counted and settled (rejected), no timer armed or cleared and the handle counter unchanged |
| CommandManager.SilenceTimesOut | src/BluetoothPrinterLibrary/bleManager.js:59-63 | with no reply, the response timer rejects with "Response timeout", clears the exchange and resets the collector |
| CommandManager.SilenceFramesOneResponse | src/BluetoothPrinterLibrary/bleManager.js:67-79 | two reply chunks then silence: the response timer is cleared and the remaining idle timer resolves the exchange once with the bytes in order |
| CommandManager.ReceiveTimes | src/BluetoothPrinterLibrary/bleManager.js:162-166 | `receive` run once per listener: the chunk is collected that many times, the pending exchange and the settled set are unchanged, and after at least one run a fresh idle timer is the latest |
| CommandManager.TwoListenersDoubleTheChunk | src/BluetoothPrinterLibrary/bleManager.js:161-172 | with two listeners, a notification during a pending exchange makes the exchange resolve with the chunk twice |
| CommandManager.CancelThenSendAgain | src/BluetoothPrinterLibrary/bleManager.js:81-85 | after `cancel` the response timer is gone, the caller is not settled, and the next `send` is accepted |
| CommandManager.UnsolicitedBytesResolveNextExchange | src/BluetoothPrinterLibrary/bleManager.js:44-79 | `send` does not clear an idle timer armed before it, and that timer resolves the new exchange with the earlier bytes |
| CommandManager.StaleResponseTimerStrandsNextExchange | src/BluetoothPrinterLibrary/bleManager.js:59-79 | an overwritten response timer clears the next exchange, whose caller then never receives an outcome |
| CommandManager.BLECommandManager.constructor | src/BluetoothPrinterLibrary/bleManager.js:28-33 | nothing pending, empty collector, no timer, `timeoutMs` defaulting to 1000 |
| CommandManager.BLECommandManager.Send | src/BluetoothPrinterLibrary/bleManager.js:35-65 | the writes, the result and the new fields are those of `AfterSend` |
| CommandManager.BLECommandManager.Receive | src/BluetoothPrinterLibrary/bleManager.js:67-79 | the new fields are those of `AfterReceive` |
| CommandManager.BLECommandManager.Fire | src/BluetoothPrinterLibrary/bleManager.js:59-78 | the outcome and the new fields are those of `AfterFire` |
| CommandManager.BLECommandManager.Cancel | src/BluetoothPrinterLibrary/bleManager.js:81-85 | the new fields are those of `AfterCancel` |
| Gatt.LastThree | src/BluetoothPrinter.js:73 | `uuid.slice(-3)`: the last three characters, or all of a shorter string |
| Gatt.PreferredUuidIsSliceTest | src/BluetoothPrinter.js:73 | the "ends in bb3" predicate is exactly `slice(-3) === "bb3"` |
| Gatt.SelectionUnique | src/BluetoothPrinter.js:68-79 | the selection rule designates at most one characteristic |
| Gatt.SelectWritable | src/BluetoothPrinter.js:68-79 | none exactly when no characteristic has both write flags; otherwise the first such one ending in "bb3" if any, else the last such one |
| Gatt.FirstReadable | src/BluetoothPrinter.js:81-87 | the first characteristic with `read`, none exactly when none has it |
| Gatt.ToLower | src/BluetoothPrinterLibrary/bleManager.js:145-147 | lower-casing for matching: each ASCII capital is lowered and every other character is kept |
| Gatt.LastMatch | src/BluetoothPrinterLibrary/bleManager.js:143-154 | the last characteristic whose lower-cased UUID matches (and, for RX, that can be written); none after it matches |
| BleManager.BLEManager.constructor | src/BluetoothPrinterLibrary/bleManager.js:89-103 | no device, no bindings, a fresh command manager with the 1000 ms default |
| BleManager.BLEManager.RequestDevice | src/BluetoothPrinterLibrary/bleManager.js:112-126 | the found device is stored and returned; a discovery error is rethrown and nothing changes |
| BleManager.BLEManager.Connect | src/BluetoothPrinterLibrary/bleManager.js:128-175 | "Please call requestDevice() first." without a device; platform errors propagate; RX and TX become the last matches, or stay as they were; "No writable characteristic found." without RX; each success with TX bound, once notifications start, adds one more listener; otherwise the listener count is unchanged |
| BleManager.BLEManager.BindCharacteristics | src/BluetoothPrinterLibrary/bleManager.js:143-154 | after the loop, each binding is its last match, or the old binding if there is none |
| BleManager.BLEManager.Notify | src/BluetoothPrinterLibrary/bleManager.js:162-172 | every registered listener runs in turn: the chunk goes to `receive` once per listener, and to `onReceive` once per listener exactly when a callback is set and no exchange was pending |
| BleManager.BLEManager.RunListener | src/BluetoothPrinterLibrary/bleManager.js:163-171 | one listener: the chunk goes to `receive`, and it is delivered exactly when a callback is set and no exchange was pending before |
| BleManager.BLEManager.Disconnect | src/BluetoothPrinterLibrary/bleManager.js:177-183 | the link drops only if a device is connected; the command manager is cancelled either way; bindings are kept |
| BleManager.BLEManager.OnDisconnected | src/BluetoothPrinterLibrary/bleManager.js:185-188 | the command manager is cancelled; bindings are kept |
| BleManager.BLEManager.WriteBinary | src/BluetoothPrinterLibrary/bleManager.js:196-214 | "RX characteristic not initialized." with no writes when RX is unbound; otherwise 512-byte chunks in order, stopping at the first failed write |
| BleManager.BLEManager.WriteUtf8String | src/BluetoothPrinterLibrary/bleManager.js:190-194 | the same for the UTF-8 bytes of the text |
| BleManager.BLEManager.WriteBinaryWithResponse | src/BluetoothPrinterLibrary/bleManager.js:225-230 | a command-manager exchange over the bytes; an unbound RX makes every write throw the null-dereference error |
| BleManager.BLEManager.WriteUtf8StringWithResponse | src/BluetoothPrinterLibrary/bleManager.js:216-223 | the same for the UTF-8 bytes of the text |
| BleManager.BLEManager.SetReceiveCallback | src/BluetoothPrinterLibrary/bleManager.js:232-234 | only the callback changes |
| BleManager.NullWrites | src/BluetoothPrinterLibrary/bleManager.js:220 | every write through a null RX throws the same TypeError |
| PrinterLibrary.FramedRoundTrip | src/BluetoothPrinterLibrary/index.js:83-89 | a line framed by the leading and trailing newline of every template unframes to itself |
| PrinterLibrary.Unframe | src/BluetoothPrinterLibrary/index.js:83-89 | whatever unframes to a line is that line framed |
| PrinterLibrary.JoinAppend | src/BluetoothPrinterLibrary/index.js:44 | joining two field lists is joining each, with a comma between |
| PrinterLibrary.JoinQuotes | src/BluetoothPrinterLibrary/index.js:19 | joined fields hold two quote marks per quoted, quote-free field |
| PrinterLibrary.StatementQuotesPair | src/BluetoothPrinterLibrary/index.js:16-23 | a well-formed statement has an even number of quote marks |
| PrinterLibrary.QuoteCountAppend | src/BluetoothPrinterLibrary/index.js:28 | quote marks of a concatenation add up |
| PrinterLibrary.TextCommand | src/BluetoothPrinterLibrary/index.js:16-23 | TEXT with x, y, quoted font, rotation, multipliers and quoted content |
| PrinterLibrary.BarcodeQuoteCount | src/BluetoothPrinterLibrary/index.js:25-31 | as written, BARCODE carries three quote marks for quote-free arguments |
| PrinterLibrary.BarcodeQuotesUnbalanced | src/BluetoothPrinterLibrary/index.js:28 | so it is no well-formed statement for any keyword and quote-free fields |
| PrinterLibrary.RssQuoteCount | src/BluetoothPrinterLibrary/index.js:33-39 | as written, RSS carries three quote marks for quote-free arguments |
| PrinterLibrary.RssQuotesUnbalanced | src/BluetoothPrinterLibrary/index.js:36 | so it is no well-formed statement for any keyword and quote-free fields |
| PrinterLibrary.BlockCommand | src/BluetoothPrinterLibrary/index.js:41-47 | BLOCK with the quoted font and quoted content among eleven fields |
| PrinterLibrary.BoxCommand | src/BluetoothPrinterLibrary/index.js:49-55 | BOX with five bare fields |
| PrinterLibrary.ReverseBoxCommand | src/BluetoothPrinterLibrary/index.js:57-63 | REVERSE with four bare fields |
| PrinterLibrary.QrCommand | src/BluetoothPrinterLibrary/index.js:65-72 | QRCODE with eight bare fields, content unquoted |
| PrinterLibrary.CircleCommand | src/BluetoothPrinterLibrary/index.js:74-81 | CIRCLE with four bare fields |
| PrinterLibrary.RawCommand | src/BluetoothPrinterLibrary/index.js:83-89 | `sendCommand` frames the content unchanged |
| PrinterLibrary.PrintCommand | src/BluetoothPrinterLibrary/index.js:91-97 | PRINT with both counts, and `"\nPRINT 1,1\n"` by default |
| PrinterLibrary.SetCommand | src/BluetoothPrinterLibrary/index.js:99-105 | the framed line `SET item action` |
| PrinterLibrary.ClearBufferCommand | src/BluetoothPrinterLibrary/index.js:107-113 | the framed line `CLS` |
| PrinterLibrary.FormFeedCommand | src/BluetoothPrinterLibrary/index.js:115-121 | the framed line `FORMFEED` |
| PrinterLibrary.GetPcxCommand | src/BluetoothPrinterLibrary/index.js:123-128 | PUTPCX with x, y and the quoted file name |
| PrinterLibrary.GetDownloadCommand | src/BluetoothPrinterLibrary/index.js:130-136 | DOWNLOAD with the location (default "F"), the quoted name and the length followed by `;` |
| PrinterLibrary.PcxSuffixIsPutPcx | src/BluetoothPrinterLibrary/index.js:152-155 | the inline suffix is `getPCXCommand(0, 20, "COUPON.PCX")` |
| PrinterLibrary.FillFullData | src/BluetoothPrinterLibrary/index.js:158-162 | `fullData` has length \|prefix\|+\|bitmap\|+\|suffix\| and holds the prefix at 0, the bitmap at \|prefix\| and the suffix after it |
| PrinterLibrary.DigitRun | src/BluetoothPrinterLibrary/index.js:147 | the longest run of ASCII digits at the front of a byte string |
| PrinterLibrary.Utf8EncodeDigits | src/BluetoothPrinterLibrary/index.js:147-150 | the encoded decimal length is ASCII digits with the same value |
| PrinterLibrary.PrefixDeclaresBitmap | src/BluetoothPrinterLibrary/index.js:147-162 | reading the length after `DOWNLOAD F,"COUPON.PCX",` gives exactly the number of bitmap bytes, which follow the prefix |
| PrinterLibrary.ConnectPrinter | src/BluetoothPrinterLibrary/index.js:5-14 | a discovery error is rethrown and nothing changes; after discovery, `connect`'s link, characteristics, missing-RX and notification errors are rethrown in that order; RX and TX are the last matches; success exactly when RX is bound and TX is unbound or its notifications start, and then a bound TX gets one more listener |
| PrinterLibrary.SendCommandsToPrinter | src/BluetoothPrinterLibrary/index.js:172-180 | the string's UTF-8 bytes are written in 512-byte chunks and any write error is rethrown |
| PrinterLibrary.WritePcxFileToPrinter | src/BluetoothPrinterLibrary/index.js:138-169 | every failure (network, HTTP status, unbound RX, failed write) is caught and logged as "Failed to send bitmap: …"; otherwise the framed buffer is written in order |
| PrinterLibrary.DisconnectPrinter | src/BluetoothPrinterLibrary/index.js:183-185 | the manager's `disconnect`: the link drops only if a device is connected, the command manager is cancelled, and the device, both bindings, the listeners and the callback are kept |
| BluetoothPrinter.WriteModeFor | src/BluetoothPrinter.js:421-435 | without-response whenever that flag is set, else with-response if `write` is set, else no write |
| BluetoothPrinter.SelectedWritesWithoutResponse | src/BluetoothPrinter.js:70-79 | the characteristic the selection keeps is always written without response |
| BluetoothPrinter.SendChunk | src/BluetoothPrinter.js:414-443 | "Characteristic not available" without a characteristic; success exactly when a write mode exists and the write succeeds; every other failure is "Characteristic write failed: " + its message |
| BluetoothPrinter.PacedShape | src/BluetoothPrinter.js:365-381 | chunks at the even positions in order and 20 ms pauses at the odd ones, so a pause only separates two chunks |
| BluetoothPrinter.PacedSendsChunks | src/BluetoothPrinter.js:365-374 | the bytes sent are the chunks' concatenation |
| BluetoothPrinter.ConnectFailure | src/BluetoothPrinter.js:42-115 | the steps fail in source order: the link error, then the service/characteristics error, then the status-read error (only when a readable characteristic exists), then "No writable characteristic found" when no characteristic has both write flags; nothing fails exactly when none of these happens |
| BluetoothPrinter.PrinterComponent.ConnectDevice | src/BluetoothPrinter.js:42-115 | connected exactly when nothing fails, with the selected characteristic stored; the read characteristic is the first readable one; a failure records the error, clears the device and drops the listener and the link, but keeps the earlier write characteristic |
| BluetoothPrinter.PrinterComponent.OnDisconnected | src/BluetoothPrinter.js:117-125 | the link is down, the device and the write characteristic are cleared; the read characteristic stays |
| BluetoothPrinter.PrinterComponent.SendLargeData | src/BluetoothPrinter.js:356-387 | `ceil(n/200)` chunks in order with a pause only between chunks, up to the first failure, which ends with "Failed to send chunk k: …" for the chunk's 1-based number; on success the bytes sent are the payload |
| BluetoothPrinter.DecodePrinterStatus | src/BluetoothPrinter.js:391-401 | each field is 0 or its mask 0x01, 0x02, 0x04 |
| BluetoothPrinter.DecodeReadsStatusBits | src/BluetoothPrinter.js:391-401 | the fields are bit 0 of byte 0, bit 1 of byte 1 and bit 2 of byte 2 at their weights; a missing byte reads as 0 |
| TscPrinter.FailureMessages | src/TSCBluetoothPrinter.js:80-84 | the log is empty exactly when every write succeeded |
| TscPrinter.LogStep | src/TSCBluetoothPrinter.js:76-84 | each write adds one log entry exactly when it failed |
| TscPrinter.TscComponent.ConnectToPrinter | src/TSCBluetoothPrinter.js:11-60 | device and selected characteristic are stored only when the selection finds one; errors change nothing |
| TscPrinter.TscComponent.SendCommand | src/TSCBluetoothPrinter.js:62-88 | no writes without a characteristic; otherwise every 180-byte chunk is written in order whatever the outcomes, the chunks concatenate to the bytes, and the failures are logged in order |

## Left out

- The platform is not modelled: Web Bluetooth, `TextDecoder`, `fetch`/`blob`/`arrayBuffer`, `console` logging and timestamps, `alert`, and React rendering/effects. Their results are parameters, and the log lines are not modelled except where a message is the observable outcome.
- Wall-clock time is not modelled. Timers fire only through the explicit `Fire` event, in any order among live timers; only the delays are kept, as constants.
- Interleaving is not modelled. Notifications or cancellation arriving while `send` or `writeBinary` is awaiting a write are not considered; each call runs as one step.
- `requestDevice`'s `gattserverdisconnected` listener is not modelled as a registration. `OnDisconnected` is an event the environment may deliver.
- BleManager.BLEManager.RequestDevice: after a new device is chosen, `gattConnected` is false. The model does not track the link of the previous device.
- PrinterLibrary.TextCommand: the `alignment` parameter is unused in the source and is omitted.
- PrinterLibrary.BarcodeCommand and PrinterLibrary.RssCommand carry no contract of their own. Their output is characterised by the quote-count lemmas, as they are written.
- Builder arguments are taken as strings. JavaScript's number-to-string conversion is not modelled.
- The module-level `bleManager` singleton of index.js is passed explicitly as `manager`.
- `printPCXFromServer`, `printPCX`, the inline label literals, `searchDevices` and `getPrinterStatus`'s logging in `src/BluetoothPrinter.js` are not modelled. They are UI, network, or opaque payload.
- `App.js`, `BluetoothPrinterPCX.js`, `BalajiPrintTest.js` and `src/Librarytest.js` are UI components. They are not part of this model.
- BluetoothPrinter.PrinterComponent.ConnectDevice: React state updates are treated as immediate assignments. The source schedules them for the next render.
- TscPrinter.TscComponent.SendCommand: the log records the failed writes' messages, not the console formatting of the error object.
- Text.Utf8Encode: a Dafny `string` holds Unicode scalar values, so a valid surrogate pair is one character and encodes to four bytes, as `TextEncoder` does. A lone surrogate, which `TextEncoder` encodes as EF BF BD, cannot be represented.
- Gatt.ToLower: only ASCII capitals are lowered. `toLowerCase` also lowers other scripts and can change a string's length ("İ" becomes two characters); the UUIDs compared here are ASCII hex.
- BleManager.BLEManager.Connect and BleManager.BLEManager.Notify: listeners are counted per manager. When a later `connect` binds TX to a different characteristic object, the model runs the earlier listeners on the new binding's notifications, whereas in the source they stay attached to the old object.
