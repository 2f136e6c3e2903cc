# rtc-ui packet-loss probe, modelled in Dafny

The system measures packet loss and delay between a browser and a Node.js
WebRTC peer. It has three parts.

- **The server** (`node/index.js`):
  - gives each WebSocket a peer id and answers its SDP offer;
  - exchanges ICE candidates in one batch;
  - runs a data-channel command protocol. `SEND <frames per tick> <bytes per frame> <ticks>` configures a run, and `send start` starts a repeating timer.
  - Each tick of the timer sends a batch of numbered binary frames. A frame holds a big-endian uint16 sequence number, a big-endian int64 send time and random filler. After the last tick the server sends `SEND DONE <messages> <bytes>`.
- **The browser** (`src/hooks/useRTC.tsx`, `src/utils/helper.ts` and the panels `Statistics/DataChannel`, `HeatMap` and `Setting`):
  - opens the connection and sends the configuration text on the WebSocket, wrapped by `DataChannelMessage.init`;
  - decodes every frame into a record;
  - derives the loss percentage, the missing and delayed sequence numbers, the reception heat map and the settings labels.
- **The CI scripts** (`scripts/`):
  - keep a Jest timings file up to date (`processor.js`, `updateTimings.mjs`, `combine.js`);
  - split the test files into shards of balanced runtime (`distributeTests.mjs`, `shard.mjs`, `shard.js`).

## How each part is modelled

- **State changed in place is a class.** The server's per-channel sender (`DataSender.Sender`), its peer registry (`SignalingGateway.Gateway`), the browser hook's refs and buffers (`BrowserPeer.Peer`) and the JavaScript `Map` of the scripts (`OrderedMaps.OrderedMap`) are classes.
  - Each method ensures that its new `State()` is a specification function of the old state.
  - The lemmas beside each class prove what those functions promise.
- **Loops are methods.** The frame packers, the greedy shard loop, the heat-map cell loop and the map-filling loops are methods. Each is proved equal to a function on sequences.
- **Pure computations are functions with lemmas.** The statistics, the labels, record formatting and shard selection are modelled this way.
- **The world outside the code is a parameter or a value:**
  - `Date.now()`, `Math.random()` filler, `path.resolve` and `path.relative` are function parameters;
  - files are `TimingsFile` values (missing, unparseable, or parsed with or without a `testResults` array);
  - SDP negotiation is an outcome parameter;
  - timers are explicit: each live `setInterval` timer maps to the frame count its closure holds, and a tick is a call.
- **Shared building blocks:** `Bytes` (DataView big-endian layouts, int64 wrap), `Decimal` (`${n}`, `parseInt`, `join`, `split`) and `StableSort` (`Array.prototype.sort`, stable since ECMAScript 2019).

## Model

| member | source | states |
|---|---|---|
| Bytes.Pow256 | node/index.js:59-65 | the number of values n bytes hold is positive, the bound for every big-endian layout below |
| Bytes.BeValueOfBeBytes | node/index.js:59-65 | writing a value that fits in n bytes big-endian and reading it back gives the value |
| Bytes.BeBytesOfBeValue | src/hooks/useRTC.tsx:172-174 | reading n bytes and writing the value back gives the same bytes; the value is below 256^n |
| Bytes.BeValueBound | src/hooks/useRTC.tsx:172-174 | a big-endian read of n bytes is below 256^n |
| Bytes.ToUint16 | node/index.js:59 | `setUint16` stores the value modulo 2^16 |
| Bytes.ToUint32 | src/utils/helper.ts:101 | `setUint32` stores the value modulo 2^32 |
| Bytes.ToUint64 | node/index.js:65 | `setBigInt64` stores a 64-bit two's-complement pattern below 2^64 |
| Bytes.WrapInt64 | node/index.js:63-65 | `BigInt.asIntN(64, v)` is an int64 congruent to v modulo 2^64, and v itself when v is an int64 |
| Bytes.BeUint16 | node/index.js:59 | the uint16 layout is 2 bytes |
| Bytes.BeUint32 | src/utils/helper.ts:101 | the uint32 layout is 4 bytes |
| Bytes.BeInt64 | node/index.js:65 | the int64 layout is 8 bytes |
| Bytes.Uint16RoundTrip | src/hooks/useRTC.tsx:173 | `getUint16` after `setUint16` gives v mod 2^16, and v for v in [0, 2^16) |
| Bytes.Uint32RoundTrip | src/utils/helper.ts:54 | `getUint32` after `setUint32` gives v mod 2^32, and v for v in [0, 2^32) |
| Bytes.Int64RoundTrip | src/hooks/useRTC.tsx:174 | `getBigInt64` after `setBigInt64` gives the int64 wrap of v, and v for an int64 |
| Decimal.DigitChar | node/index.js:200 | a digit below 10 prints as an ASCII digit |
| Decimal.DigitValue | node/index.js:135-137 | an ASCII digit reads as a value below 10 |
| Decimal.DigitRoundTrip | node/index.js:135-137 | reading a printed digit gives the digit |
| Decimal.NatString | node/index.js:200 | `${n}` for n >= 0 is a non-empty run of digits, the shape `\d+` matches |
| Decimal.IntString | src/components/Setting/index.tsx:105-114 | `${i}` for any integer is non-empty |
| Decimal.NatStringRoundTrip | node/index.js:135-137 | `parseInt(${n}, 10)` is n |
| Decimal.NatStringNoLeadingZero | node/index.js:200 | a printed number starts with 0 only when it is 0 |
| Decimal.JoinThree | src/hooks/useRTC.tsx:165 | joining three strings puts the separator between them |
| Decimal.Split | src/hooks/useRTC.tsx:165 | splitting gives at least one piece, and no piece holds the separator |
| Decimal.JoinSplit | src/hooks/useRTC.tsx:165 | joining the pieces of a split with the separator gives the text back |
| Decimal.SplitJoin | src/hooks/useRTC.tsx:165 | splitting a join of separator-free pieces gives the pieces back |
| Decimal.SplitNoSeparator | src/hooks/useRTC.tsx:165 | a text without the separator splits into itself |
| Decimal.SplitPrefix | src/hooks/useRTC.tsx:165 | a separator-free first piece splits off first |
| FramePacker.Frame | node/index.js:53-86 | a frame has exactly the requested length, and byte i is the header byte or the filler byte for position i |
| FramePacker.PackDataWithSequenceNumber | node/index.js:36-87 | the packer (range checks, header writes, filler loop) returns what `Pack` returns |
| FramePacker.PackErrors | node/index.js:37-51 | packing throws for a sequence number outside 0..1000 first, and otherwise for a size below 10 bytes; for nothing else |
| FramePacker.PackLayout | node/index.js:53-86 | a packed frame has the requested length, the sequence number big-endian in bytes 0-1, the int64 wrap of the time in bytes 2-9 and the filler after |
| SequenceHelper.ExtractSequenceNumber | src/utils/helper.ts:36-57 | a value is read only from an ArrayBuffer of at least 4 bytes, and it is a uint32 |
| SequenceHelper.ExtractMeaning | src/utils/helper.ts:40-54 | "Input must be an ArrayBuffer." exactly for a non-buffer, the "too small" error exactly for a buffer shorter than the size, otherwise bytes 0-3 read as a big-endian uint32 whatever the size (a RangeError below 4 bytes) |
| SequenceHelper.ExtractExamples | src/__tests__/extractSequenceNumber.test.ts:4-22 | a string is refused, a 2-byte buffer is too small, and 12345 written at offset 0 of an 8-byte buffer reads back |
| SequenceHelper.Packed | src/utils/helper.ts:93-115 | the packed buffer has the requested length |
| SequenceHelper.PackDataWithSequenceNumber | src/utils/helper.ts:82-116 | the packer (size check, `setUint32`, 0xAA loop) returns what `Pack` returns |
| SequenceHelper.PackErrors | src/utils/helper.ts:87-91 | packing throws the size error exactly when the size does not exceed the sequence-number size, and succeeds exactly when also the size is at least 4 and the sequence-number size is not negative |
| SequenceHelper.PackLayout | src/utils/helper.ts:94-113 | for every accepted size the buffer has the requested length, the uint32's bytes below the size (and below 4), zeros up to the size, and 0xAA from the size to the end |
| SequenceHelper.ExtractAfterPack | src/__tests__/packDataWithSequenceNumber.test.ts:8-15 | with the default size, extracting from a packed buffer gives back any uint32 sequence number |
| SequenceHelper.TwoByteSizeLosesSequenceNumber | src/utils/helper.ts:101-113 | with a 2-byte size, the 0xAA fill overwrites bytes 2-3, so a sequence number below 2^16 reads back as 0xAAAA |
| SequenceHelper.FindMissingSequenceNumber | src/utils/helper.ts:59-69 | the result lists, in ascending order, numbers below the total that were not received, and every such number |
| SequenceHelper.MissingMembership | src/utils/helper.ts:59-69 | a number is missing exactly when it lies in [0, total) and was not received |
| SequenceHelper.IncreasingSameElements | src/utils/helper.ts:63-68 | two strictly increasing lists with the same elements are equal |
| SequenceHelper.MissingIsUnique | src/utils/helper.ts:59-69 | the missing list is the only ascending list of the missing numbers |
| SequenceHelper.MissingWhenNoneReceived | src/__tests__/findMissingSequenceNumber.test.ts:12-14 | with nothing received, 0 .. total - 1 are all missing |
| SequenceHelper.MissingWhenAllReceived | src/__tests__/findMissingSequenceNumber.test.ts:8-10 | with everything received, nothing is missing |
| SequenceHelper.MissingDependsOnlyOnRelevantValues | src/utils/helper.ts:66-68 | repeats, order and out-of-range values in the received list do not change the result |
| SequenceHelper.MissingExample | src/__tests__/findMissingSequenceNumber.test.ts:4-6 | five expected and 0, 1, 3 received leaves [2, 4] missing |
| DataSender.Sender.constructor | node/index.js:107-109 | a new sender has no configuration, no timer and has sent nothing |
| DataSender.Sender.StopSending | node/index.js:112-125 | clears the timer `sendIntervalId` names, forgets it and the configuration |
| DataSender.Sender.OnMessage | node/index.js:128-235 | the channel's message handler updates the state as `OnMessageSpec` says |
| DataSender.Sender.OnCloseOrError | node/index.js:242-252 | closing or failing the channel stops sending |
| DataSender.Sender.SendDone | node/index.js:193-203 | a finishing tick sends one `SEND DONE` text per data-channel report, in report order, up to the send that throws |
| DataSender.Sender.SendFrame | node/index.js:211-217 | one pass of the inner loop: the packer's frame is sent and joins the batch, or the packer or the send throws and the whole batch is what was sent so far, failed |
| DataSender.Sender.SendBatch | node/index.js:206-218 | the frames from the count are sent until the batch is complete or the packer or a send throws; the result reports how many were sent and whether it threw |
| DataSender.Sender.FinishRun | node/index.js:188-204 | the last tick reports and then stops |
| DataSender.Sender.SendTick | node/index.js:205-224 | a sending tick sends a batch, advances the timer's count by the frames sent, and stops if the packer or a send threw |
| DataSender.Sender.Tick | node/index.js:185-231 | one firing of the timer: finish, send, or stop when the channel is not open |
| DataSender.SendFields | node/index.js:133 | a match of `/^SEND (\d+) (\d+) (\d+)$/` has three digit groups, and the message is `SEND ` followed by them joined by spaces |
| DataSender.SendFieldsOfCommand | node/index.js:133 | every message of that exact shape matches, with its three groups |
| DataSender.PackBatch | node/index.js:206-224 | a batch holds at most k frames, and exactly k unless the packer or a send threw |
| DataSender.PackBatchStep | node/index.js:211-217 | one more frame appends the packer's frame, or fails the batch on the packer's error |
| DataSender.SendBatchStep | node/index.js:211-224 | from a batch of sent frames, a packer error ends the whole batch there, failed; a packed frame extends it and its message follows the others |
| DataSender.BatchFailureIsFinal | node/index.js:220-224 | once a batch fails, packing further changes nothing |
| DataSender.Binaries | node/index.js:211-216 | sending a list of frames sends exactly one message per frame |
| DataSender.BinariesAt | node/index.js:211-216 | the i-th message sent is frame i, as binary data |
| DataSender.InvPreserved | node/index.js:106-252 | every handler keeps the timer bookkeeping consistent: live timers were handed out, and `sendIntervalId` names a live timer |
| DataSender.ConfigOnlyFromValidSend | node/index.js:133-174 | the configuration changes only on a matching `SEND` with three positive values; a zero value, a `send start` without a configuration, and other text change nothing |
| DataSender.SendCommandSetsConfig | node/index.js:154-165 | `SEND a b c` with positive values stores exactly (a, b, c) and replies `send ready`, with the timers untouched |
| DataSender.StopIdempotent | node/index.js:112-125 | stopping twice is stopping once, and a stopped sender has no configuration and no interval id |
| DataSender.FramesFrom | node/index.js:206-218 | a run of n frames has n frames |
| DataSender.FramesFromAt | node/index.js:211-215 | frame i of a run is the packer's frame for sequence number start + i |
| DataSender.FramesFromNumbers | node/index.js:211-217 | frame i of a run has the frame size and carries start + i in its first two bytes |
| DataSender.FramesFromAppend | node/index.js:206-218 | consecutive runs concatenate into one run |
| DataSender.BinariesAppend | node/index.js:211-216 | sending two lists is sending their concatenation |
| DataSender.BatchWithinRange | node/index.js:206-218 | a batch inside sequence numbers 0..1000 sends all its frames without failing |
| DataSender.BatchCrossingLimit | node/index.js:37-39 | a batch reaching sequence number 1001 sends the frames up to 1000, then fails |
| DataSender.SendingTick | node/index.js:205-218 | a sending tick advances the count by exactly the frames per tick and sends those frames in order; nothing else changes |
| DataSender.FinishingTick | node/index.js:188-204 | the tick after the last sending tick sends the `SEND DONE` texts, then clears the timer, the interval id and the configuration |
| DataSender.AbortingTick | node/index.js:220-224 | a tick whose batch reaches frame 1001 sends frames up to 1000 and stops the run without `SEND DONE` |
| DataSender.SecondStartLeaksTimer | node/index.js:176-185 | a second `send start` leaves the first timer running; the new timer takes over `sendIntervalId` |
| DataSender.StaleTimerStopsNewerRun | node/index.js:186-230 | a tick of a timer that `sendIntervalId` no longer names stops the newer run and stays live itself |
| DataSender.Accepted | node/index.js:160-165 | the messages a handler gets onto the channel are a prefix of those it sends: all of them when no send throws, otherwise exactly those before the throwing send |
| DataSender.Sender.Send | node/index.js:211-216 | `dataChannel.send` either throws, exactly at the given position, and sends nothing, or appends the message |
| DataSender.ThrowingTick | node/index.js:211-224 | a sending tick whose j-th send throws has sent the j frames before it, in order, and the `catch` stops the run |
| DataSender.MessageKeepsInv | node/index.js:128-235 | every message handler keeps the timer bookkeeping consistent |
| DataSender.TickKeepsInv | node/index.js:186-230 | every firing of a live timer keeps the timer bookkeeping consistent |
| DataSender.StartRun | node/index.js:167-186 | `send start` with a configuration starts a fresh timer at count 0 and names it in `sendIntervalId`; nothing is sent |
| DataSender.StoppedStaysStopped | node/index.js:112-125 | once a run's timer is cleared, further firings change nothing |
| DataSender.RunSends | node/index.js:205-218 | while sequence number 1000 is not passed, the first k firings are sending ticks: the count is k · intervalMs and frames 0 .. k · intervalMs − 1 have gone out, in order, with the configuration and the timer kept |
| DataSender.RunReachesTotal | node/index.js:186-218 | after durationMs firings the count is N = durationMs · intervalMs and frames 0 .. N − 1 have gone out, in order |
| DataSender.RunCompletes | node/index.js:186-204 | the firing after that sends one `SEND DONE` per data-channel report after the frames and clears the timer, the interval id and the configuration |
| DataSender.WholeRun | node/index.js:167-224 | for N = durationMs · intervalMs ≤ 1001: after `send start` and durationMs firings, frames 0 .. N − 1 have gone out in order and the run is still configured; the next firing sends the `SEND DONE` texts and stops the run |
| DataSender.RunAborts | node/index.js:37-39 | a run that would pass sequence number 1000 stops at the firing after 1001 / intervalMs full ticks, having sent frames 0 .. 1000 and no `SEND DONE` |
| DataSender.AbortedRun | node/index.js:186-224 | for N = durationMs · intervalMs > 1001: after `send start` and 1001 / intervalMs + 1 firings, exactly frames 0 .. 1000 have gone out, in order, without `SEND DONE`, and the timer, interval id and configuration are cleared |
| DataSender.TooSmallFramesRun | node/index.js:46-50 | with frames smaller than the 10-byte header, the first firing after `send start` sends nothing and stops the run |
| SignalingGateway.Gateway.constructor | node/index.js:20-23 | the four maps start empty |
| SignalingGateway.Gateway.OnConnection | node/index.js:90-97 | a new socket is registered under its peer id, and the peer id is sent to it |
| SignalingGateway.Gateway.TearDown | node/index.js:325-333 | the cleanup deletes the peer's interval, closes and deletes its connection, and deletes its data channel |
| SignalingGateway.Gateway.OnOffer | node/index.js:264-350 | an offer closes the old connection, registers a fresh one and negotiates, as `OfferSpec` says |
| SignalingGateway.Gateway.CreateConnection | node/index.js:280-282 | a fresh connection is stored under the peer, with an empty candidate buffer |
| SignalingGateway.Gateway.SetRemoteAndAnswer | node/index.js:338-349 | the remote description is set unless rejected; the answer is sent only when created |
| SignalingGateway.Gateway.OnRemoteIceCandidates | node/index.js:352-374 | remote candidates are added, in order, only when the remote description is set, up to and including the first call that rejects |
| SignalingGateway.Gateway.OnMessage | node/index.js:258-383 | the message handler dispatches on the message type; unknown types change nothing |
| SignalingGateway.Gateway.OnLocalIceCandidate | node/index.js:285-299 | a local candidate is buffered; the end of gathering sends the buffer |
| SignalingGateway.Gateway.OnConnectionStateChange | node/index.js:312-336 | a disconnected, closed or failed state runs the cleanup; other states change nothing |
| SignalingGateway.Gateway.OnSocketClose | node/index.js:386-401 | closing the socket closes the connection and deletes all four of the peer's entries |
| SignalingGateway.Gateway.OnSocketError | node/index.js:403-405 | a socket error changes nothing |
| SignalingGateway.InvPreserved | node/index.js:90-405 | every handler keeps the registry consistent: each registered connection is its own peer's and still open, and the interval and data-channel maps stay empty |
| SignalingGateway.TearDownKeepsInv | node/index.js:325-333 | the cleanup keeps the registry consistent |
| SignalingGateway.OfferKeepsInv | node/index.js:264-350 | an offer keeps the registry consistent |
| SignalingGateway.OfferReplacesConnection | node/index.js:267-282 | after an offer the peer holds exactly one, fresh connection with empty buffers; the old one is closed; other peers are untouched; the remote description is set unless rejected |
| SignalingGateway.TearDownRemovesOnlyThePeer | node/index.js:325-333 | the cleanup removes and closes only the peer's entries; sockets, messages and candidates stay |
| SignalingGateway.CleanupIdempotent | node/index.js:325-333 | each deletion is guarded, so a second cleanup, state change or socket close changes nothing |
| SignalingGateway.SocketCloseForgetsSocket | node/index.js:386-401 | the socket close forgets the peer's socket and connection; other peers' sockets stay |
| SignalingGateway.RemoteIceGated | node/index.js:357-373 | remote candidates are passed on in order exactly when the remote description is set: all of them, or, when the call for index i rejects, candidates 0 .. i and none after; otherwise nothing changes |
| SignalingGateway.Gather | node/index.js:286-288 | buffering keeps the connection registered and its buffer present |
| SignalingGateway.GatherBuffers | node/index.js:286-288 | gathering appends the candidates in order and sends nothing |
| SignalingGateway.GatheringSendsOneBatch | node/index.js:285-299 | a fresh connection that gathers and then ends gathering sends exactly one message to its peer: all candidates, in order |
| SignalingGateway.UnusedMapsStayEmpty | node/index.js:21-22 | no handler ever inserts into the stream-interval or data-channel maps |
| BrowserPeer.DecodeFrame | src/hooks/useRTC.tsx:171-174 | decoding fails with a RangeError exactly for a frame shorter than 10 bytes; the sequence number is a uint16 |
| BrowserPeer.DecodeOfPackedFrame | src/hooks/useRTC.tsx:171-174 | decoding a server frame gives its sequence number and its time as an int64 |
| BrowserPeer.Configuration | src/hooks/useRTC.tsx:128-131 | the configuration is three decimal strings |
| BrowserPeer.ConfigurationParsesOnServer | src/hooks/useRTC.tsx:163-167 | the configuration text, if it reached the server's data-channel parser behind `SEND `, is a command the server reads back as (frequency, packet size, duration) |
| BrowserPeer.Peer.constructor | src/hooks/useRTC.tsx:122-135 | a new hook has no connection, no channel, no packets and a `new` state |
| BrowserPeer.Peer.TearDown | src/hooks/useRTC.tsx:30-38 | closes the connection and the channel, resets the peer state, and clears both refs |
| BrowserPeer.Peer.InitiateTest | src/hooks/useRTC.tsx:187-227 | a fresh connection, a data channel in data-channel mode, the offer sent, then `inprogress` |
| BrowserPeer.Peer.OnDataMessage | src/hooks/useRTC.tsx:169-184 | a binary message appends its record; a short one throws and changes nothing |
| BrowserPeer.Peer.OnLocalIceCandidate | src/hooks/useRTC.tsx:142-154 | buffers a candidate; the end of gathering sends the whole buffer |
| BrowserPeer.Peer.OnRemoteIceCandidates | src/hooks/useRTC.tsx:289-303 | a non-empty list is handed to the connection in order, if there is one, up to and including the first call that rejects |
| BrowserPeer.Peer.OnSignal | src/hooks/useRTC.tsx:262-310 | the WebSocket message handler dispatches on the type, as `SignalSpec` says |
| BrowserPeer.Peer.OnConnectionStateChange | src/hooks/useRTC.tsx:156-159 | mirrors the connection's state while there is a connection |
| BrowserPeer.PacketAppend | src/hooks/useRTC.tsx:169-184 | a binary message of at least 10 bytes appends exactly one record with the decoded number, send time and reception time; text changes nothing; a shorter one is a RangeError |
| BrowserPeer.ServerFrameArrives | src/hooks/useRTC.tsx:169-184 | a frame the server packed arrives as one record carrying its sequence number and send time |
| BrowserPeer.GatherBuffers | src/hooks/useRTC.tsx:143-144 | gathering appends the candidates to the buffer in order |
| BrowserPeer.GatheringSendsOneBatch | src/hooks/useRTC.tsx:145-153 | the end of gathering sends one batch with everything buffered so far, earlier tests' candidates included |
| BrowserPeer.RemoteIceGated | src/hooks/useRTC.tsx:294-302 | remote candidates are handed over, in order, exactly when the list is non-empty and a connection exists: all of them, or, when the call for index i rejects, candidates 0 .. i and none after; nothing else changes |
| BrowserPeer.HandshakeCases | src/hooks/useRTC.tsx:232-242 | `SEND READY` sends the ready reply; `SEND DONE...` stops the statistics, closes the test and the channel; anything else is ignored |
| BrowserPeer.TearDownResets | src/hooks/useRTC.tsx:30-38 | after a teardown there is no connection and no channel, the state is `new`, packets stay, and a second teardown changes nothing |
| BrowserPeer.ErrorSignalTearsDown | src/hooks/useRTC.tsx:247-268 | a WebSocket error or close and a server error tear down alike |
| BrowserPeer.IgnoredSignals | src/hooks/useRTC.tsx:270-306 | a message `JSON.parse` rejects, an answer, and a message of unknown type leave the hook's state unchanged |
| DataChannelStats.SeverityBands | src/components/Statistics/DataChannel/index.tsx:38-71 | the bands split the totals at 100 KiB, 1 MiB and 10 MiB, with each bound in the lower band |
| DataChannelStats.SeverityMonotone | src/components/Statistics/DataChannel/index.tsx:43-71 | a larger total never gets a lower band |
| DataChannelStats.DataChannelEntries | src/components/Statistics/DataChannel/index.tsx:164-175 | a snapshot yields at most one entry per report |
| DataChannelStats.DataChannelEntriesPrepend | src/components/Statistics/DataChannel/index.tsx:164-175 | the entries of a snapshot are taken report by report, in order |
| DataChannelStats.SnapshotAppends | src/components/Statistics/DataChannel/index.tsx:162-176 | a snapshot keeps the history and appends one entry per data-channel report, in report order |
| DataChannelStats.SnapshotWithoutDataChannel | src/components/Statistics/DataChannel/index.tsx:162-176 | a snapshot without a data-channel report leaves the history unchanged |
| DataChannelStats.Recent | src/components/Statistics/DataChannel/index.tsx:299 | the charts show the last 20 entries, or all when there are fewer |
| DataChannelStats.LossCases | src/components/Statistics/DataChannel/index.tsx:184-188 | the loss is 0 until the test closes; then it is the percentage of expected messages the last counter misses, and not finite when none are expected |
| DataChannelStats.LossIsPercentage | src/components/Statistics/DataChannel/index.tsx:184-188 | with the counter at most the expected count the loss is between 0 and 100: 100 with no history, 0 when everything arrived |
| DataChannelStats.SequenceNumbers | src/components/Statistics/DataChannel/index.tsx:194 | the sequence numbers of the packets, in order |
| DataChannelStats.MissingPackets | src/components/Statistics/DataChannel/index.tsx:190-196 | nothing is missing before the test closes; afterwards a number is missing exactly when it is below the expected count and no packet carries it; the list ascends |
| DataChannelStats.DelayedPackets | src/components/Statistics/DataChannel/index.tsx:198-202 | the delayed list has at most one entry per packet |
| DataChannelStats.DelayedConcat | src/components/Statistics/DataChannel/index.tsx:199-201 | the delayed list keeps packet order |
| DataChannelStats.DelayedMembership | src/components/Statistics/DataChannel/index.tsx:198-202 | a number is delayed exactly when some packet carrying it took longer than the acceptable delay |
| DataChannelStats.ArrivingFrameDelay | src/components/Statistics/DataChannel/index.tsx:198-202 | a server frame adds its number to the end of the delayed list exactly when its transit time exceeds the acceptable delay |
| HeatMap.BuildCells | src/components/HeatMap/index.tsx:12-25 | cells 0 .. n - 1, each marked exactly when its number was received |
| HeatMap.UnreceivedAreMissing | src/components/HeatMap/index.tsx:50-57 | the grey cells are exactly the numbers the statistics panel lists as missing, in the same order |
| HeatMap.CeilSqrtFrom | src/components/HeatMap/index.tsx:28 | the search finds the least c with c * c >= n |
| HeatMap.ColsIsLeast | src/components/HeatMap/index.tsx:28 | the column count is `Math.ceil(Math.sqrt(n))`: the least c with c * c >= n |
| HeatMap.GridFits | src/components/HeatMap/index.tsx:28-29 | with at least one cell, rows x cols holds every cell, the last row is needed, and there are no more rows than columns |
| HeatMap.Render | src/components/HeatMap/index.tsx:39-75 | at most 300 cells draw the marked grid with those dimensions; more show only the received count |
| SettingFormat.Minutes | src/components/Setting/index.tsx:108 | `Math.floor(val / 60)`: 60 m <= val < 60 m + 60 |
| SettingFormat.Seconds | src/components/Setting/index.tsx:109 | the seconds are in [0, 60) and complete the minutes to val |
| SettingFormat.DurationRoundTrip | src/components/Setting/index.tsx:107-113 | the label of a non-negative duration reads back as the same number of seconds |
| SettingFormat.DurationShapes | src/components/Setting/index.tsx:107-113 | 0 gives an empty label, whole minutes only the minute part with its trailing space, under a minute only seconds, and a negative duration only its seconds part |
| SettingFormat.UnitLabels | src/components/Setting/index.tsx:105-114 | each other label is the value, a space and its unit, and its digits read back as the value |
| StableSort.Insert | scripts/distributeTests.mjs:120 | insertion keeps the sequence sorted, adds exactly the element, and puts it first or keeps the first element |
| StableSort.SortBy | scripts/distributeTests.mjs:110 | the sort is a sorted permutation of its input |
| StableSort.SortIsStable | scripts/distributeTests.mjs:110 | elements with equal keys keep their relative order |
| StableSort.FirstMinimum | scripts/distributeTests.mjs:120-121 | the index of the first element of least key |
| StableSort.SortHead | scripts/distributeTests.mjs:120-121 | the sorted array starts with the first element of least key |
| TimingRecords.NameOr | scripts/updateTimings.mjs:67 | `name \|\| fallback` keeps a truthy name and replaces a falsy one |
| TimingRecords.TimeOrNull | scripts/updateTimings.mjs:68-69 | `t \|\| null` keeps a truthy time and is null otherwise |
| TimingRecords.LoadTestResults | scripts/updateTimings.mjs:45-64 | a missing file, a parse failure and a missing array are the three errors, exactly; otherwise the records |
| TimingRecords.FormatTimings | scripts/processor.js:65-69 | the same records in the same order, each normalised |
| TimingRecords.FormatRecordMeaning | scripts/processor.js:65-69 | normalising keeps truthy values, turns a falsy name into "unknown" and a falsy time into null, and leaves a normalised record as it is |
| TimingRecords.ProcessOutcome | scripts/processor.js:37-81 | the processor fails exactly when the input cannot be read as a timings file, and otherwise writes every record normalised |
| TimingRecords.ProcessIsIdempotent | scripts/processor.js:65-76 | processing a processed report changes nothing |
| TimingRecords.Duration | scripts/distributeTests.mjs:93-96 | the duration is positive: seconds between ordered truthy times, else 1 |
| TimingRecords.FormatKeepsDuration | scripts/processor.js:65-69 | normalising keeps every duration |
| Sharding.Files | scripts/distributeTests.mjs:121 | the file names, in order |
| Sharding.TimedTests | scripts/distributeTests.mjs:87-98 | one test per record, in order |
| Sharding.TimedTestsArePositive | scripts/distributeTests.mjs:93-96 | every test read from a timings file has a positive time |
| Sharding.ParseArguments | scripts/distributeTests.mjs:37-63 | the arguments are accepted exactly when the shard count is positive, a given index lies in 1..shards, and the file exists; the shard check comes first |
| Sharding.LoadTimingsData | scripts/distributeTests.mjs:74-99 | an unreadable file or one without an array is an error; otherwise one test per record, named by its relative path or "unknown.test.js", timed by the duration rule |
| Sharding.SortByTimeDescending | scripts/distributeTests.mjs:110 | sorting longest first keeps every test and orders them by non-increasing time |
| Sharding.EmptyShards | scripts/distributeTests.mjs:112-115 | n shards, each with runtime 0 and no files |
| Sharding.Assign | scripts/distributeTests.mjs:119-122 | one step keeps the number of shards |
| Sharding.Greedy | scripts/distributeTests.mjs:118-123 | the loop keeps the number of shards |
| Sharding.AssignGreedily | scripts/distributeTests.mjs:118-123 | the loop over the tests computes `Greedy` |
| Sharding.AssignChoosesLeastLoaded | scripts/distributeTests.mjs:120-122 | each test goes to a shard of least runtime, the earliest on ties |
| Sharding.AssignKeepsOtherShards | scripts/distributeTests.mjs:120-122 | the other shards are carried over unchanged |
| Sharding.BagSort | scripts/distributeTests.mjs:120 | sorting the shards moves shards and nothing else |
| Sharding.BagAssign | scripts/distributeTests.mjs:120-122 | one step adds the test once |
| Sharding.GreedyPlacesEachTestOnce | scripts/distributeTests.mjs:118-123 | the shards end up holding every test exactly once |
| Sharding.GreedyKeepsRuntimes | scripts/distributeTests.mjs:118-123 | each shard's runtime is the sum of its files' times |
| Sharding.SortKeepsRuntimes | scripts/shard.mjs:105 | sorting the shards keeps each runtime equal to the sum of its times |
| Sharding.GreedyOneShard | scripts/distributeTests.mjs:118-123 | with one shard the loop only appends, in the order given |
| Sharding.GreedyKeepsFileOrder | scripts/distributeTests.mjs:109-123 | tests taken longest first land longest first in every shard |
| Sharding.DistributionProperties | scripts/distributeTests.mjs:108-126 | the distribution has the requested number of shards, every test once, runtimes that sum their files, and files longest first |
| Sharding.NonEmptyShards | scripts/distributeTests.mjs:149 | the filter keeps only non-empty shards of the input |
| Sharding.NonEmptyShardsKeepTests | scripts/distributeTests.mjs:148-149 | dropping the empty shards loses no test |
| Sharding.SomeShardIsPrinted | scripts/distributeTests.mjs:148-149 | when some shard holds a test, at least one shard is printed |
| Sharding.Numbered | scripts/distributeTests.mjs:150-153 | shard i prints as index i + 1 with its files joined by spaces |
| Sharding.FindByIndex | scripts/distributeTests.mjs:160-162 | a found shard is in the list and has the target index |
| Sharding.FindOutput | scripts/distributeTests.mjs:160-162 | lookup by number finds the target-th printed shard, and nothing outside 1..count |
| DistributeTests.DistributeTestsIntoShards | scripts/distributeTests.mjs:108-126 | returns the distribution: the requested number of shards, every test once, runtimes that match |
| DistributeTests.Run | scripts/distributeTests.mjs:131-176 | `main` ends as `MainOutcome` says |
| DistributeTests.AllShardsPrinted | scripts/distributeTests.mjs:145-157 | without an index, the printed shards are the non-empty ones numbered 1..k with 1 <= k <= shards, holding every test once |
| DistributeTests.IndexSelectsShard | scripts/distributeTests.mjs:158-170 | with an index, that printed shard is selected when it exists, otherwise only a warning; shard 1 always exists |
| DistributeTests.FailuresAndWarnings | scripts/distributeTests.mjs:139-142 | a failed check is an error, exactly; an empty array only warns, exactly |
| ShardMjs.NewTests | scripts/shard.mjs:82-90 | the added tests are exactly the given paths the timings do not know, relative and charged 1 second |
| ShardMjs.Distribute | scripts/shard.mjs:19-120 | `distribute` ends as `DistributeOutcome` says |
| ShardMjs.TestsToPlaceProperties | scripts/shard.mjs:79-90 | the timed tests come first, longest first, then the new paths at 1 second each; nothing is lost or added |
| ShardMjs.FilesOfPermutation | scripts/shard.mjs:85 | a permutation has the same file names |
| ShardMjs.FinalShardsProperties | scripts/shard.mjs:93-105 | after the final sort there are still n shards, every test once, and runtimes that match |
| ShardMjs.FinalShardsOrdered | scripts/shard.mjs:105 | the returned shards have non-increasing runtimes |
| ShardMjs.DistributeOutcomeCases | scripts/shard.mjs:105-119 | with valid input the run warns exactly when the selected shard is empty, and otherwise returns the non-empty shards numbered from 1, holding every test once |
| ShardMjs.DistributeFails | scripts/shard.mjs:27-63 | a failed check exits with status 1, exactly |
| ShardExample.TwoShardsOutcome | scripts/__tests__/shard.test.ts:37-38 | four tests of 10, 20, 30 and 40 ms on two shards give "d a" and "c b" |
| ShardExample.OneShardOutcome | scripts/__tests__/shard.test.ts:39 | the same tests on one shard give "d c b a" |
| ShardExample.ExampleTwoShards | scripts/__tests__/shard.test.ts:6-38 | the test's own timings data on two shards gives "d a" and "c b" |
| ShardExample.ExampleOneShard | scripts/__tests__/shard.test.ts:6-39 | the test's own timings data on one shard gives "d c b a" |
| ShardJs.Run | scripts/shard.js:35-112 | the script ends as `RunOutcome` says |
| ShardJs.RunFails | scripts/shard.js:41-74 | a failed check exits with status 1, exactly |
| ShardJs.RunPrintsSelectedShard | scripts/shard.js:104-112 | with valid input the script warns exactly when the selected shard is empty, and otherwise prints its files |
| ShardJs.SelectedShardContents | scripts/shard.js:87-102 | the printed shard lists timed tests longest first; over all indexes, every test is printed once |
| ShardJs.NoTestsOnlyWarns | scripts/shard.js:104-109 | an empty array only warns |
| ShardJs.OneShardHoldsEverything | scripts/shard.js:98-102 | with one shard, the shard holds every test longest first |
| ShardJs.OneShardPrintsEverything | scripts/shard.js:104-112 | with one shard and some tests, the script prints every test longest first |
| OrderedMaps.Empty | scripts/updateTimings.mjs:110 | `new Map()` is well formed |
| OrderedMaps.Without | scripts/updateTimings.mjs:118 | removing a key keeps exactly the other keys, still distinct |
| OrderedMaps.ValuesOf | scripts/updateTimings.mjs:134 | `Array.from(map.values())` lists the value of each key in insertion order |
| OrderedMaps.PutMeaning | scripts/updateTimings.mjs:112 | `set` stores the value under the key, keeps every other key, keeps a present key's place and appends a new key |
| OrderedMaps.RemoveMeaning | scripts/updateTimings.mjs:118 | `delete` removes the key, keeps every other key and value, and keeps the order |
| OrderedMaps.OrderedMap.constructor | scripts/updateTimings.mjs:110 | a new map is empty |
| OrderedMaps.OrderedMap.Set | scripts/updateTimings.mjs:112 | `set` updates the map as `Put` says |
| OrderedMaps.OrderedMap.Delete | scripts/updateTimings.mjs:118 | `delete` updates the map as `Remove` says and reports whether the key was there |
| OrderedMaps.OrderedMap.Values | scripts/updateTimings.mjs:134 | the loop lists the values in insertion order |
| TimingsMerge.MergedSnoc | scripts/updateTimings.mjs:126-131 | one more record is stored under its key, or skipped |
| TimingsMerge.MergedKeepsOrder | scripts/updateTimings.mjs:108-135 | merging keeps the map well formed and the old keys first, in their order |
| TimingsMerge.MergedDomain | scripts/updateTimings.mjs:126-131 | after merging the keys are the old keys plus the keys of the stored records |
| TimingsMerge.MergedLastWins | scripts/updateTimings.mjs:126-131 | the last stored record with a key is the one kept |
| TimingsMerge.MergedKeepsOthers | scripts/updateTimings.mjs:126-131 | a key that no stored record has keeps its entry, or stays absent |
| TimingsMerge.MergedSkips | scripts/combine.js:71-77 | a record the loop does not store changes nothing |
| TimingsMerge.KeysOf | scripts/updateTimings.mjs:111-113 | the keys of the records, in order |
| TimingsMerge.KeyedKeys | scripts/updateTimings.mjs:111-113 | records without duplicate keys each add their own key, in order |
| TimingsMerge.KeyedWithoutDuplicates | scripts/combine.js:65-68 | keying records without duplicate keys and listing the values gives the records back |
| TimingsMerge.RemoveAllMeaning | scripts/updateTimings.mjs:115-123 | deleting keys removes exactly those keys, keeps every other entry, and keeps the order of the rest |
| TimingsMerge.PutAll | scripts/updateTimings.mjs:111-113 | the loop succeeds exactly when every record has a name, and then stores every record |
| TimingsMerge.PutNamed | scripts/combine.js:71-77 | the loop stores every record with a truthy name |
| TimingsMerge.DeleteAll | scripts/updateTimings.mjs:117-123 | the loop deletes each key |
| UpdateTimings.MergedEntriesWellFormed | scripts/updateTimings.mjs:108-135 | the merged map is well formed |
| UpdateTimings.MergeTimings | scripts/updateTimings.mjs:108-136 | `mergeTimings` returns the merge `Merge` describes, or the TypeError of a nameless record |
| UpdateTimings.ResolveAll | scripts/updateTimings.mjs:30 | each deleted path is resolved, in order |
| UpdateTimings.RunUpdate | scripts/updateTimings.mjs:141-173 | `main` ends as `UpdateOutcome` says |
| UpdateTimings.NothingToUpdateExactly | scripts/updateTimings.mjs:153-161 | nothing is written exactly when no path is deleted and the new run's array is empty |
| UpdateTimings.UpdateFailures | scripts/updateTimings.mjs:145-172 | the run fails exactly when the new results cannot be read without deletions, or an existing record has no name |
| UpdateTimings.FormattedRecordsAreStored | scripts/updateTimings.mjs:66-70 | every formatted record is stored, a nameless one under `path.resolve("unknown")` |
| UpdateTimings.DeletionIgnoresNewResults | scripts/updateTimings.mjs:147-152 | with deleted paths the new results are never read |
| UpdateTimings.DeletionRemovesExactly | scripts/updateTimings.mjs:115-123 | with deleted paths exactly those paths leave the timings; the other entries keep their records and order |
| UpdateTimings.UpdateWrites | scripts/updateTimings.mjs:163-167 | a readable non-empty run is written as the merged entries, in insertion order |
| UpdateTimings.UpdateKeepsLatest | scripts/updateTimings.mjs:125-131 | the last new result for a path is written, formatted |
| UpdateTimings.UpdateKeepsOthers | scripts/updateTimings.mjs:108-135 | existing entries keep their places, and an entry no new result names keeps its record |
| UpdateTimings.ExistingFallback | scripts/updateTimings.mjs:81-99 | a missing, unparseable or array-less timings file counts as an empty one |
| CombineTimings.ExistingRecords | scripts/combine.js:50-68 | the existing records are none for a missing or unparseable file, an error for a parsed file without an array, and otherwise the array |
| CombineTimings.CombinedWellFormed | scripts/combine.js:65-77 | the combined map is well formed |
| CombineTimings.Combine | scripts/combine.js:29-85 | the script ends as `CombineOutcome` says |
| CombineTimings.CombineFailures | scripts/combine.js:29-68 | the run fails exactly when the new results cannot be read, the existing file has no array, or an existing record has no name |
| CombineTimings.NamelessNewResultIsSkipped | scripts/combine.js:71-77 | a new record with a falsy name changes nothing |
| CombineTimings.CombineKeepsLatest | scripts/combine.js:71-77 | the last new record for a path is written, unformatted |
| CombineTimings.CombineKeepsOthers | scripts/combine.js:65-77 | existing entries keep their places, and a path no new record names keeps its record |
| CombineTimings.EmptyRunRewritesFile | scripts/combine.js:71-84 | an empty run rewrites a timings file without duplicate paths unchanged |

## Where the code differs from what it documents

- **Nameless results in `scripts/updateTimings.mjs`.**
  - The code formats the new results first (`name || "unknown"`), so `if (!newTr.name) continue` never fires.
  - A nameless result is stored under `path.resolve("unknown")`, not skipped (`UpdateTimings.FormattedRecordsAreStored`).
  - `scripts/combine.js` does skip such records (`CombineTimings.NamelessNewResultIsSkipped`).
- **The return value of `scripts/shard.mjs`.** `scripts/__tests__/shard.test.ts` expects a space-separated string. The code returns a list of `{index, files}` objects, and the model follows the code (`ShardExample`).
- **Where the configuration travels.**
  - The browser sends the configuration, and later its ready reply, on the WebSocket, wrapped by `DataChannelMessage.init` and `DataChannelMessage.ready` (`src/hooks/useRTC.tsx:163-166`, `236`).
  - The server's WebSocket handler routes only `offer` and `iceCandidate` and warns on anything else (`node/index.js:263-381`). It parses `SEND ...` commands only from data-channel messages (`node/index.js:133`).
  - The browser never writes to the data channel, and its data-channel `onmessage` keeps only binary frames, so the server's text replies are dropped there.
  - `BrowserPeer.ConfigurationParsesOnServer` therefore proves only that the text would parse if it reached the server's parser behind a `SEND ` prefix. The prefix and the route are assumptions.
- **The ready handshake.**
  - The browser replies to `SEND READY` arriving as a `dataChannel` signal on the WebSocket, but the server sends `send ready` on the data channel (`BrowserPeer.HandshakeCases`, `DataSender.SendCommandSetsConfig`).
  - Nothing in the model turns one into the other.
- **`test.time ? test.time : 0`** in `scripts/shard.mjs` differs from `test.time` only for NaN. NaN is not a value the model can hold, so the time itself is charged.

## Left out

- Console logging is left out: `console.log`, `console.warn` and `console.error`, including the per-record debug print of `scripts/shard.js:79`.
- `minimist` defaults and command-line parsing are left out. The arguments arrive parsed, with `None` for a NaN from `parseInt`.
- `processor.js --help` is not modelled.
- File reading and writing and `process.exit` are left out. A file is a `TimingsFile` value, and an exit is an `Outcome`.
- Record properties other than `name`, `startTime` and `endTime` are left out.
  - A non-string name, a JSON `null` record and a non-array iterable `testResults` are not modelled.
- `convertBytes` in `src/utils/helper.ts:10-26` is left out: it works in floating point with `Math.log10` and `toFixed`.
- `currentFormattedDate` is left out. A history entry keeps only its two counters.
- The `DataChannelMessage` wrappers are not modelled; their arguments are kept.
- BrowserPeer.ConfigurationParsesOnServer: assumes the `SEND ` prefix and a route from the browser's WebSocket message to the server's data-channel parser. Neither is in the code (see "Where the code differs").
- SignalingGateway.Gateway.OnMessage: a WebSocket message that is not JSON is not modelled. `JSON.parse` at `node/index.js:260` throws inside the async handler with no `catch` and no process-level handler, so the rejection is unhandled and, by Node's default since version 15, ends the server for every peer; the model has no state for a stopped process. (The browser's `onmessage`, `BrowserPeer.Peer.OnSignal`, does model it: `UnparseableSignal` changes nothing.)
- Times, delays and the loss percentage are exact numbers in the model: floating-point rounding and the `toFixed(1)` display rounding are not modelled.
- DataSender.SendFields: `parseInt` of a digit group above 2^53 loses precision in JavaScript; the model reads the exact value.
- Default arguments are explicit parameters: `sequenceNumberSize = 4` of `extractSequenceNumber` and `packDataWithSequenceNumber` (`SequenceHelper.DEFAULT_SEQUENCE_NUMBER_SIZE`), and `totalCells = 100` of the heat map.
- Asynchrony is not modelled: `await`, promise rejection inside `getStats`, and `setTimeout`.
  - The browser's 2-second delay before `closed` (`useRTC.tsx:55-65`) and the periodic `dumpStats` polling are left out.
- `Date.now()` and `Math.random()` are parameters. The model says nothing about their values.
- The video path is left out: `streamDummyVideo`, the canvas frames, `ontrack`, media tracks, and the `MediaStream` and `Video` panels.
  - In video mode `InitiateTest` creates no data channel, and nothing more.
- The no-op `setInterval` in `ondatachannel` (`node/index.js:309`) is left out: it does nothing observable.
- `sendTimeoutId` is never started by the source, so it has no counterpart in the model.
- `setLocalDescription` on either side and SDP contents are opaque. An offer's outcome is a parameter.
- The post-processors, `scripts/summary.mjs` and the configuration files are not part of this model.
- SequenceHelper.FindMissingSequenceNumber: the total is a `nat`. The `RangeError` of `Array(n)` for a negative or fractional length is not modelled.
- Rendering (JSX markup, colours, chart layout) is not modelled. Only the values it shows are modelled.
