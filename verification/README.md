# A verified model of the FreeTAKServer relay and its service protocol

FreeTAKServer moves Cursor-on-Target (CoT) events between clients. This project models the two
parts of it that hold state shared by many clients, and proves what they guarantee over every input
and every run:

* the Rust relay `fts-rs/src/main.rs`: cutting events out of a chunked byte stream, escaping and
  building events, refreshing time stamps, and the concurrent relay itself with its caches, its
  registry and its broadcast channel;
* the Python protocol between the CoT services and the core: the central user table, the
  reconciliation of every service's client table against it, the fan-out of shared messages, and the
  routing of one message to clients; and the dictionary-based merge of object lists.

`dafny verify dfyconfig.toml` checks everything.

| file | what it holds |
|---|---|
| `Substrings.dfy`, `Framing.dfy` | substring search; `extract_cot_events`; chunk invariance with its exact condition |
| `Conservation.dfy` | no byte is lost; writing events and framing them again; `strip_xml_declaration` |
| `Escaping.dfy`, `CotBuilders.dfy` | `xml_escape` and its decoder; file-share, pong, disconnect and emergency events |
| `EventTimes.dfy`, `EventText.dfy` | `rewrite_event_times` against `parse_cot_internal`, on tokens and on bytes |
| `ReadBack.dfy` | reading the built and refreshed events back, attribute by attribute |
| `Relay.dfy`, `RelayTraces.dfy`, `RelayRuns.dfy`, `RelayTheorems.dfy` | the relay as a state machine, its invariant, what every run guarantees |
| `RelayLaws.dfy` | what each kind of event makes the relay do: registrations, farewells, full replays, deliveries |
| `RelayServer.dfy`, `RelayRegistry.dfy` | the shared maps updated in place; who is registered under which uid |
| `UserTable.dfy`, `ServiceSync.dfy`, `FanOut.dfy`, `Routing.dfy` | the service protocol |
| `MergeLists.dfy`, `EnterpriseSync.dfy` | `merge_object_lists`; uploads, privacy and the default search |

## How the code is modelled

* **Bytes** are characters with the byte's code. The laws hold for all sequences of characters, and
  escaping characters before encoding equals escaping the encoded bytes (`EscapeUtf8`).
* **Parameters.** The XML reader, the clock and generated UUIDs are parameters. The builders assume of
  time stamps and UUIDs only that they hold no `<`, `>`, `&` or quote (RFC 3339, section 5.6).
  `to_lowercase` matters only for the last four ASCII letters of a file name.
* **Atomicity.** In the relay every lock acquisition, channel send and socket write is one operation.
  The frames of a read become a straight-line program of operations, and the operations of all
  connections, the tickers and the HTTP handlers interleave freely; a file share looks its sender up and is sent
  in two steps. A failed read or write ends a
  connection without cleanup, at any write. The trace records each operation when it takes effect.
* **Channel.** The broadcast channel is an append-only log with one cursor per connection. A cursor
  may skip when it is more than 100 messages behind, which allows every lag that the real channel,
  whose capacity is rounded up, allows.
* **Python queues** are FIFO. Every `put` may find its queue full; uids whose operation was lost so are
  recorded until a later operation about them is queued. Every socket write of a call succeeds or fails on its own.

## Where the code does not do what one would expect

* `</event>` is searched before the self-closing test, so a self-closing event followed by a closed one
  in the same read is one frame (`SelfClosedMergesExample`). `ChunkInvariance` gives the exact condition.
* A self-closing event is never parsed (`ReadsOnlyOpenEvents`, `SelfClosingIsNotRead`), although the test at
  fts-rs/src/main.rs:1659 feeds one and expects a replay.
* `build_disconnect_cot` does not escape the uid; `DisconnectFramesIff` says exactly which uids frame, and
  `DisconnectReads` which are read back.
* `rewrite_event_times` writes raw attribute values between double quotes, so an attribute that was
  quoted with `'` and holds a `"` is not read back (`RewrittenReadsBackIff`, exactly when).
* Cleanup of a connection unregisters another one that registered the same uid (`CleanupHitsSharedUid`;
  `SharedUidIsLost` is such a run).
* A connection whose read or write fails is never cleaned up: its entry in `conn_state` stays for ever (`BrokenStays`,
  `BrokenIsStillFound`), the one in `uid_to_conn` until the uid is announced again or another connection with it is
  cleaned up, its presence until then or until anybody sends a `t-x-d-d` for it.
* An emergency is sent behind an XML declaration, which framing drops, so no client gets the line as it was written; and
  its uid and name are not escaped (`EmergencyFramesIff`, `EmergencyReads`).
* Refreshing a cached event can destroy it: an end tag can be read as part of an event tag, which is written anew without
  it (`SwallowedEnd`), and white space dropped from `</event >` can make an end tag too early
  (`RefreshedIsClosedIff`, exactly when).
* A client that disconnects before its service has reconciled is removed neither there nor in the core
  (`EarlyDisconnectChangesNothing`).
* "add" replaces a user's whole connection table, so a uid shared by two services is taken from the
  first, which then closes its client (`SharedUidIsTakenOver`, `HoldsIsLastAdd`).
* The presences sent after a new client's event go to every service except the one the client connected
  to; the comment at FreeTAKServer/controllers/services/FTS.py:1439 says the opposite
  (`RosterSkipsTheNewClientsService`).
* A message that is not a GeoChat, has no marti element and names a chat group is sent on as directed and
  always fails there, for it has no destinations (`ChatWithoutMartiFails`). `SmoothIffRoutable` gives the exact
  condition under which routing meets no error of its own.
* `merge_object_lists` with two entries of one id in the first list may keep a proxy and drop the real
  object (`DuplicateLosesReal`; `MergePrefersRealIff` says exactly when it does not).
* The file write and the table insert of an upload are two steps, and the write truncates first. Uploads under one
  hash that cross, or one that fails, leave a row whose size is not that of the file (`CrossedUploads`,
  `FailedUpload`; `SizeIsStoredLength` says exactly when it is).

## Model

| member | source | states |
|---|---|---|
| Substrings.Find | fts-rs/src/main.rs:1383-1388 | the result is an occurrence with none before it, and `None` only when there is none (or the needle is empty) |
| Framing.PendingBuffer.ExtractCotEvents | fts-rs/src/main.rs:1482-1524 | the draining loop leaves in the buffer, and returns, exactly what the recursive framing says |
| Framing.PendingBuffer.Receive | fts-rs/src/main.rs:1131-1132 | one read: the bytes are appended to the pending ones before framing |
| Framing.SelfClosedShape | fts-rs/src/main.rs:1390-1400 | a frame cut as self-closed ends at its first `>` and has `/` before it |
| Framing.ExtractSettles | fts-rs/src/main.rs:1482-1524 | what extraction leaves behind yields no frame and loses no byte when extracted again |
| Framing.SplitInvariance | fts-rs/src/main.rs:1482-1524 | reading A and then B gives the events and leftover of reading A+B if and only if no self-closed frame cut from A is followed by `</event>` in A+B |
| Framing.ChunkInvariance | fts-rs/src/main.rs:1482-1524 | every way of cutting a stream into reads gives the same events and leftover if and only if no frame of the stream has its first `>` preceded by `/` and more bytes after it |
| Framing.OpenTagsFrameAlike | fts-rs/src/main.rs:1482-1524 | a stream in which no `<event` tag is self-closing is framed alike under every chunking |
| Conservation.CutIsFrame | fts-rs/src/main.rs:1504-1517 | every frame starts with `<event` and ends at its only `</event>`, or, self-closed, at its only `>` and holds no `</event>` |
| Conservation.ByteConservation | fts-rs/src/main.rs:1482-1524 | with no premise, over any reads: the stream is gap, event, ..., gap, leftover; `<event` begins in no gap; every event is one frame |
| Conservation.FeedSegments | fts-rs/src/main.rs:1482-1524 | the events and leftover of any sequence of reads are a segmentation of the whole stream that drops only bytes before which no start tag begins |
| Conservation.WireStripped | fts-rs/src/main.rs:1470-1480 | writing any list of lines that strip to closed frames, and framing the bytes, gives the stripped lines; under every chunking exactly when each of them is unambiguous |
| Conservation.WireRoundTrip | fts-rs/src/main.rs:1470-1480 | writing any list of closed frames, one line each, and framing the bytes gives the list back; under every chunking exactly when each frame is unambiguous |
| Conservation.SelfClosedMergesExample | fts-rs/src/main.rs:1504-1517 | a stream whose frames depend on where the read boundary falls |
| Conservation.StripXmlDeclaration | fts-rs/src/main.rs:1413-1424 | what is cut off the front is white space and at most one complete XML declaration with the white space after it; what is left starts with no white space and, if no declaration was cut off, with none |
| Conservation.StripIff | fts-rs/src/main.rs:1413-1424 | and no other result fits that description |
| Conservation.TrimLeadingWhitespace | fts-rs/src/main.rs:1402-1411 | removes exactly the longest prefix of white space |
| Conservation.FrameNeedsNoStripping | fts-rs/src/main.rs:1134-1137 | stripping leaves every frame unchanged and non-empty |
| Escaping.XmlEscape | fts-rs/src/main.rs:863-876 | the output loop escapes: no `<`, `>` or quote in the output, and decoding the five entities gives the input |
| Escaping.TheFiveEntities | fts-rs/src/main.rs:863-876 | which character becomes which entity, and that every other stays |
| Escaping.UnescapeEscape | fts-rs/src/main.rs:863-876 | decoding undoes escaping for every string |
| Escaping.EscapeImage | fts-rs/src/main.rs:863-876 | the outputs are exactly the strings without markup in which every `&` starts an entity, and escaping undoes decoding on them |
| Escaping.EscapeInjective | fts-rs/src/main.rs:863-876 | different texts have different escapes |
| Escaping.EscapeConcat | fts-rs/src/main.rs:863-876 | escaping distributes over concatenation |
| Escaping.EscapeUtf8 | fts-rs/src/main.rs:863-876 | escaping characters and then encoding is encoding and then escaping bytes |
| CotBuilders.FileshareIsFrame | fts-rs/src/main.rs:816-852 | for all names, hashes, URLs, uids, callsigns and destinations the event is one closed, unambiguous frame |
| CotBuilders.FileshareFrames | fts-rs/src/main.rs:816-852 | sent as a line it is received as exactly itself under every chunking |
| ReadBack.FileshareParsesBack | fts-rs/src/main.rs:816-852 | for all texts, reading the event back element by element gives exactly the attributes meant, each decoded value under its own name in its own element |
| ReadBack.ZipNameIs | fts-rs/src/main.rs:830-834 | the file name is the share's name if that ends in `.zip` in any case, else with `.zip` added |
| ReadBack.DecimalReads | fts-rs/src/main.rs:841 | the printed size is digits that stand for it, behind a minus sign when negative |
| CotBuilders.PongIsFrame | fts-rs/src/main.rs:1588-1593 | the pong is one closed, unambiguous frame |
| ReadBack.PongReads | fts-rs/src/main.rs:1588-1593 | the attributes read back from the pong, by element and name |
| CotBuilders.DisconnectFramesIff | fts-rs/src/main.rs:1578-1586 | the event frames as itself in one read iff the uid holds no `</event>`, and under every chunking iff, besides, the uid's first `>` has no `/` before it |
| ReadBack.DisconnectReads | fts-rs/src/main.rs:1578-1586 | the disconnect event is read back with the uid in the event and its link, its type and its three times, iff the uid holds no double quote |
| CotBuilders.EmergencyFramesIff | fts-rs/src/main.rs:984-998 | no emergency comes back as its line, for the declaration is lost; its stripped event comes out alone in one read iff neither uid nor name holds `</event>`, and under every chunking iff, besides, the uid's first `>` has no `/` before it |
| ReadBack.EmergencyReads | fts-rs/src/main.rs:984-998 | an emergency is read back with uid, times, position, kind and callsign each under its name iff neither uid nor name holds a double quote; a cancellation says so, at position 0.0 and without a contact |
| CotBuilders.PrologStripped | fts-rs/src/main.rs:1018-1027 | stripping an emergency gives the event behind its declaration |
| CotBuilders.WrittenAttrsReadBack | fts-rs/src/main.rs:1341-1352 | raw values written between double quotes are read back iff no value holds a double quote |
| EventTimes.ParseCot | fts-rs/src/main.rs:1219-1292 | the reader loop computes the scan of the tokens up to the first fault |
| EventTimes.ReadsOnlyOpenEvents | fts-rs/src/main.rs:1230-1291 | an event is read iff an opening `event` tag comes before any reader error |
| EventTimes.ParseReads | fts-rs/src/main.rs:1219-1292 | uid and type are the last decodable ones of the opening tags before the first error, or empty; the callsign is the last decodable one of the contact tags; the flag tells whether there is one |
| EventTimes.LastValueIff | fts-rs/src/main.rs:1232-1275 | what the last decodable value of a key is, by position |
| EventTimes.SelfClosingIsNotRead | fts-rs/src/main.rs:1262-1291 | nothing is read from a self-closing event |
| EventTimes.RewriteEventTimes | fts-rs/src/main.rs:1327-1381 | fails iff the reader faults; otherwise rewrites token by token, and in every event tag whatever stands under `time` or `start` is the new time and whatever stands under `stale` the new stale time |
| EventTimes.RewriteAttrs | fts-rs/src/main.rs:1339-1370 | the readable attributes other than the three times, in order, then the three new times: `time` and `start` say the time, `stale` the stale time |
| EventTimes.RewritePreservesReading | fts-rs/src/main.rs:1327-1381 | for every decoder the server reads the same uid, type, callsign and contact flag from the rewritten tokens |
| EventTimes.RewrittenReadsBackIff | fts-rs/src/main.rs:1339-1370 | the bytes written for an event tag are read back as the rewritten values iff no kept value holds a double quote |
| EventTimes.TimesOccurOnce | fts-rs/src/main.rs:1339-1370 | a rewritten event tag has exactly one time, one start and one stale |
| EventTimes.OthersKeepOrder | fts-rs/src/main.rs:1339-1370 | all other attributes keep their order and raw values |
| EventTimes.OthersStay | fts-rs/src/main.rs:1339-1370 | whatever attributes one looks for besides the three times, a rewritten tag has those it had, in order and with their raw values |
| EventTimes.RewriteTwice | fts-rs/src/main.rs:1327-1381 | rewriting twice is rewriting once with the later times |
| EventText.RewritesTokens | fts-rs/src/main.rs:1337-1380 | the pieces that are written have exactly the rewritten tokens |
| EventText.RefreshedIsClosedIff | fts-rs/src/main.rs:1327-1381 | refreshing a closed frame gives a closed frame iff its end tag was not read as part of an event tag and no earlier end tag is made by dropping white space |
| EventText.RefreshedFrameIff | fts-rs/src/main.rs:1327-1381 | and an unambiguous one iff, besides, the first tag, as written, has no `/` before its first `>` |
| EventText.SwallowedEnd | fts-rs/src/main.rs:1339-1353 | a closed frame that refreshing destroys |
| ReadBack.RefreshedTagReads | fts-rs/src/main.rs:1341-1370 | reading the attributes of a refreshed tag back from its bytes gives the kept ones and then `time` and `start` with the new time and `stale` with the stale one, iff no kept value holds a double quote |
| RelayServer.Server.UpdateConnectionState | fts-rs/src/main.rs:1526-1546 | the two map writes are the two registering operations of the state machine |
| RelayServer.Server.CleanupConnection | fts-rs/src/main.rs:1548-1568 | returns the registered uid and removes the connection, the uid and its presence |
| RelayServer.Server.HandleEof | fts-rs/src/main.rs:1123-1129 | cleanup, and a disconnect message exactly when there was a uid |
| RelayServer.Server.RemovePresence | fts-rs/src/main.rs:1570-1576 | tells whether there was presence, and removes it |
| RelayServer.Server.SendCache | fts-rs/src/main.rs:1426-1456 | one cache is written to the socket: every entry once, refreshed, in some order |
| RelayServer.Server.HandleEvent | fts-rs/src/main.rs:1162-1191 | the branches on the event's type do to the maps and the channel what the event's program says, and write a pong exactly for a ping of a non-WinTAK uid |
| RelayServer.Server.HandleFrames | fts-rs/src/main.rs:1133-1193 | run alone, the loop over a read's frames has the effect of the compiled program, sets `replay_sent` iff something parsed, and writes the two caches as they were before the read iff it holds the first parsed event and that is not of a WinTAK uid, and then one pong per ping |
| RelayTraces.PresenceIsLastPut | fts-rs/src/main.rs:1162-1191 | over any trace, `presence_cache[u]` is an event iff it is the last one put for u and u was not removed since |
| RelayTraces.RepeatIsLastWrite | fts-rs/src/main.rs:1180-1185 | over any trace, `repeat_cache` is the last-write-wins projection by uid |
| RelayTraces.FoundIsLastSet | fts-rs/src/main.rs:1526-1568 | over any trace, `uid_to_conn[u]` is c iff c was the last to announce u and no cleanup of u came since |
| RelayTraces.UidIsOwn | fts-rs/src/main.rs:1526-1568 | only a connection's own operations decide the uid it is registered under |
| RelayRuns.StepKeeps | fts-rs/src/main.rs:1101-1209 | every step of every connection, ticker and handler keeps the invariant tying caches, programs and socket outputs to the trace and the channel |
| RelayRuns.ReachableKeeps | fts-rs/src/main.rs:1101-1209 | the invariant holds in every reachable state |
| RelayTheorems.CachesAreProjections | fts-rs/src/main.rs:1162-1191 | in every reachable state both caches are the last-write projections of what happened |
| RelayTheorems.CacheEntriesComeFromStreams | fts-rs/src/main.rs:1162-1191 | what is cached is a frame of that type and uid from the writer's own stream; what is removed was a `t-x-d-d` of its stream or the cleanup of a connection that last announced that uid |
| RelayTheorems.CacheWritesFollowStreams | fts-rs/src/main.rs:1162-1191 | a connection's cache writes are a prefix, in order, of those that the events of its stream and its end ask for; all of them once its work is done |
| RelayLaws.Classifiers | fts-rs/src/main.rs:1170-1187 | the kinds and prefixes that the branches tell apart |
| RelayLaws.RegistrationsFollowStreams | fts-rs/src/main.rs:1172-1187 | in every reachable state the registrations a connection has made are a prefix, in order, of those its stream asks for: exactly those of its presence events and of its events with a contact that are neither ping, pong, disconnect nor to be repeated, each with its uid and callsign; all of them once its work is done |
| RelayLaws.StreamRegisters | fts-rs/src/main.rs:1526-1546 | a stream leaves its connection with the uid of its last such event, and with the callsign of the last one that has one |
| RelayLaws.RegisteredAsAnnounced | fts-rs/src/main.rs:1526-1546 | so in every reachable state a connection with nothing under way is registered under that uid and callsign, and not at all if there was none |
| RelayLaws.EndFollowsStream | fts-rs/src/main.rs:1123-1129 | a connection unregisters and says goodbye only after the end of its stream, and then once, for that uid |
| RelayLaws.SendIsLast | fts-rs/src/main.rs:1172-1191 | an event that is neither ping nor pong is sent on, once, after everything else it causes |
| RelayTheorems.ExactlyOnceInOrder | fts-rs/src/main.rs:1162-1199 | the channel messages of a connection are a prefix of its parsed frames that are neither ping nor pong, in order; all of them once its work is done |
| RelayTheorems.ChunkingDoesNotMatter | fts-rs/src/main.rs:1131-1132 | for an unambiguous stream what is relayed does not depend on the reads |
| RelayTheorems.RelayedLines | fts-rs/src/main.rs:1195-1206 | relayed lines are channel messages of other senders, in order, each once; all of them for a connection that never lagged |
| RelayLaws.ServerMessagesReachAll | fts-rs/src/main.rs:984-1030 | in every reachable state the sender of an emergency or a refreshed event is no connection, and a connection that did not lag has got each of them from its acceptance to its cursor |
| RelayLaws.SubscribedSinceAccepted | fts-rs/src/main.rs:295-324 | a connection starts with what is sent after it was accepted, with nothing received or written, and that never changes |
| RelayLaws.CatchesUp | fts-rs/src/main.rs:1195-1206 | an open connection that is not busy can receive everything in the channel without lagging |
| RelayLaws.Finishes | fts-rs/src/main.rs:1133-1193 | a connection that has begun to handle a read, or its cleanup, can finish |
| RelayTheorems.IdsAreFresh | fts-rs/src/main.rs:141-143 | connection ids are never reused and never 0, the sender of server messages |
| RelayTheorems.ReplayComesFirst | fts-rs/src/main.rs:1140-1152 | a program replays the caches at most once, before everything else, iff the first parsed uid is not a WinTAK one |
| RelayTheorems.OnePongPerPing | fts-rs/src/main.rs:1162-1173 | a program answers each ping of a non-WinTAK uid with one pong and nothing else with one |
| RelayTheorems.OwnOutput | fts-rs/src/main.rs:1140-1170 | in every reachable state the lines that are not relayed are the presence cache, the repeat cache and pongs, in that order; the caches as they were when replaying them was the connection's first and second operation, and no later operation replays; none for a WinTAK first uid; in full, and one pong per ping, once its work is done |
| RelayLaws.FullReplay | fts-rs/src/main.rs:1140-1152 | once its work is done, a connection whose first uid is not a WinTAK one has got every entry of the presence cache once, refreshed for 5 minutes, then every entry of the repeat cache once, refreshed for a day, each as it was when it was replayed, and then one pong per ping |
| RelayTheorems.ClientMessagesAreFrames | fts-rs/src/main.rs:1162-1199 | every client message in the channel is, byte for byte, a frame of its sender's stream |
| RelayTheorems.ClientMessagesAreClosed | fts-rs/src/main.rs:1162-1199 | with a reader that ignores self-closing events every client message in the channel is a closed frame |
| RelayTheorems.ClientReadsBack | fts-rs/src/main.rs:1470-1480 | in every reachable state the lines on a socket are recovered stripped, in order, by framing its bytes, however they arrive, if what the server made strips to closed frames and no stripped line is ambiguous |
| RelayTheorems.RefreshedLines | fts-rs/src/main.rs:151-175 | every replayed line and every event that a ticker sends is the refreshing of a closed frame that was put into a cache |
| RelayTheorems.RunTicks | fts-rs/src/main.rs:151-175 | in every run each refreshed message is an entry that one of the caches held at that moment, refreshed for 5 minutes or for a day |
| RelayTheorems.ClientReadsRealEvents | fts-rs/src/main.rs:1470-1480 | with the disconnect, file-share, emergency and refreshed events that the relay builds, that needs only: other clients' events are unambiguous, cached ones stay so when refreshed, and the unescaped texts hold no `</event>` nor a self-closing `>` |
| RelayRegistry.RegistryInEveryState | fts-rs/src/main.rs:1526-1568 | if each connection announces one uid and no two live ones the same, then in every state of the run, whatever is under way: the registered that did not break are found under their uid unless between the two writes of an announcement; the found are registered unless their cleanup has begun; the present can be found unless a cleanup is about to remove them; and when a connection says goodbye its uid is in none of the three maps |
| RelayRegistry.QuietRegistry | fts-rs/src/main.rs:1526-1568 | so, when no operation is under way, `uid_to_conn` is exactly the inverse of `conn_state` on the connections that did not break, and covers the presence cache |
| RelayRegistry.FileshareIsWithheldFromItsSender | fts-rs/src/main.rs:809-813 | in every reachable state of every run a file share is withheld from exactly the connection that was the last to announce the sender's uid when the sender was looked up, whatever happened before it was sent |
| RelayRegistry.FileshareFindsItsSender | fts-rs/src/main.rs:809-812 | in an orderly run that is the connection registered under the uid, unless it broke or is just announcing itself |
| RelayRegistry.CleanupHitsSharedUid | fts-rs/src/main.rs:1554-1566 | cleanup unregisters another connection iff that one is registered under the same uid |
| RelayRegistry.SharedUidIsLost | fts-rs/src/main.rs:1554-1566 | two connections that announce one uid do get there: a reachable state in which the second is open and registered and cannot be found |
| RelayRegistry.BrokenStays | fts-rs/src/main.rs:1108-1121 | whatever happens, a connection whose read or write failed stays in `conn_state` under its uid |
| RelayRegistry.BrokenIsStillFound | fts-rs/src/main.rs:1108-1121 | a reachable state with such a connection, still found under its uid |
| EnterpriseSync.RowIsLatestUpload | fts-rs/src/main.rs:693-734 | in every interleaving a row exists iff its hash was inserted, has the file name, creator, tool, size and keywords of the latest insert, and matches the default keyword |
| EnterpriseSync.PrivacyIsLastUpdate | fts-rs/src/main.rs:600-610 | a row is private iff the last privacy update since its first upload said so; re-upload keeps it |
| EnterpriseSync.ListedIff | fts-rs/src/main.rs:426-441 | the default search lists a hash iff its latest upload is public and that update did not say private |
| EnterpriseSync.LengthIsReach | fts-rs/src/main.rs:714 | the file is as long as the furthest write since it was last created or truncated |
| EnterpriseSync.ByteIsLastWrite | fts-rs/src/main.rs:714 | every stored byte is that of the last write to its position since the last truncation, of whichever upload, and zero where there is none |
| EnterpriseSync.SizeIsStoredLength | fts-rs/src/main.rs:710-734 | the row's size is the length of the stored bytes iff the furthest write since the last truncation, by whichever upload, ends where the data of the latest insert ends |
| EnterpriseSync.UndisturbedUploadIsStored | fts-rs/src/main.rs:710-734 | if the pieces written since the last truncation spell the data of the latest insert, the file holds exactly that data |
| EnterpriseSync.LastUploadIsStored | fts-rs/src/main.rs:693-734 | in every run of uploads, each doing create, writes and insert in order, if those of a hash do not overlap and the last ran to its end, the file holds its data and the row the length |
| EnterpriseSync.CrossedUploads | fts-rs/src/main.rs:714-734 | two complete uploads under one hash leave the size of one over the bytes of the other when their inserts cross |
| EnterpriseSync.FailedUpload | fts-rs/src/main.rs:714 | an upload that fails after truncating the file leaves the earlier row over an empty file |
| UserTable.User.constructor | FreeTAKServer/model/User.py:19-22 | a user starts with one connection and the uid of its presence |
| UserTable.User.GetConnection | FreeTAKServer/model/User.py:24-30 | returns the connection of that type, and nothing iff the user has none |
| UserTable.User.DeleteConnection | FreeTAKServer/model/User.py:37-47 | removes that connection only, and fails without change iff it is absent |
| UserTable.Core.AddUser | FreeTAKServer/controllers/services/FTS.py:1246-1252 | the user's whole entry is replaced, and its presence put to the REST pipe |
| UserTable.Core.RemoveConnection | FreeTAKServer/controllers/services/FTS.py:1262-1272 | removes that connection of that user only, and the user with its last one; fails iff the user does not hold it |
| UserTable.Core.UpdatePresence | FreeTAKServer/controllers/services/FTS.py:1274-1282 | the presence of that user is the new one, everything else stays; fails iff the user is unknown |
| UserTable.Core.Lookup | FreeTAKServer/controllers/services/FTS.py:1284-1292 | returns exactly the users holding the wanted type, or all |
| UserTable.Core.Receive | FreeTAKServer/controllers/services/FTS.py:1242-1294 | one message does to the objects what the operation means, fails exactly when it raises, puts a presence to the REST pipe iff it adds a user, and answers iff it is a get |
| UserTable.ApplyKeepsUsersOk | FreeTAKServer/controllers/services/FTS.py:1242-1294 | every operation keeps: each user has a connection and its key is its id and its presence's uid; a failing one changes nothing |
| UserTable.TableStaysOk | FreeTAKServer/controllers/services/FTS.py:1242-1294 | so that table order holds after any sequence of operations |
| UserTable.HoldsIsLastAdd | FreeTAKServer/controllers/services/FTS.py:1242-1294 | after any operations a user holds a type iff its last add was of that type and was not removed since |
| UserTable.PresenceIsLast | FreeTAKServer/controllers/services/FTS.py:1246-1282 | after any operations a known user's presence is that of the last add or update of its uid |
| UserTable.HeldIsAdded | FreeTAKServer/controllers/services/FTS.py:1246-1252 | and the connection it holds is the one its last add gave |
| ServiceSync.ClientTable.Reconcile | FreeTAKServer/core/services/Orchestrator.py:187-222 | exactly the clients the core knows stay, each with its socket and what the core says of it, and exactly the others are shut down and deleted |
| ServiceSync.StepKeeps | FreeTAKServer/core/services/Orchestrator.py:96-222 | every connect, disconnect, update, request, core step and reconciliation keeps the protocol's invariant |
| ServiceSync.ViewPlusQueueIsTable | FreeTAKServer/core/services/Orchestrator.py:344-351 | in every interleaving of services with disjoint uids, the core's view of a service with its queue replayed has the uids of the service's own table, but for uids whose last add or remove met a full queue |
| ServiceSync.ReconcileClosesIff | FreeTAKServer/core/services/Orchestrator.py:187-222 | in every run, uids shared or not and queues full or not, reconciliation closes a client iff no add of it with this service's connection type, among the operations the core had taken, was without a later add of the uid or a later removal |
| ServiceSync.EarlyDisconnectChangesNothing | FreeTAKServer/core/services/Orchestrator.py:400-456 | a client that disconnects before it was reconciled stays in its service's table and in the core's |
| ServiceSync.ReconcileClosesOnlyLost | FreeTAKServer/core/services/Orchestrator.py:187-222 | reconciliation closes no client other than one whose last operation met a full queue: a client whose add was queued and whose remove was not asked for is never closed |
| ServiceSync.SharedUidIsTakenOver | FreeTAKServer/controllers/services/FTS.py:1250-1251 | a run in which a uid connects through two services: the first one closes a client that was added, with no queue full, and never removed |
| ServiceSync.SocketIsLastConnect | FreeTAKServer/core/services/Orchestrator.py:344-351 | in every run the socket of a client is the one with which it last connected |
| ServiceSync.StepQueues | FreeTAKServer/core/services/Orchestrator.py:96-222 | a step queues only what it is about, at the end and for its own service; the core takes from the front and logs what it took |
| ServiceSync.RefreshAsks | FreeTAKServer/core/services/Orchestrator.py:130-161 | refreshing a known client queues its update and then a request, and the service waits for the answer |
| FanOut.FilterGroup.Send | FreeTAKServer/core/util/AddDataToCoTList.py:7-16 | every pipe but the origin's gets the data once, at its end |
| FanOut.FilterGroup.Forward | FreeTAKServer/controllers/services/FTS.py:1426-1444 | one turn for one message: every pipe but the origin's gets it and, after a new client's event, the presence of every user in order, and nothing more; the origin's gets nothing |
| FanOut.PutAllIsDelivered | FreeTAKServer/core/util/AddDataToCoTList.py:7-16 | that is what the step of the protocol does to the queues |
| FanOut.HandleSharedData | FreeTAKServer/core/services/Orchestrator.py:929-947 | a shared message is routed to the service's own clients, and nothing goes back to the core |
| FanOut.ExactlyOnce | FreeTAKServer/controllers/services/FTS.py:1413-1445 | in every run, what a service shared is what another receiver handled, then what waits for it, then what waits for the core, in order; and nothing comes back |
| FanOut.StepsDrain | FreeTAKServer/core/services/Orchestrator.py:929-947 | every step other than sharing makes the traffic in flight lighter in a well-founded order, and shares nothing |
| FanOut.Drains | FreeTAKServer/controllers/services/FTS.py:1413-1445 | the queues can be emptied from any state, and then every receiver has handled all that the others shared |
| FanOut.RosterSkipsTheNewClientsService | FreeTAKServer/controllers/services/FTS.py:1429-1439 | after a new client's event every receiver except that client's service gets the event and then each user's presence, in order |
| Routing.SendDataController.SendToAll | FreeTAKServer/core/connection/SendDataController.py:154-202 | carries out the plan: the writes up to the first failure, and the core gets the message iff none failed |
| Routing.SendDataController.SendToDest | FreeTAKServer/core/connection/SendDataController.py:110-142 | the inner loop over clients for one destination |
| Routing.SendDataController.SendToSpecificClients | FreeTAKServer/core/connection/SendDataController.py:88-152 | the same for a list of destinations, one after the other |
| Routing.SendDataController.GeochatSending | FreeTAKServer/core/connection/SendDataController.py:204-252 | the same for a chat to one uid |
| Routing.SendDataController.Introduce | FreeTAKServer/core/connection/SendDataController.py:40-66 | a newcomer's event goes to every other client whose write succeeds, their known presences to the newcomer, and the event to the core |
| Routing.GreetedIff | FreeTAKServer/core/connection/SendDataController.py:40-66 | who is greeted: the other clients to whom the write works |
| Routing.GreetersIff | FreeTAKServer/core/connection/SendDataController.py:40-66 | whose presence the newcomer gets: of those, the ones whose presence is known and can be written |
| Routing.GreetedOnce | FreeTAKServer/core/connection/SendDataController.py:40-66 | each of them once |
| Routing.SendDataController.SendDataInQueue | FreeTAKServer/core/connection/SendDataController.py:19-86 | the dispatch carries out the plan of the message's kind, marti and chat group; a new connection is introduced, with its result, its core message and the counter |
| Routing.CopiesToAll | FreeTAKServer/core/connection/SendDataController.py:154-202 | a message to all reaches every client once, its sender only when it is a TakPong |
| Routing.CopiesToRoom | FreeTAKServer/core/connection/SendDataController.py:204-252 | a chat to one uid reaches that client once and nobody else |
| Routing.CopiesToDests | FreeTAKServer/core/connection/SendDataController.py:88-152 | a client gets as many copies as its callsign is listed |
| Routing.SmoothIffRoutable | FreeTAKServer/core/connection/SendDataController.py:34-272 | routing meets no error of its own iff the message is routable: a GeoChat names its group; otherwise a destination list is not empty and, if it names anyone, every client's presence is known; without one no chat group is named |
| Routing.SentIffRoutable | FreeTAKServer/core/connection/SendDataController.py:34-272 | with working sockets a message is carried out to its end iff it is routable |
| Routing.EveryClientGetsItsShare | FreeTAKServer/core/connection/SendDataController.py:34-80 | with working sockets, and a routable message, every client gets exactly the copies that kind, sender and destinations give it |
| Routing.DoneIff | FreeTAKServer/core/connection/SendDataController.py:88-252 | any plan is carried out to its end iff it meets no error of its own and all its writes succeed |
| Routing.ChatWithoutMartiFails | FreeTAKServer/core/connection/SendDataController.py:92-94 | a message other than a GeoChat that names a chat group and has no marti element reaches nobody |
| Routing.FailureIsAPrefix | FreeTAKServer/core/connection/SendDataController.py:88-252 | on a failure exactly the writes planned before the failing one were made |
| MergeLists.MergeObjectLists | FreeTAKServer/core/domain/node.py:908-944 | for all lists: one entry per id in order of first appearance, each the declared choice, and the declared additions |
| MergeLists.MergePrefersReal | FreeTAKServer/core/domain/node.py:908-944 | with unique ids in the first list the entry is the first real object of both lists, or else the first entry |
| MergeLists.MergePrefersRealIff | FreeTAKServer/core/domain/node.py:924-942 | the merge does so for every second list iff the last entry of the id in the first list is its first real one, or, with none real, its first |
| MergeLists.OrderIsDistinct | FreeTAKServer/core/domain/node.py:924-942 | the result has one entry per id |
| MergeLists.AddedIsNew | FreeTAKServer/core/domain/node.py:931-936 | an object is added iff its id is absent from the first list and it is the first of its id in the second |
| MergeLists.AddedFollowInOrder | FreeTAKServer/core/domain/node.py:931-936 | the result lists the first list's ids and then the added ones in order |
| MergeLists.DuplicateLosesReal | FreeTAKServer/core/domain/node.py:927-928 | with a duplicate id in the first list the real object can be lost |

## Left out

- Sockets, TLS, HTTP routing, SQL and file access: sockets are output sequences, tables and files are maps.
- XML tokenising (quick-xml, lxml): `EventTimes` and `EventText` work on what the reader yields, of which `Lexed` says what is assumed; how a document type declaration is written is not part of it. In `Relay` reading, refreshing and the disconnect event are arbitrary functions; `ClientReadsRealEvents` is specialised to the events that are built.
- The part of a line that a failed socket write may have sent: a failed write ends the connection, and only whole lines are counted.
- Connection counter overflow: ids are natural numbers.
- Starting and stopping services while messages are in flight, and the timeouts of a service waiting for the core's answer.
- Two hash strings that name one file path, in `EnterpriseSync`; a statement or write that fails without effect is an action that does not happen.
- RelayServer.Server.HandleFrames: one clock value for the whole read, and sockets that work; other times and failing writes are in the state machine (`OwnOutput`).
- ServiceSync.ViewPlusQueueIsTable: uids are disjoint across services, because an add by another service replaces the entry (`SharedUidIsTakenOver`).
- RelayRegistry.RegistryInEveryState: no two live connections announce one uid, because cleanup would unregister the other (`SharedUidIsLost`); a uid may be taken over from a connection that broke or was cleaned up.
- FanOut.ExactlyOnce: service names are distinct, and queues between core and services are never full.
- The REST API, data packages, federation, serializers, certificate handling, configuration and user interface.
