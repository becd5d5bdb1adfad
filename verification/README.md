# Verified model of the telemetry client

A Dafny model of the client's telemetry pipeline, its wire formats, its package transfer and its updater, with proofs
about whole runs. `dafny verify dfyconfig.toml` checks it.

One module per part of the client:

| file | models |
|---|---|
| `SyncProtocol.dfy`, `SyncManager.dfy` | durable synchronisation of activity windows: the step relation between disk, memory and server with crashes, and the object that performs its steps |
| `ScopeFilter.dfy`, `FlowModel.dfy`, `FlowAggregator.dfy`, `FlowScope.dfy`, `FlowSessions.dfy` | CIDR scope, flow aggregation, their commutation, and the sessions the flow records summarise |
| `PacketObserver.dfy`, `PacketStorage.dfy` | the packet observer and the buffered daily packet store it feeds |
| `RotatingStore.dfy`, `FlowQuery.dfy`, `ActivityWindows.dfy`, `ActivityCycles.dfy` | the rotating store as one log, the flow query, the per-device window summaries, and which flows the cycles report |
| `DnsReader.dfy`, `TlsHello.dfy`, `Dhcp.dfy`, `Framing.dfy` | byte parsers with the printers whose output they read back |
| `PackageSession.dfy`, `Updater.dfy` | chunked package transfer; update with backup and rollback |
| `EventLimits.dfy`, `ResourceProtection.dfy`, `Neighbourhood.dfy` | bounded histories compared with unbounded ones; the daily neighbourhood merge |
| `Prelude.dfy`, `Text.dfy`, `Wire.dfy` | shared vocabulary: sequences, text, big-endian numbers |

Conventions. Time is an `int`. Disks are maps; a replaced file changes at once. What the system decides (whether a
write, copy, rename or call succeeds, how many bytes `recv` returns, when a timer is due) is an argument or a
nondeterministic choice, so the theorems hold for every outcome. Hashes, UTF-8 decoding, IP address syntax and
process-name normalisation are function parameters. Regions under a lock are one step; the gaps between the sync
manager's locked regions are steps of their own. Fields called history (`hist`, `kept`, `all`, `accepted`, `finals`)
only serve the specification.

## Findings

Where a promise of the code or its documentation fails, the code is modelled as it is; the lemmas named show an
input or a run on which it fails and the exact condition under which it holds.

- `handle_ack` ignores case, the worker compares with `ack` exactly: `ACK` wakes the worker but completes nothing
  (`UpperCaseAckIsLost`, `ReadingMarksExactly`).
- An unreadable list of completed windows reads as empty, so a completed window handed over then is stored and sent again
  (`UnreadListRevivesWindow`, `CompletedIsEnqueuedAgainExactly`).
- `parse_tls_client_hello` promises None for bad input but lets `struct.error` out at an odd cipher list that ends the
  buffer (`OddCiphersRaise`, `RaisesAtAnOddEnd`), and reads the bytes behind a hello without extensions as its
  extensions (`TrailingExtensionIsReported`, `BareHelloReadsBackExactly`).
- `receive_message` that is stopped inside a frame drops what it has read of it, so a caller that reads on gets other
  messages (`StoppingMidFrameMisreads`, `LostBytesChangeTheMessages`). The client's own loop stops reading then.
- Two live package sessions with one package id share the part path; the first to complete publishes the other's bytes
  (`SharedPackageIdPublishesUnverified`, `CompletionPublishesItsOwnExactly`).
- A repeated package init whose numbers do not convert has already replaced the part file, and the old session stays
  registered over the empty one (`BadReinitEmptiesThePart`, `PartHoldsTheAcceptedChunks`).
- A failed update restores an older backup of the same version, or a torn one, over an untouched app
  (`StaleBackupReplacesTheApp`, `TornBackupReplacesTheApp`, `FailureKeepsTheAppExactly`).
- A failed write in the daily packet store loses the buffer and the new packet, and hides that packet from the flow
  aggregator (`FailedWriteLosesTheBuffer`, `NothingIsLostExactly`, `AllPacketsReachExactly`).
- The hourly cap of interventions does not block above 100 (`BurstExceedsTheCap`, `CapIsKeptExactly`).
- Re-reading a stored neighbourhood record rebuilds `sources` and the DHCP fields from its own source
  (`SecondSourceIsForgotten`, `DhcpFieldsAreForgotten`, `RestoringIsExactlyOneSource`).
- The rotating store is documented to rotate a file that an append would take over the limit; it rotates one that has
  reached it (`ActiveFileOutgrowsTheLimit`, `RotatesExactlyWhenFull`).
- The activity cycle reads the active flow file only, so flows rotated away within the window are missing
  (`RotatedFlowIsMissed`, `ActiveFileSufficesExactly`).
- A flow is filed only when its idle time is over; one whose window has ended by then is in no activity report
  (`FlowAcrossACycleIsMissed`, `OwnCycleDecides`).
- A query looks at the UTC days of its window, while a flow is filed under the local day on which it is finalised
  (`LateEveningFlowIsNotFound`, `FiledFlowIsFoundExactly`).
- A manifest file named after a version or the updater turns a hash mismatch into a version error
  (`ChangedVersionFileIsAVersionProblem`, `FileErrorReason`).

## Model

| member | source | states |
|---|---|---|
| `SyncProtocol.NoWindowLost` | client/app/sync_manager.py:186-305 | In every run of hand-overs, sends, timeouts, ACKs, NACKs, failed writes, reconnects and crashes, a window handed over is in its pending file or had an `ack` handled, unless another known window has the same pending file name. |
| `SyncProtocol.ClashLosesWindow` | client/app/sync_manager.py:45-47 | That proviso is needed: with one file name for two windows, the first is neither stored nor acknowledged. |
| `SyncProtocol.CompletedOnlyByFreshAck` | client/app/sync_manager.py:248-272 | A window enters the completed list only in a worker's own write, and only if an `ack` for it was handled after that worker's latest attempt began. |
| `SyncProtocol.CompletedListShape` | client/app/sync_manager.py:186-192 | The completed list has no repetition, at most 500 entries and acknowledged windows only, in every run. |
| `SyncProtocol.OneWorkerPerWindow` | client/app/sync_manager.py:225-240 | Two live workers never serve one window, in every run. |
| `SyncProtocol.WorkerEffortIsBounded` | client/app/sync_manager.py:248-272 | A worker sends at most `max_retries + 1` times and sleeps at most `retry_base * (2^max_retries - 1)`, in every run. |
| `SyncProtocol.WorkerGivesUpOnlyAtTheEnd` | client/app/sync_manager.py:254-268 | In every run a worker has sent as often as it took its sending step, and one that ends without having gone on to write the completed list has sent `max_retries + 1` times and slept `retry_base * (2^max_retries - 1)`. |
| `SyncProtocol.NoWorkerIsStuck` | client/app/sync_manager.py:248-272 | In every run a live worker can take a next step, unless another one is between its two file operations. |
| `SyncProtocol.HandingOverExactly` | client/app/sync_manager.py:225-246 | A hand-over succeeds, and the window counts as handed, exactly if the window is read to be completed or its payload can be stored. |
| `SyncProtocol.EnqueuedIsServed` | client/app/sync_manager.py:225-240 | In every run, a hand-over or retry that stores a window not read to be completed leaves this payload in the window's pending file and one live worker serving the window, a new one exactly if none did; no other worker changes. |
| `SyncProtocol.MarkingExactly` | client/app/sync_manager.py:186-192 | The completed list gains the window at its end unless it is there, and loses its oldest entries beyond 500. |
| `SyncProtocol.UnlinkingExactly` | client/app/sync_manager.py:186-192 | Then the window's pending file goes, if removing works, and no other. |
| `SyncProtocol.AckIsKnownExactly` | client/app/sync_manager.py:276-292 | In every run `handle_ack` returns true exactly if the status is `ack` or `nack` in any case and a registered worker serves the window or it is listed as completed. |
| `SyncProtocol.AnswerWakesItsWorker` | client/app/sync_manager.py:276-292 | In every run, an accepted answer lets the registered worker of its window wake, and no other. |
| `SyncProtocol.RestartResumesPending` | client/app/sync_manager.py:294-305 | After a crash at any moment of any run, reading a pending file back and enqueueing it gives its window a worker that has not sent yet, unless it is listed as completed; the disk is unchanged. |
| `SyncProtocol.CompletedIsEnqueuedAgainExactly` | client/app/sync_manager.py:225-240 | In every run, a step starts a worker for a window in the completed list if and only if it hands over or retries that window, cannot read the list, can write the payload, and no live worker serves the window; and exactly such a step stores it anew. |
| `SyncProtocol.UnreadListRevivesWindow` | client/app/sync_manager.py:182-184 | A run in which a window is sent, acknowledged and completed, and then stored and sent again because the list cannot be read. |
| `SyncProtocol.OnlyExactAckCompletes` | client/app/sync_manager.py:265-268 | A window for which no status that is exactly `ack` was handled is never listed as completed, although `ACK` is among the statuses accepted. |
| `SyncProtocol.ReadingMarksExactly` | client/app/sync_manager.py:254-268 | In every run, a worker that reads its result goes on to mark the window if and only if the last accepted status handled for the window since its attempt began is exactly `ack`. |
| `SyncProtocol.UpperCaseAckIsLost` | client/app/sync_manager.py:276-292 | A run in which the server received the window and answered `ACK`, which is accepted and wakes the worker; the worker goes to sleep and will send again. |
| `SyncProtocol.HandedIsStoredOrDelivered` | client/app/sync_manager.py:242-292 | With a server that acknowledges only what it received, every handed window is on the client's disk or has reached the server. |
| `SyncProtocol.StepKeepsInv` | client/app/sync_manager.py:134-305 | Every enabled step keeps the invariant over disk, worker, event and lock tables, acknowledgements and effort. |
| `SyncProtocol.RunIsTruthful` | client/app/sync_manager.py:248-292 | What the history records (when an attempt began, when an `ack` came) is what the steps of the run were. |
| `SyncManagerObject.SyncManager.EnqueuePayload` | client/app/sync_manager.py:225-240 | The object's enqueueing is the enqueue effect of the protocol, read and write failures included. |
| `SyncManagerObject.SyncManager.HandleWindowClosed` | client/app/sync_manager.py:242-246 | It performs the protocol's hand-over step; a window counts as handed only if it returned. |
| `SyncManagerObject.SyncManager.HandleAck` | client/app/sync_manager.py:276-292 | It performs the protocol's acknowledgement step and tells whether the window is known. |
| `SyncManagerObject.SyncManager.MarkCompleted` | client/app/sync_manager.py:186-192 | The completed list is written first and the pending file removed after it, two protocol steps in that order; a failed write of the list is raised and ends the worker with the disk unchanged. |
| `SyncManagerObject.SyncManager.RetryPending` | client/app/sync_manager.py:294-305 | Unreadable files are skipped; it raises exactly if enqueueing a readable one does; if it returns, every readable pending window is completed or has a live worker and they are counted. No pending file, completed entry or running worker is touched. Holds for any order of the files. |
| `SyncManagerObject.SendWithRetries` | client/app/sync_manager.py:248-272 | One worker's loop stops at the first exact `ack`, after as many sends, having slept the geometric sum of the backoff. |
| `ScopeFilterModel.NetworkIsBlock` | client/app/scope_filter.py:36-48 | An address is in a network exactly when it has the network's version and lies in the aligned block of 2^host-bits addresses from its base. |
| `ScopeFilterModel.ScopeFilter.ParseCidrList` | client/app/scope_filter.py:36-48 | The loop yields the readable networks in order and skips the others. |
| `ScopeFilterModel.ScopeFilter.Keep` | client/app/scope_filter.py:106-123 | True exactly when no scope is set or one of the two addresses lies in a network of its version. |
| `ScopeFilterModel.UnreadableScopeKeepsAll` | client/app/scope_filter.py:36-48 | A scope of unreadable entries keeps every packet. |
| `ScopeFilterModel.ScopeFilter.SetScope` | client/app/scope_filter.py:95-99 | From then on a packet is kept exactly if no entry of the new list can be read or a readable entry covers one of its addresses. |
| `ScopeFilterModel.ScopeDecides` | client/app/scope_filter.py:36-48 | Keeping by the networks parsed from a list is what the texts of the list ask for. |
| `FlowModel.KeyIsDirectionFree` | client/app/flow_aggregator.py:52-63 | A packet and its reply have the same flow key. |
| `FlowModel.KeyIsMissingExactly` | client/app/flow_aggregator.py:52-63 | A packet has no key exactly if the addresses, or else the ports, of its ends differ and one of them is missing. |
| `FlowModel.KeyNamesThePacket` | client/app/flow_aggregator.py:52-63 | A key names the packet's protocol, `UNKNOWN` if it has none, and its two ends. |
| `FlowModel.ApplicationIsTold` | client/app/flow_aggregator.py:229-253 | A protocol of its own, in upper case, is the application; else a service of the source port, else one of the destination port, else none. |
| `FlowScope.FilteringCommutesWithAggregation` | client/app/flow_aggregator.py:294-367 | For every schedule of packets, sweeps and flushes, aggregating only the kept packets leaves exactly the in-scope flows active and finalises exactly the in-scope subsequence of the unfiltered records. |
| `FlowSessions.AggregatorSummarisesSessions` | client/app/flow_aggregator.py:294-367 | For each key the finalised records are the summaries of the key's finished sessions in order, and the active flow is that of its active session. |
| `FlowSessions.RecordsTellTheirSessions` | client/app/flow_aggregator.py:176-226 | Over every schedule the records of a key tell, in order, of its finished sessions: first seen is the first timestamp carried, else the time at which the session ended; last seen the last one carried, else first seen; the smallest and largest sizes bound all packets and are attained. |
| `FlowSessions.SessionsPartitionArrivals` | client/app/flow_aggregator.py:294-367 | The sessions of a key partition its recorded packets into contiguous runs, no finished one empty. |
| `FlowSessions.FlowCountersAreConserved` | client/app/flow_aggregator.py:130-171 | Per key, packets, bytes and SYN, FIN and RST counts of all records and the active flow equal those of all its recorded packets. |
| `FlowSessions.SessionCutsExactly` | client/app/flow_aggregator.py:346-367 | Two successive packets of a key are in different records exactly when a flush ran between them or a sweep when the first was at least the timeout old. |
| `FlowSessions.CloseSuccessorsStayTogether` | client/app/flow_aggregator.py:346-367 | Successive packets of a key closer than the idle timeout share a record unless `flush_all` ran between them. |
| `FlowSessions.SummaryExtremes` | client/app/flow_aggregator.py:130-171 | The recorded smallest and largest packet sizes bound all packets of the session and are attained. |
| `FlowSessions.SummaryTotals` | client/app/flow_aggregator.py:130-171 | Packet, byte and flag counts of a summary are the totals over its session, and its last arrival is that of its last packet. |
| `FlowSessions.SummaryDirections` | client/app/flow_aggregator.py:130-171 | Inbound and outbound packets and bytes are those of the packets observed in that direction. |
| `FlowSessions.SummaryApplication` | client/app/flow_aggregator.py:130-171 | The application of a flow is that of the first packet of its session that tells one. |
| `FlowSessions.SummaryIdentityAndTimes` | client/app/flow_aggregator.py:100-129 | Addresses, ports, protocol and direction are the first packet's; first and last seen are the first and last timestamp any packet carried. |
| `FlowSessions.BytesBetweenExtremes` | client/app/flow_aggregator.py:130-171 | `min * count <= bytes <= max * count`. |
| `FlowSessions.RecordedGapsTelescope` | client/app/flow_aggregator.py:130-171 | Over every schedule under a monotonic clock, the inter-arrival sum of each record of a key, and of its active flow, is last minus first arrival of its session, over one gap less than there are packets. |
| `FlowAggregatorObject.ActiveFlow.Update` | client/app/flow_aggregator.py:130-171 | The accumulator's in-place update is the flow update of the model. |
| `FlowAggregatorObject.FlowAggregator.RecordPacket` | client/app/flow_aggregator.py:294-304 | The dictionary of accumulators after the call is the model's table after the packet; packets without a comparable key change nothing. |
| `FlowAggregatorObject.FlowAggregator.SweepIdleFlows` | client/app/flow_aggregator.py:306-358 | It removes exactly the flows idle for the timeout, counts them all and stores, in table order, the records whose append succeeds. |
| `FlowAggregatorObject.FlowAggregator.FlushAll` | client/app/flow_aggregator.py:306-367 | It empties the table, counts every flow and stores, in order, the records whose append succeeds. |
| `FlowModel.PersistedExactly` | client/app/flow_aggregator.py:306-344 | All finalised records are stored if and only if every append succeeds; others are lost. |
| `PacketObserverModel.PacketObserver.HandlePacket` | client/app/packet_observer.py:101-146 | Storage first and unfiltered, then the scope filter, then the aggregator; a storage error ends the handling. |
| `PacketObserverModel.ObserverFinalisesTheScope` | client/app/packet_observer.py:101-146 | Over every run the observer's records are the in-scope records of an observer without scope that handled the same packets, and its daily store is that of one without scope. |
| `PacketObserverModel.AllPacketsReachExactly` | client/app/packet_observer.py:101-146 | Over every run, all packets reach scope and aggregator if and only if recording none of them raises. |
| `RotatingStoreModel.StoreRefinesLog` | client/app/telemetry_storage.py:217-277 | Over any run of successful, failing and crashing appends the files stand for one log: the old one and, in order, the batches that took effect, each once. |
| `RotatingStoreModel.AppendIsAtomicOnTheLog` | client/app/telemetry_storage.py:232-253 | At every point where an append may stop, the log is the old one or the old one and the whole batch. |
| `RotatingStoreModel.RotationKeepsLog` | client/app/telemetry_storage.py:217-246 | Rotation takes the next number, keeps the numbers contiguous from 1 and leaves the log unchanged. |
| `RotatingStoreModel.RotatesExactlyWhenFull` | client/app/telemetry_storage.py:232-262 | A completed append puts its batch into a fresh file exactly if the active one has reached the limit, which is then renamed to the least free number; else it extends the active file. |
| `RotatingStoreModel.ActiveFileOutgrowsTheLimit` | client/app/telemetry_storage.py:205-210 | An append that takes the active file over the limit leaves it active. |
| `RotatingStoreModel.NothingIsRotatedEarly` | client/app/telemetry_storage.py:232-262 | Over every run no file is rotated away before it has reached the limit. |
| `RotatingStoreModel.ReadAllIncludingRotated` | client/app/telemetry_storage.py:262-277 | The loop over siblings returns the log. |
| `RotatingStoreModel.RotatingStore.WriteWithRetry` | client/app/telemetry_storage.py:144-183 | It succeeds exactly if an attempt does; the file then holds the content once, and is untouched if every attempt fails before replacing. |
| `RotatingStoreModel.RotatingStore.AppendMany` | client/app/telemetry_storage.py:232-253 | The log becomes the old one or the old one and the whole batch; success means the latter, and retries never duplicate the batch. |
| `FlowQueryModel.QueryFlows` | client/app/flow_query.py:70-109 | The nested loops with early exit compute the specified answer, errors included. |
| `FlowQueryModel.QueryIsExact` | client/app/flow_query.py:70-109 | A query raises exactly when more than the limit match; otherwise it returns, sorted, exactly the device's in-window flows of the days the window touches, each as often as stored. |
| `FlowQueryModel.QueryRefusesExactly` | client/app/flow_query.py:83-88 | A query is refused for its address, else for its window, else for its limit, and only a valid one fails for too many flows. |
| `FlowQueryModel.NormalizeMacExactly` | client/app/flow_query.py:50-57 | A device text is accepted exactly if twelve hexadecimal digits of any case are left without its colons and dashes, and stands for them in upper-case pairs with colons between them. |
| `FlowQueryModel.StableSortSorts` | client/app/flow_query.py:108-109 | The result is ordered by (first_seen, flow_id) and is a permutation of the matches. |
| `FlowQueryModel.StableSortIsStable` | client/app/flow_query.py:108-109 | Flows with equal sort keys keep their stored order. |
| `FlowQueryModel.RotationIsInvisible` | client/app/flow_query.py:70-109 | Rotating a day's file changes no answer. |
| `FlowQueryModel.FiledFlowIsFoundExactly` | client/app/flow_query.py:58-109 | A matching record stored nowhere before is found by a query that answers if and only if its local day of finalisation is among the UTC days of the window. |
| `FlowQueryModel.LateEveningFlowIsNotFound` | client/app/flow_query.py:58-109 | Two hours east of Greenwich, a flow last seen between 22:00 and 22:31 UTC and then finalised matches the query for 22:00 to 23:00, which answers without it. |
| `DnsReader.ReadDnsName` | client/app/passive_protocol_listener.py:540-564 | The reader terminates on every byte string, pointer cycles included, with the specified name and next offset. |
| `DnsReader.ReaderAcceptsTwelvePointers` | client/app/passive_protocol_listener.py:540-564 | A name laid out per section 4.1.4 of RFC 1035 is read back with its text and next offset exactly when it chains at most 12 pointers. |
| `DnsReader.ReaderIsSound` | client/app/passive_protocol_listener.py:540-564 | Whatever is read lies in the bytes as such a layout with at most 12 pointers. |
| `DnsReader.SelfPointerIsRefused` | client/app/passive_protocol_listener.py:540-564 | A pointer to itself is refused. |
| `DnsReader.WrittenNameReadsBack` | client/app/passive_protocol_listener.py:540-564 | A name written without compression is read back. |
| `DnsReader.ParseDnsMessage` | client/app/passive_protocol_listener.py:567-606 | The message parser's loops compute the specified message. |
| `DnsReader.ParsedMessageFitsItsBytes` | client/app/passive_protocol_listener.py:565-609 | A message that parses is a response exactly if bit 15 of its flags is set, has the number of questions in bytes 4 and 5 and of records in bytes 6 to 11, fits `12 + 5q + 11r` bytes, and its record data lies inside it. |
| `DnsReader.MessageReadsBack` | client/app/passive_protocol_listener.py:565-609 | Any message laid out as in RFC 1035 section 4.1, with its header of six fields, names compressed by at most twelve pointers and whatever bytes behind, is read back question by question and record by record. |
| `TlsHello.GreaseIsTheSixteenValues` | client/app/passive_protocol_listener.py:73-76 | The mask test of `_GREASE` accepts exactly the sixteen values of section 2 of RFC 8701. |
| `TlsHello.ParseTlsClientHello` | client/app/passive_protocol_listener.py:121-242 | The parser with its loops over ciphers, extensions, groups and formats computes the specified outcome on every byte string. |
| `TlsHello.HelloReadsBack` | client/app/passive_protocol_listener.py:121-242 | Any well-formed ClientHello (section 4.1.2 of RFC 8446) with extensions, followed by any bytes, yields its version, ciphers, extension types, groups, point formats and server name, without GREASE. |
| `TlsHello.ServerNameIsSpelled` | client/app/passive_protocol_listener.py:198-206 | The server name reported is what the last server name extension spells byte by byte, U+FFFD for bytes that are not ASCII, without white space at its ends. |
| `TlsHello.BrokenListsTell` | client/app/passive_protocol_listener.py:208-223 | A list of groups or point formats that breaks off, or announces an odd length, is read as far as its items are there. |
| `TlsHello.BareHelloReadsBackExactly` | client/app/passive_protocol_listener.py:172-193 | A ClientHello without extensions is read back exactly when the bytes behind it hold no extension the loop would note. |
| `TlsHello.TrailingExtensionIsReported` | client/app/passive_protocol_listener.py:172-193 | A concrete extension behind any such hello is reported as the hello's own. |
| `TlsHello.RaisesAtAnOddEnd` | client/app/passive_protocol_listener.py:156-168 | `struct.error` escapes exactly for a cipher list of odd length that ends with the buffer. |
| `TlsHello.OddCiphersRaise` | client/app/passive_protocol_listener.py:156-168 | A concrete buffer of 47 bytes lets `struct.error` out. |
| `TlsHello.GreaseIsInvisible` | client/app/passive_protocol_listener.py:121-242 | Hellos that differ only in GREASE among ciphers, groups or extensions are parsed alike, JA3 included. |
| `TlsHello.GreaseInserted` | client/app/passive_protocol_listener.py:156-168 | Inserting a GREASE value anywhere in a list of ciphers or groups changes nothing of what is kept. |
| `TlsHello.GreaseExtensionInserted` | client/app/passive_protocol_listener.py:181-190 | Inserting a GREASE extension anywhere among the extensions changes nothing of what is kept. |
| `TlsHello.Ja3Injective` | client/app/passive_protocol_listener.py:225-232 | Equal JA3 texts come from equal versions, ciphers, extension types, groups and point formats. |
| `TlsHello.Ja3HasFiveFields` | client/app/passive_protocol_listener.py:225-232 | The JA3 text has five fields with commas between them, version, ciphers, extension types, groups and point formats, each list in decimal with dashes between its numbers. |
| `Dhcp.ParseOptions` | client/app/dhcp_listener.py:28-47 | The index loop computes the option map. |
| `Dhcp.OptionsReadBack` | client/app/dhcp_listener.py:28-47 | Any option list with pads anywhere and anything after End or a torn option yields its last-wins map. |
| `Dhcp.OptionsOfAnyBytes` | client/app/dhcp_listener.py:28-47 | On any bytes at all the result is the last-wins map of the items wholly contained in them. |
| `Dhcp.BytesAreItems` | client/app/dhcp_listener.py:28-47 | Every byte string is a list of items followed by a rest at which the loop stops. |
| `Dhcp.TruncatedOptions` | client/app/dhcp_listener.py:28-47 | A stream cut at any byte yields the map of the options wholly contained in what is left. |
| `Dhcp.LastWinsMeaning` | client/app/dhcp_listener.py:28-47 | The map gives each code the data of its last option, and only codes that occur. |
| `Dhcp.DecodeIpv4List` | client/app/dhcp_listener.py:69-77 | The loop yields every address of a list whose length is a multiple of four, else none. |
| `Dhcp.RequestReadsBack` | tools/send_fake_dhcp.py:18-68 | A built request parses to message type 3 and the same MAC, requested address, client id and cleaned strings, for every 6-byte MAC, address and options of up to 255 bytes; exactly the unicast MACs are accepted. |
| `Dhcp.OfferReadsBack` | client/app/dhcp_listener.py:89-185 | A packet with a full header and any options, in any order, repeated or unknown ones included, is observed with every field from its own header place and the last option of its code, the address from option 50, else `ciaddr`, else `yiaddr`; exactly the multicast clients are rejected. |
| `Dhcp.IpBytesOfDottedQuad` | tools/send_fake_dhcp.py:14-15 | The builder reads a dotted address back to its four bytes. |
| `Dhcp.ColonsInjective` | client/app/dhcp_listener.py:22-25 | MAC addresses and client ids are told apart by their text. |
| `Dhcp.ColonsTell` | client/app/dhcp_listener.py:22-25 | Each byte is shown by two upper-case hexadecimal digits, the higher one first, with colons between the bytes. |
| `Dhcp.CleanedIsClean` | client/app/dhcp_listener.py:50-57 | A cleaned string is not empty and has no white space at its ends; a clean string stays as it is. |
| `Framing.Connection.SendMessage` | client/app/client_lib.py:2120-2123 | One frame is appended to the stream, or nothing when the length does not fit four bytes. |
| `Framing.Connection.ReadExactly` | client/app/client_lib.py:2139-2158 | However the bytes arrive, exactly the wanted number is taken or fewer; without a stop it fails only if they are not there. |
| `Framing.Connection.ReceiveMessage` | client/app/client_lib.py:2126-2160 | A message is exactly what the first frame carries and takes exactly 4 + length bytes, for any sequence of non-empty pieces; otherwise less than a frame is taken. |
| `Framing.Connection.Listen` | client/app/client.py:1218-1228 | The receive loop yields the messages of the stream up to the first incomplete frame. |
| `Framing.FramesReadBack` | client/app/client_lib.py:2120-2160 | Reading the concatenated frames of any messages below 2^32 bytes yields these messages. |
| `Framing.FrameTells` | client/app/client_lib.py:2120-2123 | A message of fewer than 2^32 bytes follows its length in four bytes, the most significant first; a longer one cannot be framed. |
| `Framing.BoundariesAreKept` | client/app/client_lib.py:2120-2160 | After any messages, what was sent next is read: every read starts on a frame boundary. |
| `Framing.LostBytesChangeTheMessages` | client/app/client_lib.py:2126-2160 | For every sequence of messages, a reader that lost some bytes of their frames, as one stopped inside a frame that reads again, reads exactly these messages if and only if it lost none. |
| `Framing.StoppingMidFrameMisreads` | client/app/client_lib.py:2126-2160 | A reader that lost a header and reads again returns a message nobody sent. |
| `PackageSession.PackageSessions.HandleInit` | client/app/client_lib.py:1392-1485 | It performs the init step, whichever of its checks and file operations fails. |
| `PackageSession.PackageSessions.ProcessChunk` | client/app/client_lib.py:1488-1633 | It performs the chunk step: write, hash, count, and at the last number publish or clean up. |
| `PackageSession.StepKeepsInv` | client/app/client_lib.py:1392-1633 | Every step that reuses no live session's package id keeps: part file equals hasher input equals accepted chunks, lengths agree, published files verified. |
| `PackageSession.PublishedFilesAreVerified` | client/app/client_lib.py:1488-1633 | In every run with distinct package ids among live sessions, with any failures and restarts, each published path still holds bytes with the hash announced for it. |
| `PackageSession.PartHoldsTheAcceptedChunks` | client/app/client_lib.py:1441-1530 | In such runs the part path of a live session holds the session's own file if and only if no init of its action and package failed halfway after its own init; that file is the concatenation of the accepted chunks, is what was hashed and has the counted length. |
| `PackageSession.BadReinitEmptiesThePart` | client/app/client_lib.py:1439-1457 | A repeated init whose numbers do not convert leaves the live session, with its accepted chunk, registered over an empty part file. |
| `PackageSession.FailureCleansUp` | client/app/client_lib.py:1594-1633 | In every run, a chunk that fails removes its session, publishes nothing and leaves every other path and file alone; from the part path it removes, if removing works, the session's own file exactly when no other init of the package opened the path since, else the file of such an init. |
| `PackageSession.DeliveryPublishesTheOriginal` | client/app/client_lib.py:1488-1570 | All chunks delivered in order, interleaved in any way with other transfers, publish the original bytes. |
| `PackageSession.PartPathTellsTheLastOpener` | client/app/client_lib.py:1392-1633 | In every run, shared package ids included, the file at a live session's part path is its own if and only if no init of its package opened the path after the session's own init. |
| `PackageSession.CompletionPublishesItsOwnExactly` | client/app/client_lib.py:1488-1560 | In every run, a completing session publishes its own file, with the bytes that were hashed, if and only if no other init of its package opened the part path since its own; otherwise that other file as it is. |
| `PackageSession.SharedPackageIdPublishesUnverified` | client/app/client_lib.py:1392-1530 | Two live sessions of one package id publish an empty file under the hash of another content. |
| `Updater.CompletedInstallsTheStagedTree` | client/updater/updater.py:407-480 | COMPLETED means: the package passes, the app is the staged tree and agrees with the manifest's version, the staged updater is installed if there is one, the old app is the backup under the version it had, and the client was stopped and started once. |
| `Updater.CompletesExactly` | client/updater/updater.py:407-480 | An update completes exactly when the package passes (zip, manifest, app, every listed file with its hash), the installed version file can be read, every step works and the new version file agrees. |
| `Updater.PackagePassesExactly` | client/updater/updater.py:407-437 | The validation passes exactly for a readable zip whose manifest passes and whose app has every listed file with its hash. |
| `Updater.ManifestPassesExactly` | client/updater/updater.py:120-131 | A manifest passes exactly if it has all fields, the type `client-update`, a version that is not blank, an object of hashes, and a minimum updater version that is at most 1.0.0 number by number. |
| `Updater.UpdaterVersionDecides` | client/updater/updater.py:112-131 | Of manifests that are otherwise in order, one that asks for version a.b.c is refused exactly if `a > 1`, or `a == 1` and `b > 0` or `c > 0`. |
| `Updater.VersionOfNumbers` | client/updater/updater.py:112-117 | A version written as numbers with dots is read as those numbers. |
| `Updater.DigitsDecide` | client/updater/updater.py:112-117 | Of a part of a version the digits count, whatever stands around them; a part without digits is zero. |
| `Updater.VersionProblemExactly` | client/updater/updater.py:481-485 | A package that unpacks is rejected as VERSION_INVALID exactly if its manifest has fields and type and a blank version or a newer updater version, or all that passes and the first bad file is named after a version or the updater; else as INVALID_PACKAGE. |
| `Updater.OtherVersionIsAVersionProblem` | client/updater/updater.py:466-476 | An installed version file that names another version is reported as VERSION_INVALID. |
| `Updater.StoppedOnlyAfterValidation` | client/updater/updater.py:407-440 | The client is stopped exactly if the package passes, the installed version file can be read and the history directory can be made; a package that does not pass changes nothing. |
| `Updater.FailureKeepsTheAppExactly` | client/updater/updater.py:481-517 | After a failure with a reason other than ROLLBACK the app is as before exactly unless the rollback restores an older backup or a torn one. |
| `Updater.FailureKeepsTheApp` | client/updater/updater.py:407-517 | Without an older backup of the version and with backup copies that succeed or leave nothing, a failed update leaves the app as it was, whichever step failed. |
| `Updater.FailureIsReportedExactly` | client/updater/updater.py:495-517 | A failure is reported as rolled back exactly if a backup of the running version was there and restoring it worked, and as ROLLBACK exactly if one was there and restoring it did not; a restored client was started last where the updater can do so. |
| `Updater.StaleBackupReplacesTheApp` | client/updater/updater.py:432-517 | With an older backup of the same version and a client that cannot be stopped, the app is replaced by that backup. |
| `Updater.TornBackupReplacesTheApp` | client/updater/updater.py:443-517 | A backup copy that breaks off is copied back over the untouched app. |
| `Updater.VerifyHashes` | client/updater/updater.py:134-142 | The loop raises for the first missing or changed file, and succeeds exactly if every listed file has its hash. |
| `Updater.Check` | client/updater/updater.py:112-142 | All checks before the client is stopped, in their order, with the error each raises; the minimum updater version is compared through its text, whatever its type. |
| `Updater.FileErrorReason` | client/updater/updater.py:481-485 | A missing or changed file is reported as VERSION_INVALID exactly when its name mentions `version` or `updater`. |
| `Updater.ChangedVersionFileIsAVersionProblem` | client/updater/updater.py:481-485 | A changed `version.json` is reported as VERSION_INVALID. |
| `Updater.TupleLessIsATotalOrder` | client/updater/updater.py:112-117 | Version tuples are totally ordered. |
| `Updater.Installation.ApplyUpdate` | client/updater/updater.py:407-493 | The sequence of copies, calls and checks performs the specified update, whichever step fails. |
| `Updater.Installation.RollBack` | client/updater/updater.py:495-517 | The rollback restores the backup directory of that name if there is one, and reports how it went. |
| `EventLimits.EventRateLimiter.Allow` | client/app/event_monitor.py:148-156 | It accepts exactly when fewer than `max_events` accepted events lie in the last window, counted over the full history. |
| `EventLimits.LimiterFollowsTheFullRule` | client/app/event_monitor.py:148-156 | Under a clock that does not run back, pruning changes no decision. |
| `EventLimits.NoWindowHoldsMore` | client/app/event_monitor.py:139-156 | No half-open span of the window's length ever holds more than `max_events` accepted events. |
| `EventLimits.EventDeduplicator.IsDuplicate` | client/app/event_monitor.py:167-181 | It suppresses exactly the events the never-purged debouncer suppresses. |
| `EventLimits.PurgingChangesNoDecision` | client/app/event_monitor.py:167-181 | The purged table decides like the full one, over any run. |
| `EventLimits.PassedEventsAreApart` | client/app/event_monitor.py:159-181 | Events of one key that pass are at least the debounce time apart. |
| `EventLimits.SuppressedIsClose` | client/app/event_monitor.py:159-181 | Each suppressed event is closer than that to an earlier one of its key that passed. |
| `EventLimits.ViolationTracker.RecordViolation` | client/app/process_monitor.py:264-293 | It counts the process's violations of the window among the last `max_history` ones and escalates from the threshold on. |
| `EventLimits.BoundedHistoryCountsExactly` | client/app/process_monitor.py:257-293 | The bounded history counts like the full one exactly when no evicted violation would count; it never counts more. |
| `ResourceProtection.ChooseCandidate` | client/app/process_monitor.py:709-790 | The loop picks the first safe and eligible process and reports the first one passed over. |
| `ResourceProtection.IsProcessEligible` | client/app/process_monitor.py:646-669 | Eligible exactly if some enabled, eligible rule names the process or its program or occurs in the process's name. |
| `ResourceProtection.ChosenIsMaximal` | client/app/process_monitor.py:686-790 | The chosen process uses most among all safe and eligible ones; none is chosen only if there is none. |
| `ResourceProtection.EvaluationNamesTheTarget` | client/app/process_monitor.py:671-895 | In every evaluation an action, a cooldown and a reached cap are reported of a process that is safe, eligible and of maximal usage among those; an action exactly if there is one, the cooldown is over and fewer than the cap lie in the last hour, the others exactly in the other two cases; interventions grow, by this time, exactly with an action that terminates. |
| `ResourceProtection.SkippedIsOnTop` | client/app/process_monitor.py:709-783 | A process reported as passed over has the highest usage of all and is not fit, and the event says whether it was safe; if none is reported, a process of the highest usage is fit. |
| `ResourceProtection.RoundNamesItsTargets` | client/app/process_monitor.py:897-961 | Every round evaluates a resource exactly if its pressure lasts, first the processor and then the memory on the state that leaves, each as above; otherwise only its timer changes. |
| `ResourceProtection.EligibleTells` | client/app/process_monitor.py:646-669 | A process is eligible exactly if an enabled, eligible rule's normalised name is its program's or occurs in its own. |
| `ResourceProtection.InterventionsAreApart` | client/app/process_monitor.py:797-841 | Over any run under a positive clock that does not run back, recorded interventions are at least the cooldown apart. |
| `ResourceProtection.AnHourHoldsAtMostTheCap` | client/app/process_monitor.py:814-841 | Over any run under a proper clock in which each action takes at least `pause`: with a cap of at most 100, or one that the cooldown or the pause keeps (`cap * max(cooldown, pause) > 3600`), no closed span of 3600 seconds holds more interventions than the cap. |
| `ResourceProtection.BurstExceedsTheCap` | client/app/process_monitor.py:576-578 | For any enabled limit and any cap above 100 that the least gap between interventions does not keep, a run of `cap + 1` waves of lasting pressure makes `cap + 1` interventions within an hour. |
| `ResourceProtection.CapIsKeptExactly` | client/app/process_monitor.py:576-841 | With one limit enabled, or one that fires at once, termination on and a fit process: every run in which actions take their pause keeps the hourly cap if and only if `cap <= 100` or `cap * max(cooldown, pause + sustained) > 3600`. |
| `ResourceProtection.FiresOnlyAfterSustainedPressure` | client/app/process_monitor.py:897-961 | Processes are evaluated only if every successful measurement for at least the sustained time was at or above the threshold. |
| `ResourceProtection.NothingHappensWithoutPressure` | client/app/process_monitor.py:897-961 | Without that nothing is recorded or reported. |
| `ResourceProtection.ResourceProtectionMonitor.EvaluateCandidates` | client/app/process_monitor.py:671-895 | Choice, cooldown, hourly cap and recording in this order, as specified. |
| `ResourceProtection.ResourceProtectionMonitor.EvaluateAndEnforce` | client/app/process_monitor.py:897-961 | One round updates the pressure timers and evaluates each resource as specified. |
| `Neighbourhood.MergeObservations` | client/app/neighbourhood.py:133-166 | The loop that updates records in place computes the merge. |
| `Neighbourhood.NormalisedIsNormal` | client/app/neighbourhood.py:56-110 | A normalised record is normal: normalising any of its fields again changes nothing. |
| `Neighbourhood.NormalisedTells` | client/app/neighbourhood.py:58-120 | An observation is valid exactly if it comes from ARP or DHCP, is dynamic or static, has an address and a MAC address that count, and no time or a timestamp; and each field of its record is told. |
| `Neighbourhood.NormalIpTells` | client/app/neighbourhood.py:62-76 | An address counts exactly if the trimmed text is the written form of one from 0.0.0.1 to 223.255.255.255 outside 127.0.0.0/8. |
| `Neighbourhood.NormalMacTells` | client/app/neighbourhood.py:26-35 | A MAC address counts exactly if the trimmed text is six pairs of hexadecimal digits with colons or dashes and an even first byte; it is kept in upper case with colons. |
| `Neighbourhood.NormalTextTells` | client/app/neighbourhood.py:38-44 | A text counts exactly if 1 to 255 characters are left of it without white space at its ends, no line end and no NUL among them. |
| `Neighbourhood.IncrementalMergeIsBatchMerge` | client/app/neighbourhood.py:133-166 | Merging a merged list with more is merging everything at once: same devices in the same order with the same host name, vendor, OS, interface, port, signal, time, source and type. |
| `Neighbourhood.MergeIsIdempotent` | client/app/neighbourhood.py:133-166 | Merging a merged list again changes none of these. |
| `Neighbourhood.OneEntryPerDevice` | client/app/neighbourhood.py:133-166 | A (MAC, IP) pair has one record exactly if a valid observation names it: its first valid observation after absorbing the later ones in order. |
| `Neighbourhood.TextsAreTheFirst` | client/app/neighbourhood.py:152-157 | Host name, vendor, OS, interface and switch port of a record are the first that any of its observations had. |
| `Neighbourhood.DhcpFieldsAreTheFirst` | client/app/neighbourhood.py:156-162 | The DHCP fields of a merged record are the first that any of its observations had. |
| `Neighbourhood.SightingIsTheNewest` | client/app/neighbourhood.py:163-166 | Time, source and type are those of the first among the newest observations. |
| `Neighbourhood.SignalIsTheLast` | client/app/neighbourhood.py:158-159 | The signal strength is the last one reported. |
| `Neighbourhood.SourcesAreCollected` | client/app/neighbourhood.py:160-162 | The sources of one merge are exactly those of its observations. |
| `Neighbourhood.BatchingDoesNotMatter` | client/app/neighbourhood.py:243-259 | The daily file does not depend, in these fields and its order, on how timestamped observations were cut into batches. |
| `Neighbourhood.ClockIsIrrelevant` | client/app/neighbourhood.py:44-53 | The clock matters only for records without a time. |
| `Neighbourhood.RestoringIsExact` | client/app/neighbourhood.py:133-166 | Reading a stored list again changes nothing at all exactly when every entry has its own source as its only one and DHCP fields only as a DHCP record. |
| `Neighbourhood.RestoringIsExactlyOneSource` | client/app/neighbourhood.py:133-166 | Reading the merged list again changes nothing at all if and only if all valid observations of each device share one source. |
| `Neighbourhood.SecondSourceIsForgotten` | client/app/neighbourhood.py:160-162 | Two sightings of a device from different sources leave an entry that the next batch strips of one source. |
| `Neighbourhood.DhcpFieldsAreForgotten` | client/app/neighbourhood.py:102-110 | A client id learnt by DHCP is dropped with the next batch once ARP saw the device later. |
| `Neighbourhood.DailyNeighbourhood.Update` | client/app/neighbourhood.py:243-259 | The stored list becomes the merge of the stored list and the batch. |
| `PacketStorage.DailyPacketStorage.RecordObservation` | client/app/packet_storage.py:79-125 | It performs the specified step and raises exactly when a write it needs fails. |
| `PacketStorage.DailyPacketStorage.FlushLocked` | client/app/packet_storage.py:132-174 | The buffer is cleared first; its items end up behind those of the day's file, or are lost with a failed write. |
| `PacketStorage.NothingIsLostExactly` | client/app/packet_storage.py:79-174 | Over every run, nothing is lost if and only if no attempted write fails; what was kept is then everything that arrived, in order. |
| `PacketStorage.EachDayHoldsItsPackets` | client/app/packet_storage.py:72-174 | Over every run, for each date the file followed by the buffered items of that date is what it held at first and that date's packets in arrival order, even when dates alternate, if and only if no attempted write fails; every packet is then stored or buffered. |
| `PacketStorage.ArrivedTells` | client/app/packet_storage.py:74-79 | The packets of a run are filed one by one under the first ten characters of a time text with dashes at places 4 and 7, else under the day of the call. |
| `PacketStorage.CountersTellTheProtocols` | client/app/packet_storage.py:84-109 | In every run, whatever fails, each of the twelve counters is the number of recorded packets of its protocol, the last one of all others. |
| `PacketStorage.FlushesExactlyWhenDue` | client/app/packet_storage.py:111-129 | In every run a recording that does not fail leaves the buffer empty exactly if the interval is over or the threshold reached; else the packet is behind what was buffered for its day. |
| `PacketStorage.BufferIsSmallAndOfOneDay` | client/app/packet_storage.py:79-125 | Whatever fails, buffered items share the current date and the buffer stays below the threshold. |
| `PacketStorage.CountersBalance` | client/app/packet_storage.py:44-65 | Whatever fails, observed = sum of protocol counters = stored + buffered + lost, and `packet_count` of a written file is its number of packets. |
| `PacketStorage.FailedWriteLosesTheBuffer` | client/app/packet_storage.py:79-174 | A recording that fails, at a change of date or at a full or due buffer, loses the new packet and the whole buffer, except one written to the earlier day just before. |
| `ActivityWindows.BuildRecords` | client/app/activity_window_aggregator.py:173-205 | The loops over flows, participants and devices compute the specified records. |
| `ActivityWindows.DeviceAccumulator.AddFlow` | client/app/activity_window_aggregator.py:106-137 | The accumulator's in-place update is the summary update of the model. |
| `ActivityWindows.OneRecordPerDevice` | client/app/activity_window_aggregator.py:173-205 | Exactly one record for each distinct lower-cased known MAC, in sorted order; the explicit inactive record is that of an empty accumulator. |
| `ActivityWindows.RecordsTellTheirDevices` | client/app/activity_window_aggregator.py:173-205 | Each record names the window and tells its device's flows; it is active exactly if the device is at an end of one of them. |
| `ActivityWindows.KnownMacsAreDistinctAndSorted` | client/app/activity_window_aggregator.py:190-200 | The known devices are exactly the distinct lower-cased MACs, strictly ascending. |
| `ActivityWindows.NoFlowsMeansEmpty` | client/app/activity_window_aggregator.py:156-170 | A device with no flows has an empty summary. |
| `ActivityWindows.FlowCountsAreEnds` | client/app/activity_window_aggregator.py:74-81 | Flow counts over all devices sum to the number of flow ends that are known devices; a flow from a device to itself has two. |
| `ActivityWindows.SummaryTellsItsFlows` | client/app/activity_window_aggregator.py:106-137 | A summary counts the device's flows once for each of its ends: flows, packets, bytes, packets by protocol, flows by peer port, internal and external connections, peer addresses. |
| `ActivityWindows.PeerIsTheOtherEnd` | client/app/activity_window_aggregator.py:118-124 | In a flow with one end at the device, port and address counted are the other end's. |
| `ActivityWindows.ProtocolsSumToPackets` | client/app/activity_window_aggregator.py:106-116 | Protocol counts of a device sum to its packet count. |
| `ActivityWindows.ConnectionsAreFlows` | client/app/activity_window_aggregator.py:130-137 | Internal and external connections together are at most the flows. |
| `ActivityWindows.SummariesAddUp` | client/app/activity_window_aggregator.py:106-137 | The summary of a concatenation is the sum of the summaries. |
| `ActivityWindows.OrderDoesNotMatter` | client/app/activity_window_aggregator.py:106-137 | Summaries do not depend on the order of the flows. |
| `ActivityWindows.WindowsPartitionTheSpan` | client/app/activity_window_aggregator.py:208-212 | For window ends stepping by the window length the summaries add up to the span's. |
| `ActivityWindows.InExactlyOneWindow` | client/app/activity_window_aggregator.py:208-212 | A flow lies in the span of `n` windows that follow each other if and only if it lies in one of them, and it never lies in two. |
| `ActivityWindows.ActiveFileSufficesExactly` | client/app/activity_window_aggregator.py:246-278 | A cycle, which reads the active file only, reports what the whole rotating log says exactly when no flow of a known device in the window was rotated away. |
| `ActivityWindows.RotatedFlowIsMissed` | client/app/activity_window_aggregator.py:246-278 | Any flow of the window that was rotated away before the cycle is missing from the report. |
| `ActivityCycles.FlowIsReportedExactly` | client/app/activity_window_aggregator.py:246-260 | Over every run of filings, rotations and cycles, a cycle's report is made of a flow if and only if the flow was last seen in the cycle's window, was filed before it under the local day on which the window ends, and was not rotated away since. |
| `ActivityCycles.ReportTellsItsFlows` | client/app/activity_window_aggregator.py:251-278 | Each record of a cycle's report is its device's summary of exactly those flows. |
| `ActivityCycles.OwnCycleDecides` | client/app/activity_window_aggregator.py:295-300 | With cycles at least a window apart, a flow is reported by at most one cycle, and if a window holds it then if and only if that window's own cycle finds it in the file. |
| `ActivityCycles.LateFlowIsNeverReported` | client/app/activity_window_aggregator.py:295-300 | A flow finalised only after the end of the window that holds it is in no report of the run. |
| `ActivityCycles.FlowAcrossACycleIsMissed` | client/app/activity_window_aggregator.py:246-260 | A flow last seen ten seconds before a cycle and filed 50 seconds after it is in no report. |

## Left out

- `build_delta_payload`, `build_seed_payload` and `seed_devices`: field selection and text formatting; payload bodies are opaque.
- Liveness of synchronisation: after a NACK the event stays set and later waits return at once; only safety is stated.
- SyncProtocol.NoWindowLost: window level only; handing over a live window again replaces its stored payload but not the one being sent.
- Flow record decoration: `flow_id`, durations, rounding and ISO formatting; flows are finalised inside the sweep's one step.
- A sweep uses one reading of the monotonic clock for all flows, where the source reads it for each flow in turn.
- The death of a sync worker's thread is the same step as the finally-block that forgets its event and result.
- Reading failures of stored files: a readable file is read; a transient read error that makes the packet or rotating store start from an empty file is not modelled.
- `parse_window_id`, timestamp parsing and path layout: windows and times arrive parsed; a text that does not parse is None.
- NBNS names, `PassiveObservationBuffer`, the other passive protocols and Scapy extraction.
- TLS: texts of the server name are ASCII with replacement; the MD5 of the JA3 text is not modelled.
- DHCP: `int()` in `ip_to_bytes` also reads signs, underscores and spaces, which the builder here refuses; UTF-8 decoding is a parameter.
- JSON, base64, SHA-256 and MD5: inverse pairs or opaque functions.
- Sockets, threads, `select`, `psutil`, subprocesses: outcomes of steps. Package inits run one at a time because the receive loop is serial.
- PackageSession: POSIX semantics of open files (an unlinked or replaced file lives on behind its handle); file-name checks, extraction and the directory swap after publishing are not modelled.
- Updater: path containment, archive limits, the search for an interpreter, the recorded state file and the restoration of `updater/`, which the rollback does not touch.
- ResourceProtection.CapIsKeptExactly: not for two limits that both wait for lasting pressure; for those `AnHourHoldsAtMostTheCap` and `BurstExceedsTheCap` bound the cap from both sides.
- ResourceProtection: percentages and times are integers; events carry the process and the kind only; a configuration that changes during a run is not covered by the run theorems.
- Neighbourhood: upper-casing is ASCII; texts of the daily file's date and its JSON form are not modelled.
- PacketStorage: the flush interval is an input (`due`); the client id kept in each file is not modelled.
- ActivityCycles: a cycle takes the time and reads the file in one step; flows are filed one by one.
- ActivityWindows: the table of accumulators holds values while the accumulator class shows the update in place; `unique_destinations` is kept as the set whose size the record reports; window texts are numbers.
- `check_file_changes`, the env-file reader and writer, the device correlator, REST, database and GUI code: easier members that would add nothing to the results above.
