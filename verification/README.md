# sovVault: a verified model

sovVault turns captured packets into request/response records. Two ordered stores hold them: `live`
keeps what is in flight, a growing list of `epoch` stores keeps history, and a ledger row per data
file keeps a watermark that is written last. This project models that core in Dafny and proves what
its design promises.

How it is built: what the program updates in place is a class here (`QrMatcher`, `SeqStream`,
`Reassembler`, `BatchPipeline`, `HotFileWriter`, `Ledger`, `EpochKeeper`, `Cursor`, `QuerySession`),
its loops are loops. Each method is proved equal to a function on values (`Qr.Ingest`, `Ttl.TtlScan`,
`Reassembly.Place`, `Query.Forward`, `Batching.Push`, ...), and what the program promises about whole
runs, crashes and replays is proved about those functions.

| files | part |
|---|---|
| `Common`, `Ordering`, `Sums` | saturating arithmetic, enumeration of a key set in order, sums over maps |
| `Connection`, `AnomalyBits`, `SeqStream`, `Store`, `Qr`, `QrMatcher` | connection state, its flags as bits, sequence translation, stores, the matcher as values and as a class |
| `QrRequests`, `QrGenerations`, `QrFlags` | one record in raw fields: which packets open a request, start a generation, reset, answer, and which flags they leave |
| `QrBookkeeping`, `QrLockstep`, `QrConvergence`, `QrDurability`, `QrLive`, `QrLiveRuns`, `QrConsume`, `QrReadback`, `QrOnce`, `QrCounting`, `QrReplay`, `QrBatchReplay` | connection state machine, crash convergence and batch cuts, no loss, live invariant, consumption, rows that cannot be read back, one ending per request, replay after a live commit |
| `Ttl`, `TtlScanner`, `TtlScans`, `TtlLive`, `TtlDeadlines`, `TtlFlags` | the timeout scan, its deadlines in numbers, the mark it leaves |
| `Reassembly`, `Reassembler`, `ReassemblyBudget`, `ReassemblyConnBound`, `ReassemblyCap`, `ReassemblyWindow`, `ReassemblyOutcomes`, `ReassemblyLedger`, `ReassemblyFidelity`, `ReassemblyConfluence`, `ReassemblyOrder` | the reassembler, its books, its real device bound, eviction windows, what one chunk comes to, what a run accounts for, what it appends, order independence |
| `Query`, `QueryBackward`, `QueryIndex`, `QuerySession`, `Archive`, `EpochRotation` | paging, status lookup, what an index query shows, streaming, epoch boundaries and pruning |
| `Batching`, `BatchSteps`, `BatchPipeline` | hot file, barrier, watermark, recovery |
| `Codec`, `KeyCodec`, `RowCodec`, `RowLayout` | byte order of keys, encodings of rows, offsets of their fields |
| `Calendar` | days to dates |

`dafny verify dfyconfig.toml` checks everything.

## Where code and documentation differ

The model follows the code.

- Replay after both stores committed (only the watermark lost) is said to converge (section 5.1 of
  doc/08, section 13.4.2 of doc/09). A replayed batch with a TCP record other than a reset never does
  (`BatchReplayCounts`); the batches that do, resets with SYN included, are given by
  `BatchReplayIsIdleExactly`. In the window the commit order is made for, epoch committed and live
  not, convergence is exact (`CrashesConverge`), unless a rotation comes before the replay: then a
  request can end twice (`OnceExactly`, `EndedTwice`).
- An answer to several requests is described as one row that lists all of them (section 5.2 of doc/08).
  The length of the list is cast to 16 bits when the row is stored: a row that lists more than 65535
  does not read back (`AnsweredReadBackExactly`, `AnswerReadsBackExactly`, `ManyReadBackExactly`).
- The device budget L2.5 is called a hard gate. `HardCapFails` passes it with three chunks,
  `LeakFails` without any victim; `CapHoldsExactly` says when one step keeps it, `ConnCounterBound`
  gives the bound that does hold. The configuration comment reads a cap of 0 as unlimited; for
  the code it is a cap of zero bytes (`ZeroCapExactly`, `ZeroCapQuarantines`).
- The timeout scan's bound is said to cover every expired entry; at the largest clock value it misses
  the youngest ones (`ScanBoundCovers`, `ScanBoundMissesAtClockEnd`).
- A cumulative answer is described as ending the requests up to its number. Since the translation
  clamps to the stream head, every accepted answer on consistent stores, those of runs with clean
  starts, ends all pending requests (`AbsOfClampsToHead`, `AcceptedAnswerEndsAll`). `CumulativeFails`
  is an answer that ends a request past its number; `CumulativeExactly` says when the description
  holds.
- Descending order without cursor is offered as a first page; it sees epoch 0 only
  (`FirstPageBackward`, `FirstPageMissesNewest`).
- Re-pushing uncommitted records is said to reproduce their places; a record longer than a file is
  the exception (`ReplayReassignsExactly`, `OverlongExample`), and for it an interrupted commit does
  not converge (`CrashedCommitConverges`).
- A frozen epoch's boundary is said to be written before the rotation. When the rotation fails after
  creating the next directory, work goes on in the old epoch and a restart freezes it with that
  boundary: correct only while no record outside its times is committed (`OvertakenExactly`,
  `OvertakenFails`).

## Model

| member | source | states |
|---|---|---|
| SeqStreams.FeedRefinesHighWater | src/qr.rs:135-160 | near the head and within 64 bits, feeding a packet is an unbounded high-water mark: new data is the part of `[T, T+len)` above the head, the head becomes the larger end |
| SeqStreams.AbsOfClampsToHead | src/qr.rs:118-128 | an acknowledgement translates to max(ack, head): exact if and only if it is not behind the head |
| SeqStreams.RunIsHighWater | src/qr.rs:103-160 | over whole runs and any number of wraps, raw and absolute head stay congruent mod 2^32, the head is the running maximum, and reported intervals are disjoint and increasing |
| SeqStreams.ReportedExactly | src/qr.rs:135-160 | a packet reports a byte as new exactly when it carries it and no earlier packet moved the head past it |
| SeqStreams.SeqStream.FeedPacket | src/qr.rs:135-160 | the translator updated in place equals the specified translation, with the same start and new length |
| SeqStreams.SeqStream.TranslateAck | src/qr.rs:118-128 | read-only translation of the other direction's acknowledgement |
| SeqStreams.SeqStream.ResetBaseline | src/qr.rs:104-108 | the stream stands at the new initial number |
| QrMatchers.QrMatcher.constructor | src/qr.rs:253-272 | a batch begins on the committed stores with an empty connection cache |
| QrMatchers.QrMatcher.Ingest | src/qr.rs:291-433 | one record changes both open transactions and the cache exactly as the specification `Qr.Ingest`, over which the run theorems are proved |
| QrMatchers.QrMatcher.Process | src/qr.rs:301-432 | rebirth test, then reset cascade or exchange, on one connection |
| QrMatchers.QrMatcher.Exchange | src/qr.rs:358-430 | sequence advance, handshake, counters, then request or response, and the translators are saved back |
| QrMatchers.QrMatcher.Request | src/qr.rs:394-407 | client payload opens a request only for new bytes past the consumed number, else marks a retransmission |
| QrMatchers.QrMatcher.Respond | src/qr.rs:408-421 | an acknowledgement is consumed only when it moves forward and does not lead the client by more than the cap |
| QrMatchers.QrMatcher.OpenQ | src/qr.rs:470-585 | three live rows and four secondary epoch rows are written without overwriting, counters move by one |
| QrMatchers.QrMatcher.ConsumeR | src/qr.rs:589-635 | the scanned requests end one after the other with this answer, `qr_open` drops by the rows really moved |
| QrMatchers.QrMatcher.FlipEpoch | src/qr.rs:638-707 | pending requests of the old incarnation end UNMATCHED, the connection restarts with the next 16-bit incarnation |
| QrMatchers.QrMatcher.RstCascade | src/qr.rs:710-743 | pending requests of the incarnation end RST_ABORT and the connection is reset |
| QrMatchers.QrMatcher.MigrateTerminal | src/qr.rs:758-796 | epoch row first: present clears the live residue, absent moves a PENDING row, anything else is untouched; says whether a row moved |
| QrMatchers.QrMatcher.ScanPendingUpto | src/qr.rs:799-817 | the cursor loop returns the rows of one connection and incarnation up to the limit, in stream order |
| QrMatchers.QrMatcher.Locate | src/qr.rs:436-450 | forward key, then backward key, then a new connection; the connection is in the cache afterwards |
| QrMatchers.QrMatcher.LoadConn | src/qr.rs:453-466 | cache, then store; a stored connection is cached |
| QrMatchers.QrMatcher.WritebackConns | src/qr.rs:827-845 | every cached connection is written with `qr_open` recounted from QR_PENDING, all other rows stay |
| QrMatchers.QrMatcher.CountLivePending | src/qr.rs:848-858 | number of the connection's rows over all incarnations |
| QrMatchers.QrMatcher.Commit | src/qr.rs:275-283 | the durable states passed through are: new epoch beside old live, then both new |
| QrMatchers.Track | src/qr.rs:368-392 | handshake, FIN and counter assignments in the program's order give the specified connection |
| QrBookkeeping.StateFollowsTable | src/qr.rs:327-381 | whatever a record does to requests and streams, the connection state moves as a transition table over reset, client SYN, server SYN and client ACK says |
| QrBookkeeping.TrackedExactly | src/qr.rs:368-392 | counters, time stamps, incarnation and SYN index after one record; a reset moves no counter |
| QrBookkeeping.GenerationChangesExactly | src/qr.rs:327-344 | in raw fields: the incarnation changes, to the next one, if and only if the record's direction is active, it is a SYN, no handshake is under way, its place is not that of the current SYN, and its number differs from the last one or the connection is CLOSED, RESET or TIMEOUT |
| QrBookkeeping.NoHandshakeWithoutSyn | src/qr.rs:368-381 | over any sequence of its records a connection never becomes opening or established without a SYN from its client |
| QrBookkeeping.ThreeWayHandshake | src/qr.rs:368-381 | the three packets in order establish a connection from any state |
| QrMatchers.Finish | src/qr.rs:605-620 | terminal fields of a row; the first request of an answer lists every other one once |
| QrBookkeeping.BindingIsPermanent | src/qr.rs:481-503 | over any sequence of its records, resets and new incarnations included, a connection once bound to a metadata plugin keeps the binding and the protocol hint |
| QrBookkeeping.BindingComesFromPayload | src/qr.rs:482-485 | a connection that became bound carries exactly what the plugin bound on the payload of one of its client's records |
| QrBookkeeping.RequestsAreKeyed | src/qr.rs:498-502 | every request opened on a bound connection, anywhere in the sequence, carries the key and the pseudo flag the bound extractor gives for its own payload |
| QrRequests.OpensExactly | src/qr.rs:394-407 | a client packet at true position T on a stream standing at head H opens a request, for exactly [max(T, H), T + len), with its row, its two index entries, its four secondary rows and its key, if and only if len > 0 and T + len > max(H, consumed); otherwise neither store changes and a payload is marked a retransmission |
| QrRequests.FirstOpensExactly | src/qr.rs:135-160 | the same for the packet that activates the stream, whose number becomes the head |
| QrGenerations.ClientGeneration | src/qr.rs:638-707 | after a client SYN that starts a generation every request of the old one has an UNMATCHED row and none is pending, a payload of the SYN aside; both consumed numbers are 0, the client stands at the SYN's end, the server is inactive |
| QrGenerations.ServerGeneration | src/qr.rs:638-707 | the same for a server SYN, whose acknowledgement is taken as it is up to the permitted lead |
| QrGenerations.ResetExactly | src/qr.rs:710-743 | after a reset every request of the connection has an RST_ABORT row, or an UNMATCHED one when its SYN starts a generation, and none is pending |
| QrGenerations.AnswersExactly | src/qr.rs:408-421 | an acknowledgement of true position A on a client stream at head H is an answer if and only if max(A, H) lies past the consumed number and A at most 2^26 past H; an answer ends every request of the connection MATCHED, anything else changes neither store |
| QrGenerations.IdleAnswersExactly | src/qr.rs:408-421 | the same while the client's stream is inactive |
| QrGenerations.RespondsExactly | src/qr.rs:412-414 | the server's stream is the high-water mark, and exactly a packet with bytes past it counts as a response |
| QrFlags.FlagsExactly | src/qr.rs:335-380 | which anomaly flags a record sets, each as a bit with its own reason in raw fields; none is ever cleared |
| QrFlags.LocateExactly | src/qr.rs:436-450 | a record is a server's exactly when only its reverse names a known connection |
| QrFlags.NextIsLocated | src/qr.rs:436-450 | after a TCP record, the next one between the same endpoints is found on the same connection, in the right direction, unless the two hashes collide |
| QrFlags.FreshExactly | src/qr.rs:453-466 | a connection seen for the first time: the sender is the client, and without SYN it is marked half open |
| QrFlags.IngestTracks | src/qr.rs:291-300 | exactly the records of protocol 6 make their connection known; another one leaves everything but its RECORD_TS row |
| QrFlags.IngestLogs | src/qr.rs:292-298 | the row of a new record holds its summary |
| QrLockstep.ProcessByPlan | src/qr.rs:291-433 | whatever one TCP record does is a sequence of writes that open only its own request, put only its own index rows, drop only its connection's entries and settle requests terminally |
| QrConvergence.ReplayFromBetween | src/qr.rs:275-283 | from any epoch store between the start and the end of the crash-free batch, the batch ends in exactly its live and epoch stores |
| QrConvergence.CrashesConverge | src/qr.rs:275-283 | after any number of crashes before or between the two commits, the batch that completes leaves exactly the crash-free stores |
| QrConvergence.CutBatch | src/qr.rs:291-433 | cutting a batch in two changes neither store, although cache and counters differ in between |
| QrConvergence.CutsDoNotMatter | src/qr.rs:827-845 | any cut of a record sequence into batches ends in the stores of the one-record-per-batch run |
| QrDurability.CommittedRequestIsNeverLost | src/qr.rs:745-796 | over every interleaving of batches, scans, rotations and crashes at any commit point, a request committed pending stays that row in live or has a terminal row about the same question in an epoch; an ending that an epoch held already stays as it is. Rows are values: the bytes of one are unreadable when its answer ended more than 65535 requests at once (`AnsweredReadBackExactly`) |
| QrDurability.LiveIsAlwaysPending | src/qr.rs:758-796 | no committed state exposes a live row that is not PENDING |
| QrDurability.HistoryIsImmutable | src/db.rs:757-770 | in every run all rows of every epoch keep their values, and a frozen epoch gains none |
| QrDurability.LiveFirstLosesExactly | src/qr.rs:275-283 | with the commit order reversed, a crash loses a request for good exactly when the batch ended it |
| QrDurability.BatchRecordsExactly | src/qr.rs:292-298 | a batch adds one RECORD_TS row per record and no other |
| QrDurability.ReplayAddsNoRecord | src/qr.rs:292-298 | replaying a committed batch from any later live store leaves RECORD_TS as it is |
| QrLive.EndExactLive | src/qr.rs:600-632 | ending a list of hits removes exactly their rows, index entries and deadline entries from live |
| QrLive.EndExactEpoch | src/qr.rs:758-796 | ... and adds exactly their final rows to the epoch |
| QrLive.ConsumeEmpties | src/qr.rs:589-635 | an acknowledgement at or above the head leaves the connection with no pending request |
| QrLiveRuns.LiveInvAlways | src/qr.rs:394-431 | in every committed state of a crash-free run with clean starts, in which payload records of one direction of a connection have different times: the three request tables are in bijection, every pending entry carries its connection's incarnation and lies in (consumed, head], and `qr_open` is their number |
| QrLiveRuns.CleanExactly | src/qr.rs:135-160 | clean is exactly what that needs: a record keeps the invariant if and only if it does not activate its client's stream with payload past the consumed number and leaves the head below 2^48 |
| QrLiveRuns.FromNothing | src/qr.rs:827-845 | the same from the empty database |
| QrConsume.ConsumeIsExact | src/qr.rs:589-635 | whenever the scanned requests are pending and untouched, mid-stream captures included: exactly those of the incarnation with end at or below ack + tolerance become MATCHED; the first lists every other one once in stream order; everything else is framed |
| QrConsume.AcceptedAnswerEndsAll | src/qr.rs:409-421 | an accepted response, with or without SYN, leaves its connection without pending request after the batch commit, each ended MATCHED, or UNMATCHED when its SYN starts a new incarnation |
| QrConsume.CumulativeExactly | src/qr.rs:595-600 | the requests ended are exactly those up to the acknowledged number plus tolerance if and only if no pending request of the connection ends past it |
| QrConsume.CumulativeFails | src/qr.rs:118-128 | a concrete store with requests ending at 100 and 200: an answer to byte 100 turns both MATCHED |
| QrConsume.LiveFirstLosesAnswered | src/qr.rs:275-283 | committing live first would lose every request such a response answered |
| QrReadback.AnsweredReadBackExactly | src/db.rs:363-439 | whenever the scanned requests are pending and untouched: the stored rows of all requests one answer ends read back, except that the first one's does exactly when fewer than 65536 requests ended |
| QrReadback.AnswerReadsBackExactly | src/qr.rs:611-620 | on consistent stores, after an accepted response that starts no incarnation, every request of the connection has an ending that reads back if and only if fewer than 65536 were pending |
| QrReadback.ManyReadBackExactly | src/db.rs:376 | concrete stores with n one-byte requests and one answer to all of them: every row reads back if and only if n is below 65536 |
| QrReadback.OtherEndingsReadBack | src/qr.rs:758-796 | a timeout, reset or new incarnation always leaves a row that reads back |
| QrOnce.TakeOnceExactly | src/qr.rs:758-796 | batches and scans, wherever they stop, never give a request a second ending; a rotation keeps that possible exactly when no pending request has an ending in the current epoch |
| QrOnce.OnceExactly | src/db.rs:648-660 | over any run with crashes anywhere, whose batches bring no place that a frozen epoch has ended: no state ever has a second ending, or a pending request with a frozen ending, if and only if every rotation finds the current epoch clear of pending requests |
| QrOnce.FinishedRunIsSettled | src/qr.rs:275-283 | when each batch, with new and different places, is replayed to its end before anything else happens, that is so in every run |
| QrOnce.RequestHasOnePlace | src/qr.rs:745-796 | in such a run a pending request is that row in live and in no epoch, or has left live and has its ending in exactly one epoch |
| QrOnce.EndedTwice | src/qr.rs:275-283 | the failing input: a batch dies between its commits, a rotation comes, the batch is replayed; request 1 has an ending in both epochs |
| QrOnce.SettlesExactly | src/qr.rs:758-796 | in any stores, ending one request: it has an ending afterwards exactly when it had one or was pending, an ending that was there stays, and the live row goes in these two cases only |
| QrReplay.ReplayIsIdleExactly | src/qr.rs:330-392 | one record replayed after the live commit leaves both stores unchanged if and only if it is not TCP, or a reset that starts no incarnation on the dead connection |
| QrCounting.BatchCountsPackets | src/qr.rs:384-392 | a batch adds its TCP records other than resets to the packets counted over all connections, modulo 2^64 |
| QrCounting.BatchReplayCounts | src/qr.rs:384-392 | whatever the hashes, replaying a committed batch with such a record changes the live store |
| QrBatchReplay.PlainReplayIsIdle | src/qr.rs:710-743 | without colliding keys, replaying a committed batch of other protocols and resets without SYN leaves both stores unchanged, however long the batch |
| QrBatchReplay.BatchReplayIsIdleExactly | src/qr.rs:330-392 | for batches of any records, resets with SYN included, the replay leaves both stores unchanged if and only if no TCP record is other than a reset and each reset, taken on the connections as the batch committed them, starts no incarnation and marks nothing new |
| TtlScanner.ScanPendingTtl | src/anomaly.rs:56-181 | the scan loop leaves both stores as the specification `Ttl.TtlScan`, epoch committed first; a zero timeout does nothing |
| TtlScanner.CollectDue | src/anomaly.rs:82-98 | entries opened at or before the bound, oldest first |
| TtlScanner.EvaluateEntry | src/anomaly.rs:104-173 | deadline test and the four outcomes of one entry, with statistics and connection cache |
| TtlScanner.CleanupPending | src/anomaly.rs:239-267 | deletes the first QR_PENDING row of the connection that names the request, if any |
| TtlScans.ScanBoundCovers | src/anomaly.rs:64-74 | an expired entry lies inside the scan bound, except exactly at the last clock value for entries younger than the tighter timeout |
| TtlScans.ScanBoundMissesAtClockEnd | src/anomaly.rs:64-74 | a concrete entry that is expired and not scanned |
| TtlScans.ScanIsExact | src/anomaly.rs:99-173 | in any state of the stores, one a stop left behind included: exactly the due deadline entries leave, each request meets its fate (pending without ending: moved as TIMEOUT; ending present: live row cleared; else kept), nothing else enters the epoch, connections keep everything but counter and flags |
| TtlScans.DueTimeOut | src/anomaly.rs:138-152 | a request without ending gets a row in the epoch exactly when a due entry names it and its live row is pending; that row is the live one with status TIMEOUT |
| TtlScans.OnlyDueTimeOut | src/anomaly.rs:99-173 | a request no due entry names keeps its rows in both stores and its QR_PENDING entries |
| TtlScans.StaleIsCleared | src/anomaly.rs:116-129 | a due request whose ending the epoch already holds leaves live with its deadline and first QR_PENDING entry; the ending does not change |
| TtlScans.ScanCounts | src/anomaly.rs:116-172 | as many timeouts are counted as requests moved, and every other due entry counts as stale |
| TtlScans.NothingExpiredIsLeft | src/anomaly.rs:64-74 | in any state, before the last clock value: no entry stays whose base or FIN-shortened deadline has passed; a missing connection reads as one without FIN |
| TtlScans.SecondScanIsIdle | src/anomaly.rs:99-173 | in any state a second scan at the same clock leaves both stores as they are and counts neither timeout nor stale entry |
| TtlDeadlines.LeavesExactly | src/anomaly.rs:64-114 | in numbers, before the last clock value: a deadline entry leaves if and only if its opening time plus `qr_timeout_secs` has passed, or a FIN came at or after it and the tighter timeout has passed since the FIN |
| TtlDeadlines.TimesOutExactly | src/anomaly.rs:99-173 | a pending request without ending gets its TIMEOUT row exactly when one of its entries has run out in this sense |
| TtlDeadlines.StaysExactly | src/anomaly.rs:99-173 | a request with no such entry keeps both rows, its pending entries and its deadlines |
| TtlDeadlines.YoungStays | src/anomaly.rs:64-74 | without FIN a request younger than `qr_timeout_secs` keeps them all |
| TtlDeadlines.FinGoes | src/anomaly.rs:106-114 | after a FIN a request goes once the tighter timeout has passed, whatever the full one |
| TtlFlags.MarksExactly | src/anomaly.rs:138-160 | on consistent stores a scan marks exactly the connections with an entry that has run out, and moves no other flag |
| TtlLive.ScanKeepsInv | src/anomaly.rs:138-173 | on consistent stores exactly the due requests leave all three tables and the live invariant holds again, `qr_open` included |
| Reassemblers.Reassembler.PlaceChunk | src/reassembly.rs:204-294 | placing a chunk in place equals the specification for some victims the scans may pick; the books balance afterwards and no subtraction underflows |
| Reassemblers.Reassembler.AdmitPiece | src/reassembly.rs:263-293 | room in the device, room overall, store, drain |
| Reassemblers.Reassembler.DrainContiguous | src/reassembly.rs:327-359 | the loop appends the chunks at the head one after the other, with exact counters |
| Reassemblers.Reassembler.EvictOldestInDev | src/reassembly.rs:406-453 | one oldest chunk of the device is dropped and counted; at the threshold the device is quarantined |
| Reassemblers.Reassembler.FindOldestInDev | src/reassembly.rs:408-419 | whatever the hash order, the result is a chunk of the device with the smallest offset, or the device has none |
| Reassemblers.Reassembler.EvictOldestGlobal | src/reassembly.rs:456-497 | one victim is dropped, without counting towards quarantine |
| Reassemblers.Reassembler.FindOldestGlobal | src/reassembly.rs:457-477 | quarantined devices first, then the smallest offset |
| Reassemblers.Reassembler.QuarantineDev | src/reassembly.rs:500-520 | the device loses all chunks, counters and streak, its segments are marked skipped |
| Reassemblers.Reassembler.MarkSegmentError | src/reassembly.rs:297-324 | the segment's bytes go back to both counters, its chunks are dropped |
| Reassemblers.Reassembler.SealSegment | src/reassembly.rs:362-403 | skipped numbers are announced, then the segment is released or the gap reported |
| Reassemblers.Reassembler.AnnounceSkips | src/reassembly.rs:365-374 | one event per segment number strictly between the last seal and this one |
| Reassemblers.Reassembler.ReleaseSegment | src/reassembly.rs:523-530 | the segment is removed and its counted bytes returned |
| Reassemblers.Reassembler.DropSegmentPending | src/reassembly.rs:532-542 | one segment loses its chunks and both counters shrink by what it counted |
| Reassemblers.Reassembler.SetNow | src/reassembly.rs:187-189 | the clock moves, nothing else does |
| Reassemblers.Reassembler.constructor | src/reassembly.rs:173-184 | an empty reassembler whose books balance |
| ReassemblyBudget.BooksBalance | src/reassembly.rs:263-293 | in every reachable state the global counter is the sum of the segment counters, each device counter the sum over its segments, each segment counter covers what it holds and is within L2, and no chunk waits at its head |
| ReassemblyBudget.CreditSound | src/reassembly.rs:343-350 | whatever is taken off a segment counter is covered by device and global counter |
| ReassemblyCap.ConnCounterBound | src/reassembly.rs:269-289 | while the clock stays within one eviction window a device never counts more than `l25` + threshold chunks, whatever arrives |
| ReassemblyCap.CapHoldsExactly | src/reassembly.rs:263-289 | the device's counter after an out-of-order piece, with or without overflow, victim, quarantine or global eviction: it is within `l25` exactly when the bytes freed make up for the piece |
| ReassemblyCap.NoVictimBreaksCap | src/reassembly.rs:408-419 | an overflow that finds no victim always breaks the cap |
| ReassemblyCap.HardCapFails | src/reassembly.rs:269-289 | cap 2: three small chunks leave a device counting 3 bytes |
| ReassemblyCap.LeakFails | src/reassembly.rs:281-289 | a run that leaves an overwritten byte counted with nothing waiting, then overflows without victim |
| ReassemblyCap.ZeroCapExactly | src/reassembly.rs:263-280 | a cap of 0: every piece past the head overflows it, and the device is left alone, as documented, exactly when it has nothing waiting |
| ReassemblyCap.ZeroCapQuarantines | src/reassembly.rs:93-108 | cap 0, threshold 1: the second out-of-order chunk quarantines the device |
| ReassemblyCap.GlobalCapExactly | src/reassembly.rs:277-280 | after the device has made room, a waiting piece is stored as it is while everything fits the global budget; beyond that exactly the victim's bytes go |
| ReassemblyCap.HeadEvictsExactly | src/reassembly.rs:263-280 | a piece at the head evicts exactly when the global budget overflows and there is a victim |
| ReassemblyWindow.QuarantinedExactly | src/reassembly.rs:439-452 | over any run a device ends in quarantine if and only if, its evictions cut into windows by their clock values, some window takes `evict_threshold` of them |
| ReassemblyWindow.SpacedIsSafe | src/reassembly.rs:444-449 | with a threshold of at least 2, a device whose evictions each come after the window of the one before is never quarantined |
| ReassemblyWindow.OneWindowExactly | src/reassembly.rs:449-452 | with all evictions in one window, it is quarantined exactly at the threshold |
| ReassemblyWindow.ClockIs | src/reassembly.rs:187-189 | over any run the clock, and with it the times of evictions, is what the last operation that sets it says |
| ReassemblyOutcomes.QuarantinedDrops | src/reassembly.rs:213-219 | chunks of exactly the quarantined devices are dropped and reported, without effect |
| ReassemblyOutcomes.RepeatExactly | src/reassembly.rs:231-241 | a chunk is a repeat exactly when it ends at or before the head; it is counted and nothing else |
| ReassemblyOutcomes.RefusedExactly | src/reassembly.rs:263-267 | a segment runs into an error exactly when a chunk past its head does not fit its budget; what waited is dropped and given back to both counters, the head stays |
| ReassemblyOutcomes.InOrderIsAppended | src/reassembly.rs:263-293 | a chunk that continues its segment at the head is appended whatever the budgets, and counts against nobody |
| ReassemblyOutcomes.AheadWaits | src/reassembly.rs:263-289 | a chunk past the head with room in its segment waits there under its offset, even when it brings its device into quarantine |
| ReassemblyOutcomes.StatesExactly | src/reassembly.rs:297-345 | the state of every segment after a chunk |
| ReassemblyOutcomes.DeviceVictimExactly | src/reassembly.rs:408-419 | the victim of a device is any of its chunks with the smallest offset; none exactly when nothing of it waits |
| ReassemblyOutcomes.GlobalVictimExactly | src/reassembly.rs:457-477 | the victim of all is a chunk of a quarantined device while one has something waiting, with the smallest offset of its class; none exactly when nothing waits |
| ReassemblyOutcomes.SealExactly | src/reassembly.rs:379-402 | a known segment is released exactly when the sealed size is its head; otherwise the gap is reported and the size kept |
| ReassemblyLedger.BytesAreAccounted | src/reassembly.rs:326-542 | over any run: bytes taken in are those reported as appended or evicted, those thrown away by an error, a quarantine or a seal, and those still counted |
| ReassemblyLedger.SkippedExactly | src/reassembly.rs:362-377 | over any run a segment number is announced as skipped at most once, and exactly when the first seal from it on lies past it and another seal came before |
| ReassemblyLedger.DupsAreCounted | src/reassembly.rs:231-241 | over any run in which the segment is not released, its repeat counter grows by the repeats reported |
| ReassemblyFidelity.FilesAreSourcePrefixes | src/reassembly.rs:204-359 | for chunks of a source in any order, overlap or repetition, through evictions, errors and quarantine: the appends of a segment are contiguous from 0 and concatenate to the source prefix up to the head, and a seal succeeds only on exactly the bytes written |
| ReassemblyFidelity.PlaceFollows | src/reassembly.rs:204-294 | one placement appends exactly the source bytes between the old and the new head |
| ReassemblyOrder.Confluence | src/reassembly.rs:204-294 | two runs within budgets that deliver the same chunks of a segment, in any order and with any repeats, leave it with the same head and the same waiting chunks |
| ReassemblyOrder.CompleteSegment | src/reassembly.rs:362-403 | a fully delivered segment has nothing waiting and its seal answers Sealed |
| ReassemblyOrder.CompleteFile | src/reassembly.rs:327-359 | and its appends are exactly the segment's content |
| ReassemblyOrder.CountersReturnToZero | src/reassembly.rs:327-359 | when every chunk of every segment came once, all three counters are zero again |
| ReassemblyOrder.SmallTotalsAreRoomy | src/reassembly.rs:263-280 | chunks whose total fits every cap meet no limit in any order |
| Query.CursorRoundTrip | src/query.rs:522-538 | a cursor gives back its epoch and key |
| Query.PagesAreTheRest | src/query.rs:443-518 | for any page limits, zero included, forward pages end and together are every row after the cursor |
| Query.PagesAreTheFullScan | src/query.rs:443-518 | from the first page on they are the plain full scan |
| Query.FullScanIsExact | src/query.rs:443-509 | the full scan holds exactly the stored rows of the range, each once, in strictly increasing (epoch, key) order |
| Query.PageAdvances | src/query.rs:512-519 | the next cursor names the row a page ended at, and no more rows are announced only when none is left |
| Query.LookupsAgree | src/query.rs:415-437 | batched and point lookup agree on a request exactly when the row found has a known status or there is no row |
| QueryBackward.BackwardPagesAreReversed | src/query.rs:454-463 | for any cursor, one that names no row included, and any limits, backward pages end and together are all rows before the cursor, last first |
| QueryBackward.BeforeRow | src/query.rs:454-463 | the cursor of a row of the full scan sees exactly the rows before that row |
| QueryBackward.FirstPageBackward | src/query.rs:530-537 | without cursor a backward page is the end of the full scan exactly when no epoch past 0 has a row |
| QueryBackward.FirstPageMissesNewest | src/query.rs:530-537 | two epochs with one row each: the newest row is not on the first backward page |
| QuerySessions.PageRowsEpochs | src/query.rs:443-509 | the loop over epochs returns the specified page, forward or backward |
| QuerySessions.ScanEpochRange | src/query.rs:686-733 | one epoch's rows are appended in order up to the limit; says whether the page is full |
| QuerySessions.ReplayIntoSink | src/query.rs:387-405 | one pass without cursor sends the full scan, hence what paging delivers for any limits |
| QuerySessions.BatchStatuses | src/query.rs:415-437 | from the stored bytes: the map holds exactly the candidates for which some table has a row that decodes to a known status, each with the status of the first such table, live first |
| QuerySessions.QuerySession.QrByIdx | src/query.rs:279-287 | from the stored bytes: the first row that decodes, live first, then the epochs in order |
| QuerySessions.QuerySession.ScanQr | src/query.rs:304-365 | one page of index rows in either direction, with resolved and filtered statuses; cursor and continuation come from the raw rows |
| QuerySessions.QuerySession.StreamQrs | src/query.rs:578-598 | paging by 100 sends the full scan with every row's status resolved from the rows that decode, filtered, and counts it; a request none of whose rows decodes is not sent |
| QueryIndex.SentExactly | src/query.rs:304-365 | a row is sent exactly when its index key is stored, its connection is the one asked for, its time lies in the window, and its status, that of the first table with a known one, is the status asked for |
| QueryIndex.FullAnswers | src/query.rs:335-365 | the rows a full scan of the query's range shows are exactly these, in index order |
| QueryIndex.ShownAnswers | src/query.rs:310-330 | of any raw rows exactly the answers are shown, in order |
| QueryIndex.RangeExactly | src/query.rs:773-794 | the byte range of a query holds exactly the index keys of its connection inside its window |
| QueryIndex.StatusIsKnown | src/query.rs:415-437 | the status found is that of the first table that knows one, live before the epochs |
| Archives.FrozenAreCovered | src/ingest/zenoh.rs:521-551 | in every reachable state, stops between boundary write and rotation included, every frozen epoch has a boundary row that covers its RECORD_TS, CONN_QR and QR_TIME times |
| Archives.CoveredFromNothing | src/ingest/zenoh.rs:521-551 | the same from an archive without epochs, whatever live holds |
| Archives.OvertakenExactly | src/db.rs:648-660 | a boundary is written, the rotation fails after it created the next directory, any batches and scans follow, then a restart: the frozen epochs stay covered if and only if every record committed after the boundary lies within the first and last time the epoch had when it was written |
| Archives.OvertakenFails | src/db.rs:544-547 | the failing input: an epoch with one record at time 10, its boundary, a failed rotation, a record at time 20, a restart |
| Archives.PruningKeepsAnswers | src/query.rs:740-770 | a windowed scan over the pruned epochs equals the scan over all epochs, in every reachable state and for all three databases |
| Archives.ScannedExactly | src/query.rs:740-770 | an epoch is left out exactly when it is frozen, its boundary is known, and no time lies both in boundary and window |
| Archives.LookupsAgreeAlways | src/query.rs:279-287 | in every reachable state batched and point lookup agree on every request, over all rows or over those that read back |
| Archives.ReachableRequestIsNeverLost | src/qr.rs:745-796 | the same for every request that any reachable state holds pending, whatever happened before and whatever comes after |
| Archives.IngestIndexed | src/qr.rs:558-580 | every request index row stands beside the RECORD_TS row of its own record |
| EpochRotation.EpochKeeper.MaybeRotateEpoch | src/ingest/zenoh.rs:521-551 | boundary before rotation; a failure leaves nothing, or only the boundary, and every frozen epoch stays covered |
| Archives.BoundsExactly | src/db.rs:631-638 | an epoch's boundary counts its records and gives the earliest and the latest of their times, or none exactly when there is no record |
| EpochRotation.EpochKeeper.CurrentEpochBounds | src/db.rs:631-638 | times of the first and last RECORD_TS key and their number, or none |
| EpochRotation.EpochKeeper.RotateEpoch | src/db.rs:648-660 | the current epoch is frozen unchanged and an empty one follows |
| Batching.PipelineStaysOk | src/batch.rs:381-420 | over whole runs of pushes, commits, closes, and stops at any commit point followed by recovery: pending records are the device's, at most a batch, lie in the one open file and tile [watermark, offset), and past the file size one stands alone |
| Batching.ActOk | src/batch.rs:285-314 | one action of such a run; a restart stands in the file that was open, at its watermark |
| Batching.FlushMovesWatermark | src/batch.rs:96-109 | a commit moves that file's watermark exactly to the offset and touches no other row |
| Batching.IndexesAreDistinct | src/batch.rs:237-248 | with files up to 4 GiB the indexes of a run strictly increase, so no two records share one |
| Batching.SameIdxExactly | src/batch.rs:44-46 | two places have one index exactly when the file is the same and the offsets agree mod 2^32 |
| Batching.ReplayReassigns | src/batch.rs:285-314 | truncating to the watermark and pushing the same records gives each the same file and offset |
| Batching.ReplayReassignsExactly | src/batch.rs:237-248 | ... exactly unless the pending record is longer than a whole file, which opens another file each time |
| Batching.OverlongExample | src/batch.rs:237-248 | a record of 264 bytes and files of 100: pushed again it moves from file 1 to file 2 |
| Batching.CrashedCommitConverges | src/batch.rs:402-413 | a commit that dies any number of times, each time recovered and re-pushed, ends in the stores, watermark and hot file of the undisturbed commit if and only if it did not die or the file is not overfull |
| Batching.FileNumbersIncrease | src/batch.rs:210-263 | over whole runs the numbers of a device's files strictly increase, so no file name comes up twice |
| BatchSteps.PutExactly | src/batch.rs:237-263 | where a pushed record ends and which files it opens: none if it fits, one at a file boundary, another for a record longer than a file |
| BatchSteps.WaitsExactly | src/batch.rs:381-399 | after a push nothing waits exactly when the record filled the batch; otherwise it waits behind what was waiting |
| BatchSteps.CommitsExactly | src/batch.rs:381-399 | a record that leaves the batch unfilled commits exactly what waits at a file boundary; otherwise stores and watermarks stay |
| BatchSteps.FullCommits | src/batch.rs:395-413 | a record that fills the batch commits it, itself included, with the watermark at its last byte |
| BatchSteps.FinishExactly | src/batch.rs:416-420 | after finishing nothing waits, the file is closed with its watermark at its end, and the next number is open and empty |
| BatchSteps.EndsExactly | src/batch.rs:96-109 | a commit takes, for each file with a record in the batch, the highest end of one |
| BatchSteps.AdvancesExactly | src/batch.rs:96-109 | the ledger step goes through exactly when every file with a record in the batch is registered and has one ending at or past its watermark |
| BatchPipelines.BatchPipeline.PushRecord | src/batch.rs:381-399 | barrier, append, and commit of a full batch, in place; the tiling invariant holds afterwards |
| BatchPipelines.BatchPipeline.FlushAll | src/batch.rs:402-413 | pending is emptied, the stores become those of the batch, then the watermark moves |
| BatchPipelines.BatchPipeline.FinishAll | src/batch.rs:416-420 | commit, then the file is closed and nothing is pending |
| BatchPipelines.BatchPipeline.constructor | src/batch.rs:331-350 | a new file is registered and open at watermark 0 |
| BatchPipelines.BatchPipeline.OpenOrRecover | src/batch.rs:285-314 | the newest open file continues at its watermark with nothing pending, a device without one gets a new file; the tiling invariant holds whenever the ledger has at most one open file for the device, as every run leaves it |
| BatchPipelines.HotFileWriter.Append | src/batch.rs:237-248 | a record that does not fit goes to a new file; its place is returned with a 32-bit offset |
| BatchPipelines.HotFileWriter.Rotate | src/batch.rs:251-263 | the old file is sealed in the ledger, the next number and a fresh id are opened at offset 0 |
| BatchPipelines.StageLmdb | src/batch.rs:80-93 | one matcher over the batch leaves the stores of the specified batch, epoch committed first |
| BatchPipelines.StageSqlite | src/batch.rs:96-109 | the watermark of every file of the batch moves to the batch's last byte there; refused exactly when some watermark would go back |
| BatchPipelines.Ledger.AdvanceWatermark | src/ledger.rs:207-220 | a watermark moves forward or the update is refused |
| BatchPipelines.Ledger.OpenFileForDev | src/ledger.rs:231-247 | the open file of the device with the highest id, or none is open |
| Codec.LexIsNumeric | src/db.rs:111-120 | between equally long byte strings, byte order is numeric order |
| Codec.PackOrder | src/db.rs:153-230 | byte order of big-endian records is the order of their field tuples, and equal bytes mean equal fields |
| Codec.UnpackPack | src/db.rs:122-149 | fields within their widths are read back |
| Codec.BeTruncates | src/db.rs:181-187 | a field keeps its low bytes only |
| Codec.PutNum | src/db.rs:105-120 | appends the big-endian bytes of one number |
| Codec.Cursor.TakeNum | src/db.rs:122-149 | reads one number and advances, or fails and stays, exactly by whether the bytes are there |
| KeyCodec.PendingByteOrder | src/db.rs:164-170 | byte order of QR_PENDING keys is (connection, incarnation, end) |
| KeyCodec.PendingRange | src/qr.rs:799-817 | the byte range from the ten-byte prefix to the limit key is exactly this connection, this incarnation, end at or below the limit |
| KeyCodec.ConnRange | src/qr.rs:848-858 | the byte range of the count is exactly one connection, all incarnations |
| KeyCodec.TtlByteOrder | src/db.rs:217-222 | byte order of PENDING_TTL keys is opening time, then connection |
| KeyCodec.TtlRange | src/anomaly.rs:82-86 | the byte range of the scan is exactly the entries opened at or before its bound |
| KeyCodec.WindowRange | src/query.rs:786-794 | the bounds of RECORD_TS and QR_TIME are exactly the time window |
| KeyCodec.ConnWindowRange | src/query.rs:773-783 | the bounds of CONN_QR are exactly one connection's time window |
| KeyCodec.PendingTruncates | src/db.rs:181-187 | an end past 48 bits has the key of its low 48 bits |
| KeyCodec.EBytesInjective | src/db.rs:153-230 | within one database distinct keys are distinct bytes |
| RowCodec.ConnRoundTrip | src/connection.rs:172-323 | a connection state takes 191 bytes and is read back unchanged |
| RowCodec.ConnReadBack | src/connection.rs:234-323 | 191 bytes re-encode to themselves exactly when the reserved bytes are zero |
| RowLayout.ConnStoredAt | src/connection.rs:172-231 | the byte offset of every field of a stored connection state |
| RowLayout.PairStoredAt | src/db.rs:363-380 | the byte offset of every fixed field of a stored pair |
| RowCodec.ToBytes | src/connection.rs:172-231 | the buffer filled field by field holds the fixed layout |
| RowCodec.PairRoundTrip | src/db.rs:363-439 | a pair is read back unchanged exactly when its index lists have at most 65535 entries and its keys are below 4 GiB |
| RowCodec.EncodePair | src/db.rs:363-389 | header, both lists and both length-prefixed keys in order |
| RowCodec.DecodePair | src/db.rs:391-439 | the cursor walk succeeds exactly on a complete encoding with nothing left over |
| RowCodec.FixedDecodes | src/db.rs:244-336 | a fixed-length value decodes to a tuple exactly when it is that tuple's encoding |
| Calendar.FromDaysIsValid | src/util.rs:56-68 | for every day the result is a date of the calendar, and the inverse formula gives the day back |
| Calendar.ToDaysIsValid | src/util.rs:56-68 | for every date of the calendar, converting its day number gives the date back |
| Calendar.NextDay | src/util.rs:56-68 | day z + 1 is the calendar successor of day z |
| Calendar.EpochDay | src/util.rs:56-68 | day 0 is 1970-01-01 |
| Calendar.DaysFollowDates | src/util.rs:56-68 | later dates have larger day numbers |
| Calendar.StampIsExact | src/util.rs:32-53 | hour, minute, second and nanoseconds are in range and name exactly the instant |

## Left out

- QrReadback.AnswerReadsBackExactly: assumes fields within their machine types and keys below 4 GiB; a list of more than 65535 entries is shown not to read back as the row, not to be refused, since its bytes may happen to decode to another row.
- QrOnce.OnceExactly: asks that no batch brings a place whose request a frozen epoch has ended; the places of a run never repeat (`IndexesAreDistinct`) but for replays.
- QrLiveRuns.LiveInvAlways: assumes that no client packet activates a stream with payload past the consumed number and that stream numbers stay below 2^48, because the first packet of a stream does not move the head past its payload (`CleanExactly` shows both are needed); and that payload records of one direction of a connection have different places and times, because the deadline key holds only time and connection. Nothing is asked of other records.
- QrRequests.OpensExactly: asks that the record's place is new: no row of its index, no pending entry at its end and no deadline at its time; a place that is not new is a replay (`ReplayFromBetween`).
- QrGenerations.ResetExactly: the endings are stated on consistent stores, those of `LiveInvAlways`; so are those of `ClientGeneration`, `ServerGeneration` and the answer half of `AnswersExactly`. The SYN's payload is below 2^31 bytes.
- QuerySessions.QuerySession.ScanQr: the window is stated for a cursor inside the query's range; with another one the code continues from that cursor and delivers rows outside the window.
- Batching.FileNumbersIncrease: the numbers of the files already in the ledger ascend; the number of the first file is the caller's.
- QrBatchReplay.BatchReplayIsIdleExactly: assumes that records of the batch with one forward key share the backward key, because colliding hashes can let two directions trade connections between the passes; and fewer than 65536 packets with SYN in the batch, because the incarnation is a 16-bit counter that more could bring back to its old value.
- ReassemblyCap.ConnCounterBound: holds within one eviction window, because a window change restarts the streak while the overwrite leak stays.
- Batching.IndexesAreDistinct: assumes files of at most 4 GiB; beyond that the 32-bit cast of the offset is lossy (`SameIdxExactly`).
- Calendar.FromDaysIsValid: is over unbounded integers; overflow of the day number near the ends of a 64-bit integer is not modelled.
- Reassemblers.Reassembler.PlaceChunk: offsets and lengths are unbounded integers; a sum that exceeds 64 bits is not modelled. The default for an L2 cap of 0 is set by the caller.
- QrMatchers.QrMatcher.Ingest: request-key extraction and fingerprinting (src/meta.rs) and both hashes are arbitrary function parameters, so collisions are allowed; audit and archive events are not kept; debug assertions on 48-bit numbers are off and packet counters wrap, as in a release build.
- TtlScanner.ScanPendingTtl: audit events are not kept, and the background thread that calls it is not modelled.
- QuerySessions.QuerySession.StreamQrs: the sink is the sequence of rows sent, and sending does not fail.
- BatchPipelines.BatchPipeline.PushRecord: requires files of at most 4 GiB; beyond that the watermark would be computed from truncated offsets and could be refused.
- BatchPipelines.BatchPipeline.FlushAll: a failing commit is a stop followed by recovery, not an error return; file contents, file-system errors and a stop between file creation and its ledger row are left out.
- Archives.FrozenAreCovered: its runs do not contain a rotation that fails after it created the next epoch directory and is followed by a restart; that step breaks the coverage unless the old boundary still covers (`OvertakenExactly`, `OvertakenFails`).
- LMDB, SQLite and Zenoh calls, threads and logging: stores are maps, a transaction is an all-or-nothing map update, crashes happen at commit points.
- Decryption, framing, WAL record encoding and `src/walscan.rs`: wrappers over libraries that are not part of this model.
- FNV-1a itself, dotted addresses and the text form of timestamps: easy members that no theorem needs.
- `src/export.rs`, `src/config.rs`, `src/main.rs`, `src/id.rs` and the SQL text of `src/ledger.rs`: plumbing.
- Quarantine by number of pending requests and the status ABORTED_RESOURCE: described in the documents, not present in the matcher.
- Sessions routed by a connection's own first and last time (`open_for_conn`, src/query.rs:170-203): the pruning itself is modelled for any window.
- Refill timers and gap queries of `src/ingest/zenoh.rs`: only the rotation is modelled.
