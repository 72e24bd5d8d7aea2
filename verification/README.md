# OrcMesh: verified models of its algorithms

OrcMesh is a desktop console for Meshtastic radios. Under its windows sit algorithms that have to be
right on every run: a write pipeline that must not lose packets, a reconnect protocol between two
threads, a tile server with a cache, a band scanner, LoRa time-on-air arithmetic, and two stream
cutters. This project models them in Dafny and proves what they promise.

`dafny verify dfyconfig.toml` checks everything.

## Layout

| file | models |
|---|---|
| `Reconnect.dfy`, `ReconnectProtocol.dfy` | supervisor and worker handlers; both joined by two queues, a timer and any environment |
| `NodeTable.dfy`, `MonitorDatabase.dfy`, `MonitorStore.dfy`, `MonitorTheorems.dfy`, `MonitorRows.dfy`, `BlockedBackup.dfy` | the node upsert; the monitor database as a value with its log; queue, batches, savepoints, COMMIT, checkpoints, backups, prunes, shutdown; what is then in each row |
| `PacketDedup.dfy`, `NodeCounters.dfy` | the deduplication cache; node counters through memory, queue, table and restarts |
| `Schema.dfy` | migrations cut short between any two statements |
| `LruCache.dfy`, `TileServer.dfy`, `TileAnswers.dfy`, `SharedStems.dfy`, `TileThreads.dfy` | the tile cache; pack resolution and rendering; what any history of requests leaves to see; the exact condition for names; renders that interleave |
| `Ppm.dfy`, `Png.dfy` | the P6 parser, empty renders, the PNG writer and an independent PNG reader |
| `BandScan.dfy`, `BandMemory.dfy` | row merging, sweep assembly, the accumulated band picture |
| `LoraAirtime.dfy`, `PacketIntel.dfy` | time on air, and per-node traffic profiles |
| `IqRecorder.dfy`, `LineWriter.dfy` | recording and replaying IQ bytes, cutting text into lines |
| `Prelude.dfy` | options, results, bytes and the Python string operations used |

Objects the program updates in place are classes whose methods are proved equal to functions on
values (`Next`, `Flushed`, `Serve`, `Updated`, `Opened`, ...). The theorems are then about whole runs of
those functions. What the world decides (lock errors, COMMIT, renders, crashes, radio events, which
thread runs next) is a parameter, so every theorem holds for all of it.

## Where the code falls short of what it seems to promise

The model follows the code; each entry is a lemma below.

- A BLE scan taken during a download sets the worker to DISCONNECTED while its interface lives on, so the
  SYNCING state no longer shows that the reconnect is carried; the interface still does. The state can be relied
  on in exactly the runs in which no scan succeeds during a download that nothing but the state shows
  (`SyncingCarriesIff`, and a run that gets there in `ScanHidesReconnect`). The GUI disables its Scan button
  from a copy of the state that can lag.
- The supervisor class by itself abandons a reconnect when its timer fires for a transport it does not know
  (`UnsupportedAbandonsExactly`). The program never sets one: the three connect handlers of the main window do.
- A `BEGIN` that fails loses its whole batch and no counter says so (`BadBeginLosesBatch`).
- A backup checkpoints the write-ahead log and copies the main file without looking at the checkpoint's
  answer. When another connection's reader blocks it, the copy lacks what is still in the log
  (`BackupCompleteIff`, and a run in `BlockedCheckpointLosesPacket`).
- Arrival order decides a row exactly when its newest snapshots disagree (`OrderDoesNotMatter`, `OrderMatters`).
- After a restart whose rows could not be read, a row can differ from the last committed snapshot exactly
  when some row had counted anything (`UnreadFaithfulIff`), and a node's transports or kinds can exceed its
  packets exactly when some row had counted one (`UnreadSoundIff`, and a run in `MiscountedRow`).
- Tile packs found in two directories may share a stem, and the cache key holds only the stem. A candidate is
  masked when an earlier one has its name and fewer other names than the cache has room came between
  (`MaskedIff`). The cache is invisible exactly when every masked candidate of a tile that can be requested is
  harmless (`TransparentIff`, for any names and any capacity). With room for every pack, or with renders on
  several threads, that means: candidates under one name have one archive, and the last one's name is its own
  (`TransparentIffKeysTellApart`, `InterleavingIff`). Otherwise some renderer's tiles are not shown
  (`MaskedIsMissed`) or "No pack rendered" is raised (`LastNameClash`).
- A reading of a band scan measured at the very top of the span can fall outside the merged array, when rounding its
  row's start and the array's length go different ways (`ReadingHasBinIff`, and two rows in `TopReadingLost`).
- A column missing behind an already raised schema version stays missing (`CompletesIffConsistent`). The
  docstring of `MigrationError` says a failing migration is rolled back; Python's sqlite3 opens no
  transaction before DDL, so each ALTER commits on its own.
- A write boundary inside an escape sequence puts its halves on the screen: the lines shown are those of the whole
  text exactly when no sequence lies across a boundary (`StreamingIsBatchIff`, `BoundaryNeverShowsIff`).
- The introduction of `lora_airtime.py` says about 29 ms for 16 bytes on LONG_FAST; the formula gives 288.768 ms
  (`LongFastSixteenBytes`).
- At spreading factor 1, which no LoRa modem has, the low-data-rate switch makes the block count negative
  and the code takes 0: half the bandwidth then costs less than twice the time (`HalvingDoublesIff`,
  `SpreadingOneException`).

## Model

| member | source | states |
|---|---|---|
| `Reconnect.ConnectionSupervisor.OnConnected` | src/meshchat/services/connection_supervisor.py:107-112 | a connected signal stops the timer, ends the sequence and remembers the connection; nothing is issued |
| `Reconnect.ConnectionSupervisor.OnError` | src/meshchat/services/connection_supervisor.py:120-133 | an error continues a running sequence with the next attempt, or a lost connection starts one if there was a connection and a profile; only then is a command issued and the timer armed |
| `Reconnect.ConnectionSupervisor.ScheduleRetry` | src/meshchat/services/connection_supervisor.py:140-147 | the worker is told to show RECONNECTING and the timer gets the table's delay, its last entry once exhausted |
| `Reconnect.ConnectionSupervisor.AttemptReconnect` | src/meshchat/services/connection_supervisor.py:150-160 | a due timer issues the profile's connect command while a sequence is active; an unknown transport issues none |
| `Reconnect.ConnectionSupervisor.Cancel` | src/meshchat/services/connection_supervisor.py:75-79 | cancel disarms the timer and forgets both the sequence and the connection |
| `Reconnect.ConnectFor` | src/meshchat/services/connection_supervisor.py:150-160 | the three known transports, and no other, yield one command: the connect of that transport with the profile's own arguments |
| `Reconnect.MeshtasticWorker.Connect` | src/meshchat/controllers/meshtastic_controller.py:610-802 | a connect slot ignores busy states, rejects bad arguments with the old interface untouched, else closes it and ends in SYNCING with a new interface or DISCONNECTED with one error |
| `Reconnect.ConnectSucceedsIff` | src/meshchat/controllers/meshtastic_controller.py:610-790 | when its constructor succeeds, a connect taken DISCONNECTED, FAILED or RECONNECTING ends in SYNCING with the new interface if and only if there is something to call: a TCP host neither blank nor a URL with a port from 1 to 65535, a serial port not blank, any BLE address; otherwise nothing changes but one error of the right code |
| `Reconnect.ConnectOtherwise` | src/meshchat/controllers/meshtastic_controller.py:610-802 | in any other state a connect is ignored; when its constructor fails the old interface is gone, the worker DISCONNECTED, and one error says so, never a lost connection |
| `Reconnect.MeshtasticWorker.DisconnectRadio` | src/meshchat/controllers/meshtastic_controller.py:804-814 | disconnect closes the interface and reports a user disconnect, unless already DISCONNECTED |
| `Reconnect.DisconnectTaken` | src/meshchat/controllers/meshtastic_controller.py:804-814 | a disconnect leaves the worker DISCONNECTED without an interface and signals it once, unless it was already |
| `Reconnect.ActionTaken` | src/meshchat/controllers/meshtastic_controller.py:820-876 | a slot that uses the connection changes nothing in the worker and reports SEND_FAILED whenever there is none |
| `Reconnect.MeshtasticWorker.EnterReconnectingState` | src/meshchat/controllers/meshtastic_controller.py:1145-1156 | RECONNECTING is shown only when no connection is under way, up, or already re-established |
| `Reconnect.MeshtasticWorker.OnConnectionEstablished` | src/meshchat/controllers/meshtastic_controller.py:426-456 | only the current interface's callback counts: CONNECTED first, later errors of the handler after it |
| `Reconnect.MeshtasticWorker.OnConnectionLost` | src/meshchat/controllers/meshtastic_controller.py:458-487 | only the current interface's loss counts: FAILED, a disconnect signal, then CONNECTION_LOST, and the interface is kept |
| `ReconnectProtocol.RunConsistent` | src/meshchat/services/connection_supervisor.py:106-160 | in every run: an armed timer means an active sequence with its attempt's delay, active means a remembered connection and a profile, and a CONNECTED worker has a connected signal behind every loss still in flight |
| `ReconnectProtocol.ReconnectNeverAbandoned` | src/meshchat/services/connection_supervisor.py:106-160 | in every run the main window can cause, an active sequence has its timer armed, a connect queued that no disconnect follows, a connected or error signal in flight, or a downloading interface that has neither reported nor been lost |
| `ReconnectProtocol.ProfileSupported` | src/meshchat/ui/main_window.py:1314-1324 | profiles come from the three connect handlers, so the supervisor's transport is always one of the three |
| `ReconnectProtocol.SyncingCarriesIff` | src/meshchat/controllers/meshtastic_controller.py:426-487 | "the worker is SYNCING" may stand for the interface in every state of a run if and only if the run takes no successful scan during a download that neither timer, queued connect nor signal shows |
| `ReconnectProtocol.ConnectTaken` | src/meshchat/controllers/meshtastic_controller.py:610-802 | a connect command taken during a retry always leaves a signal in flight or a download running, also after a soft reboot has already reconnected |
| `ReconnectProtocol.UnsupportedAbandonsExactly` | src/meshchat/services/connection_supervisor.py:150-160 | for the class alone: a due timer abandons the sequence if and only if the transport is unsupported and nothing else carries it |
| `ReconnectProtocol.ScanAbandonsExactly` | src/meshchat/controllers/meshtastic_controller.py:575-607 | a scan during a download hides the sequence from the worker's state if and only if it succeeds and nothing else carries the sequence; the interface still waits |
| `ReconnectProtocol.ScanHidesReconnect` | src/meshchat/controllers/meshtastic_controller.py:575-607 | a run of the program that gets there: a scan delays the reconnect, and another is queued behind it |
| `ReconnectProtocol.UnsupportedProfileAbandons` | src/meshchat/services/connection_supervisor.py:150-160 | for the class alone: every unsupported transport has a run that abandons a reconnect |
| `ReconnectProtocol.ConnectionComesUp` | src/meshchat/controllers/meshtastic_controller.py:426-456 | every profile of the three transports that names something to call has a run that ends CONNECTED with the supervisor knowing it |
| `ReconnectProtocol.TcpComesUp` | src/meshchat/controllers/meshtastic_controller.py:693-713 | one by TCP |
| `ReconnectProtocol.ConnectionEnds` | src/meshchat/controllers/meshtastic_controller.py:458-487 | CONNECTED ends only with the loss of its own interface, a disconnect or a scan taken |
| `ReconnectProtocol.StaleCallbackIgnored` | src/meshchat/controllers/meshtastic_controller.py:426-487 | a radio callback changes nothing if and only if it is of an interface the worker does not hold |
| `ReconnectProtocol.CancelIsFinal` | src/meshchat/services/connection_supervisor.py:75-79 | after a cancel no reconnect is issued until a connected signal and then a lost connection were delivered, both after it |
| `ReconnectProtocol.RetryBegins` | src/meshchat/services/connection_supervisor.py:120-133 | a retry sequence begins with a delivered lost connection, at attempt 0 |
| `ReconnectProtocol.AttemptNumber` | src/meshchat/services/connection_supervisor.py:120-133 | the attempt number is the number of errors delivered since the sequence began |
| `Reconnect.BackoffTable` | src/meshchat/services/connection_supervisor.py:26-26 | the delays are 2, 5, 15 and 30 seconds, then 60 each time |
| `ReconnectProtocol.BackoffFollowsFailures` | src/meshchat/services/connection_supervisor.py:140-147 | within a sequence delays follow the table by failures so far, never shrink, and stay between 2 s and 60 s |
| `NodeTable.RowFromNewest` | src/meshchat/services/monitor_store.py:759-799 | the last_* group and last_heard of a row come together from one newest snapshot |
| `NodeTable.RowCountersMaximum` | src/meshchat/services/monitor_store.py:772-799 | each counter is the maximum over the snapshots, reached by one of them |
| `NodeTable.RowDescribes` | src/meshchat/services/monitor_store.py:751-758 | each name of a row is the last one any snapshot carried, the id is the last snapshot's, first_seen the first's |
| `NodeTable.OrderDoesNotMatter` | src/meshchat/services/monitor_store.py:745-809 | every arrival order of snapshots whose newest agree leaves the same last_heard, counters and group |
| `NodeTable.OrderMatters` | src/meshchat/services/monitor_store.py:776-799 | and if the newest disagree, some arrival order leaves another row |
| `NodeTable.DistinctTimesAgree` | src/meshchat/services/monitor_store.py:776-799 | distinct times, one of them known, are enough for agreement |
| `MonitorStore.MonitorStore.Enqueue` | src/meshchat/services/monitor_store.py:173-194 | an item is appended while there is room, else it is dropped and counted |
| `MonitorStore.MonitorStore.WriteItemWithRetry` | src/meshchat/services/monitor_store.py:558-593 | an item takes effect exactly when one of its four attempts succeeds after retryable ones only; otherwise it leaves no trace and is counted failed |
| `MonitorStore.MonitorStore.FlushData` | src/meshchat/services/monitor_store.py:595-632 | one transaction: the committed items in order, or nothing; a failed COMMIT also counts every item that had succeeded as failed |
| `MonitorStore.MonitorStore.Flush` | src/meshchat/services/monitor_store.py:595-657 | data first, then backups of the committed file, then prunes; the batch is empty afterwards |
| `MonitorStore.MonitorStore.WriterTurn` | src/meshchat/services/monitor_store.py:513-538 | a turn of the loop: leave on stop with an empty queue or on the sentinel, flush when idle or full, else take one item |
| `MonitorTheorems.TakesHundred` | src/meshchat/services/monitor_store.py:513-532 | a turn that takes an item flushes if and only if it is the hundredth of the batch |
| `MonitorTheorems.RunKeepsInv` | src/meshchat/services/monitor_store.py:173-217 | over every run the queue and batch hold exactly the accepted items without a fate, the failure counter counts one fate, and the file is the replay of what was committed |
| `MonitorTheorems.EveryItemAccounted` | src/meshchat/services/monitor_store.py:173-217 | every data item offered is counted once: dropped, committed, failed, in the batch, queued, or vanished, and none vanished unless a BEGIN failed |
| `MonitorTheorems.BatchingInvisible` | src/meshchat/services/monitor_store.py:513-632 | without prunes the file is the fold of the committed items in queue order, however the queue was cut |
| `MonitorTheorems.PrunesTouchHistoryOnly` | src/meshchat/services/monitor_store.py:377-441 | with prunes anywhere, nodes, messages, sessions and settings are still that fold and history only loses rows |
| `MonitorStore.MonitorStore.TakeBackups` | src/meshchat/services/monitor_store.py:634-670 | each backup writes back as much of the log as its checkpoint is let, then copies the main file, whatever the checkpoint said |
| `MonitorTheorems.BackupCompleteIff` | src/meshchat/services/monitor_store.py:634-670 | whatever log was found when the store was opened: a copy is everything committed by then, which includes every committed item queued before its own request, but the transactions still in the log; it lacks none if and only if the checkpoint wrote back as many as were waiting |
| `MonitorTheorems.BackupIsComplete` | src/meshchat/services/monitor_store.py:659-670 | a copy whose checkpoint went through is the fold of the committed items up to its request and beyond, but for pruned history |
| `MonitorTheorems.BackupBetween` | src/meshchat/services/monitor_store.py:595-657 | a backup is taken between its batch's data and its prunes: after a full checkpoint the copy holds the one and not the other |
| `MonitorTheorems.DiskHoldsDatabase` | src/meshchat/services/monitor_store.py:595-670 | in every run main file and log together are the committed database |
| `BlockedBackup.BlockedCheckpointLosesPacket` | src/meshchat/services/monitor_store.py:659-670 | a run in which the backup succeeds, its checkpoint is blocked, and a packet committed before it is not in the copy |
| `MonitorDatabase.LoggedCheckpointed` | src/meshchat/services/monitor_store.py:659-670 | a checkpoint moves the line between main file and log, and empties the log if and only if it reaches the end |
| `MonitorTheorems.ShutdownDrains` | src/meshchat/services/monitor_store.py:443-450 | when the writer has left its loop, everything accepted before the stop has met its fate |
| `MonitorTheorems.WriterLeaves` | src/meshchat/services/monitor_store.py:513-538 | after a stop the writer leaves within one turn more than the items ahead of the sentinel, those still offered before it is put included; whatever is offered behind it |
| `MonitorTheorems.StopAloneIsNotEnough` | src/meshchat/services/monitor_store.py:443-446 | without the sentinel one offer a turn keeps the loop going for any number of turns |
| `MonitorTheorems.BadBeginLosesBatch` | src/meshchat/services/monitor_store.py:608-632 | a failing BEGIN loses every data item of the batch and changes no counter |
| `MonitorDatabase.ReplayWithoutPrunes` | src/meshchat/services/monitor_store.py:540-556 | replaying effects without prunes is the plain fold of the written items |
| `MonitorDatabase.KeepFromWithin` | src/meshchat/services/monitor_store.py:415-441 | pruning keeps exactly the rows at or after the cutoff |
| `MonitorDatabase.PruneTrimsHistory` | src/meshchat/services/monitor_store.py:415-441 | a prune keeps every row of packets, positions and telemetry from the cutoff on as often as it was there, no other, and touches no other table |
| `MonitorRows.MessageFollowsUpdates` | src/meshchat/services/monitor_store.py:825-833 | a stored message keeps its place and text, has the status of the last update with its id and the packet id of the last such update that carries one |
| `MonitorRows.InsertedFollowsUpdates` | src/meshchat/services/monitor_store.py:811-833 | a message the first item with its id inserts follows the updates behind it |
| `MonitorRows.StoredIds` | src/meshchat/services/monitor_store.py:811-823 | the messages there are: those stored before and those inserted, no local id twice |
| `MonitorRows.StoredMessageAfterRun` | src/meshchat/services/monitor_store.py:595-632 | after any run, whatever failed, was dropped or pruned, a message stored at the opening follows every committed update that names it |
| `MonitorRows.InsertedMessageAfterRun` | src/meshchat/services/monitor_store.py:595-632 | and one inserted by a committed item every update committed behind it |
| `MonitorRows.SettingIsLastWritten` | src/meshchat/services/monitor_store.py:835-840 | a setting has the value last written under its key |
| `MonitorRows.SessionIsLastWritten` | src/meshchat/services/monitor_store.py:703-714 | and a session the content last written |
| `MonitorRows.NodeIsRowOfSnapshots` | src/meshchat/services/monitor_store.py:745-809 | a node's row is what its own snapshots leave behind the row it had, and no other's |
| `MonitorRows.HistoryIsAppended` | src/meshchat/services/monitor_store.py:672-744 | packets, positions and telemetry grow by their own rows in order |
| `PacketDedup.DedupCache.PruneDedup` | src/meshchat/services/packet_ingestor.py:263-272 | stopping at the first unexpired entry removes what a full scan would |
| `PacketDedup.DedupCache.IsDuplicate` | src/meshchat/services/packet_ingestor.py:250-261 | a key is a duplicate exactly when an unexpired entry has it; otherwise it is stored, and past 5,000 entries the oldest 2,500 go |
| `PacketDedup.CacheBounded` | src/meshchat/services/packet_ingestor.py:250-272 | over every run the cache stays ordered, distinct and within 5,000 entries |
| `PacketDedup.DuplicateRejected` | src/meshchat/services/packet_ingestor.py:250-261 | a key accepted at t is rejected before t + 120 s while at most 2,500 newer keys were accepted |
| `PacketDedup.AcceptedIff` | src/meshchat/services/packet_ingestor.py:250-272 | over every run a key is accepted if and only if each earlier acceptance of it has expired or was thrown out by an overflow with more than 2,500 newer keys |
| `PacketDedup.ExpiredAccepted` | src/meshchat/services/packet_ingestor.py:263-272 | a key all of whose acceptances are 120 s old is accepted again |
| `PacketDedup.EvictionExact` | src/meshchat/services/packet_ingestor.py:250-261 | an overflowing insertion keeps an entry if and only if at most 2,500 keys are newer, the inserted one included |
| `NodeCounters.PacketIngestor.UpdateNode` | src/meshchat/services/packet_ingestor.py:365-422 | one packet: one more in the total, at most one by transport and one by kind, the last_* group replaced, and the new snapshot offered to the store |
| `NodeCounters.PacketIngestor.SeedFromStore` | src/meshchat/services/packet_ingestor.py:672-723 | seeding takes MAX on counters and fills gaps elsewhere, row by row |
| `NodeCounters.SeedCounters` | src/meshchat/services/packet_ingestor.py:672-723 | after seeding every row's node is known with the column-wise maximum, and no other node changed |
| `NodeCounters.CommitKeepsInv` | src/meshchat/services/monitor_store.py:772-799 | MAX column by column leaves exactly the snapshot's counters, because counters only grow from table to queue to memory |
| `NodeCounters.CountersSurvive` | src/meshchat/services/packet_ingestor.py:365-422 | over every run of packets, drops, failures, commits and readable restarts, each persisted counter is that of the last committed snapshot and both sums hold in memory and table |
| `NodeCounters.MemoryCounts` | src/meshchat/services/packet_ingestor.py:365-405 | within a session memory counts each node's packets: in all, on ports 1, 3 and 67, by radio and over MQTT |
| `NodeCounters.MemoryNames` | src/meshchat/services/packet_ingestor.py:407-416 | within a session a node's names in memory are the last non-empty ones told of it |
| `NodeCounters.HeardDescribes` | src/meshchat/services/packet_ingestor.py:365-418 | a packet sets last_heard and the last_* group, leaves first_seen, and gives an id only to a node without one |
| `NodeCounters.SeedFillsGaps` | src/meshchat/services/packet_ingestor.py:690-720 | seeding keeps what is known and fills what is missing; a row's own id and names win |
| `NodeCounters.NeverDecreases` | src/meshchat/services/monitor_store.py:745-809 | whatever restarts read back, no persisted counter decreases and no row disappears |
| `NodeCounters.UnreadFaithfulIff` | src/meshchat/services/monitor_store.py:301-309 | after a restart that read nothing, every row stays that of its last committed snapshot, whatever follows, if and only if no row had counted anything |
| `NodeCounters.UnreadSoundIff` | src/meshchat/services/monitor_store.py:301-309 | after such a restart both sums hold, whatever follows, if and only if no row had counted a transport or a kind |
| `NodeCounters.MiscountedRow` | src/meshchat/services/monitor_store.py:301-309 | a run from an empty store that ends with one packet counted once by RF and once by MQTT |
| `Schema.Connection.Migrate` | src/meshchat/database/schema.py:178-211 | the columns missing when a migration begins are added one statement at a time, then the version is raised |
| `Schema.Connection.ApplySchema` | src/meshchat/database/schema.py:225-243 | tables, then every migration newer than the version found, then indexes; the first error or crash stops the open |
| `Schema.OpenKeepsConsistent` | src/meshchat/database/schema.py:274-298 | wherever an open stops, nothing is lost and the version has passed no migration with a column missing |
| `Schema.CompletesIffConsistent` | src/meshchat/database/schema.py:178-222 | a full open completes a database if and only if its version has passed no migration with a column missing |
| `Schema.MigrationsConverge` | src/meshchat/database/schema.py:274-298 | after any number of opens cut short anywhere, the next full open succeeds with every table and column and loses nothing |
| `Schema.MeshchatIsSound` | src/meshchat/database/schema.py:178-222 | the two migrations are in ascending order, add columns the full tables declare, and no column twice |
| `Schema.MeshchatConverges` | src/meshchat/database/schema.py:217-243 | a first install or a pre-migration database ends at version 2 with all eleven added columns, by name |
| `LruCache.TileCache.Get` | src/meshchat/services/orcmaps.py:883-891 | a hit moves the key to the recent end and counts a hit; a miss changes nothing but the miss count |
| `LruCache.TileCache.Put` | src/meshchat/services/orcmaps.py:893-898 | the value replaces any old one at the recent end, and the oldest entries beyond the capacity go |
| `LruCache.HoldsMostRecent` | src/meshchat/services/orcmaps.py:873-902 | after any operations the keys held are exactly the most recently used ones since the last clear, as many as fit, in order of use |
| `LruCache.LookupAfter` | src/meshchat/services/orcmaps.py:883-898 | a lookup hits exactly those keys and gives what was last put there |
| `TileServer.PackFor` | src/meshchat/services/orcmaps.py:992-1009 | pack_for is the first entry of packs_for, or none when that is empty |
| `TileServer.TilesMeet` | src/meshchat/services/orcmaps.py:345-350 | the tiles of a zoom level meet edge to edge and span all longitudes |
| `TileServer.TileWidth` | src/meshchat/services/orcmaps.py:345-350 | all tiles of a level are equally wide, 360 degrees over 2^z |
| `TileServer.CoversIff` | src/meshchat/services/orcmaps.py:114-127 | a pack covers a tile if and only if it has its zoom and, when it has bounds, the tile and the bounds have a place in common |
| `TileServer.ContainsIff` | src/meshchat/services/orcmaps.py:129-146 | a pack contains a tile if and only if it has its zoom and its bounds hold every place of the tile |
| `TileServer.ContainsImpliesCovers` | src/meshchat/services/orcmaps.py:114-146 | a pack that contains a tile covers it |
| `TileServer.CandidatesComplete` | src/meshchat/services/orcmaps.py:1011-1017 | every covering pack is a candidate once, those that contain the tile first |
| `TileServer.CandidatesMeet` | src/meshchat/services/orcmaps.py:1011-1017 | the candidates are the packs that have a place of the tile, once each, those that hold all of it first |
| `TileServer.CandidatesInOrder` | src/meshchat/services/orcmaps.py:1011-1017 | and within each of the two groups the packs' own order, that of their priority, is kept |
| `TileServer.Server.SetStyle` | src/meshchat/services/orcmaps.py:984-988 | a new style empties the cache; the same one changes nothing |
| `TileServer.Server.Render` | src/meshchat/services/orcmaps.py:1019-1051 | the loop over candidates: result and cache are those of the value-level serve function |
| `TileServer.RuleShowsFirst` | src/meshchat/services/orcmaps.py:1019-1051 | the cache-free rule shows the first candidate that draws something, else the last, failures included |
| `TileAnswers.HistoryNeverShows` | src/meshchat/services/orcmaps.py:984-1051 | for any packs, names, renderer and capacity, a server answers every request as one just started in its current style would, whatever was asked before |
| `TileAnswers.MaskedIff` | src/meshchat/services/orcmaps.py:883-898 | a candidate is met with an earlier one's mark if and only if an earlier one has its name and fewer other names than the capacity came between |
| `TileAnswers.CacheIsTransparent` | src/meshchat/services/orcmaps.py:1019-1051 | when keys tell the candidates of every tile the handler lets through apart: after any requests and style changes, with any capacity, render gives what the cache-free rule gives in the current style, and never runs out of candidates |
| `TileAnswers.NotFoundIff` | src/meshchat/services/orcmaps.py:1084-1110 | after any requests the handler answers 404 if and only if the numbers name no tile of zoom 0 to 31 or no pack has a place of it; any other tile is delivered, or fails, as the cache-free rule says |
| `TileServer.ServerUsesCache` | src/meshchat/services/orcmaps.py:984-1051 | after any requests the cache is what exactly their gets, puts and clears leave, so it holds the most recently used of their keys, as many as fit |
| `TileAnswers.ServedTileIsAnImage` | src/meshchat/services/orcmaps.py:1019-1051 | every tile served, after any requests, reads back as the image that one candidate's renderer drew |
| `TileAnswers.DistinctStemsTellApart` | src/meshchat/services/orcmaps.py:1031-1031 | packs with distinct stems have cache keys that tell candidates apart |
| `SharedStems.TransparentIff` | src/meshchat/services/orcmaps.py:1030-1046 | with the program's own emptiness test and converter, for any names and any capacity: the cache is invisible for every renderer, history and tile that can be requested if and only if every masked candidate is harmless, that is not the last and tried under its archive before or again in time |
| `SharedStems.TellsApartWithRoom` | src/meshchat/services/orcmaps.py:1030-1046 | with room for a tile's candidates that says: candidates under one name have one archive and the last one's name is its own |
| `SharedStems.TransparentIffKeysTellApart` | src/meshchat/services/orcmaps.py:1030-1046 | so for a server with room for all its packs the cache is invisible if and only if keys tell the candidates of every tile apart |
| `SharedStems.TransparentAtAnyCapacityIff` | src/meshchat/services/orcmaps.py:1030-1046 | and for a server whose capacity is not known |
| `SharedStems.MaskedIsMissed` | src/meshchat/services/orcmaps.py:1030-1046 | a masked candidate that is not harmless has a renderer, blank before it, whose tile is then not served |
| `SharedStems.LastNameClash` | src/meshchat/services/orcmaps.py:1030-1051 | when the last candidate is masked and every render is blank, the final error is raised although the rule serves a tile |
| `TileThreads.AloneIsServe` | src/meshchat/services/orcmaps.py:1030-1051 | a render that no other one interrupts takes its steps to the result and cache of the serve function |
| `TileThreads.InterleavedRendersAreFresh` | src/meshchat/services/orcmaps.py:914-951 | when keys tell candidates apart, every answer of any interleaving of renders, cache visit by cache visit, is the cache-free rule's, at any capacity |
| `TileThreads.InterleavingIff` | src/meshchat/services/orcmaps.py:1019-1051 | and only then: if they do not, some renderer and some interleaving give a wrong answer, however large or small the cache |
| `Ppm.SkipGap` | src/meshchat/services/orcmaps.py:500-506 | the cursor loops end past all whitespace and comments |
| `Ppm.ParsePpmP6` | src/meshchat/services/orcmaps.py:490-519 | the parser ends on every byte string with the value of the specification function, each error included |
| `Ppm.NextNumberExactly` | src/meshchat/services/orcmaps.py:500-511 | the cursor finds a number exactly where a gap and a maximal run of digits stand |
| `Ppm.ParseExactly` | src/meshchat/services/orcmaps.py:490-519 | a byte string is read as an image if and only if it is a legal header with those pixels behind it |
| `Ppm.PixelsExactly` | src/meshchat/services/orcmaps.py:512-519 | an image results exactly when maxval is 255, both sides are positive and all its bytes follow one byte behind the header |
| `Ppm.LayoutIsParsed` | src/meshchat/services/orcmaps.py:496-519 | width, height and pixels are recovered from a header written with any whitespace and comments between its numbers |
| `Ppm.ExampleIsRead` | src/meshchat/services/orcmaps.py:490-519 | a header with a comment, a tab and CR LF, byte by byte |
| `Ppm.HeaderBytes` | src/meshchat/services/orcmaps.py:500-508 | which bytes are whitespace and which are digits |
| `Png.EmptyIffOneColour` | src/meshchat/services/orcmaps.py:617-634 | a render is empty if and only if it is a readable image with all pixels equal |
| `Png.ChunksRoundTrip` | src/meshchat/services/orcmaps.py:522-526 | chunks written with length, tag, payload and checksum are read back |
| `Png.ScanlinesRoundTrip` | src/meshchat/services/orcmaps.py:539-543 | dropping the filter byte of every scanline gives the pixels back |
| `Png.PngRoundTrip` | src/meshchat/services/orcmaps.py:529-550 | a PNG reader that checks signature, chunks, checksums, header and filters gets back the parsed image |
| `Png.PngBytes` | src/meshchat/services/orcmaps.py:529-550 | signature, IHDR with both sizes in network order and 8-bit RGB, one IDAT with the packed scanlines, IEND, at their places in the file |
| `Png.ChunkBytes` | src/meshchat/services/orcmaps.py:522-526 | a chunk is its length in network order, its tag, its payload, and the checksum of the last two |
| `Png.ScanlineBytes` | src/meshchat/services/orcmaps.py:539-543 | row r of the scanlines is a zero byte and the pixels of row r |
| `BandScan.RoundEven` | src/meshchat/services/rtl_scan.py:155-168 | Python's round: the nearest integer, halfway cases to even |
| `BandScan.MergeRows` | src/meshchat/services/rtl_scan.py:139-176 | no rows is an error; otherwise the array filled row by row is the specified merge |
| `BandScan.FirstReadingMeaning` | src/meshchat/services/rtl_scan.py:139-176 | a merged bin is the first finite reading, in row order, of same-step rows landing on it, and empty if and only if there is none |
| `BandScan.MergedSpan` | src/meshchat/services/rtl_scan.py:153-176 | the merged row starts at the lowest start and ends, evenly spaced, within half a step of the highest end |
| `BandScan.MergedBin` | src/meshchat/services/rtl_scan.py:158-175 | each of its bins holds the first reading that belongs there, by rounded start and offset, of the first row of its step that has one, and is empty if and only if none has |
| `BandScan.ReadingHasBinIff` | src/meshchat/services/rtl_scan.py:156-175 | a reading measured within the span has a bin that is not left empty, if and only if it is not measured at the very top by a row that starts an odd number and a half of steps above the bottom |
| `BandScan.TopReadingLost` | src/meshchat/services/rtl_scan.py:156-175 | two rows whose last reading is lost that way |
| `BandScan.MergedAlone` | src/meshchat/services/rtl_scan.py:139-176 | a row whose readings fill its span is its own merge |
| `BandScan.MergedOnce` | src/meshchat/services/rtl_scan.py:139-176 | merging a merged row changes nothing |
| `BandScan.ReadingLandsNear` | src/meshchat/services/rtl_scan.py:168-174 | no reading is placed further than half a bin from where it was measured |
| `BandScan.ScanAssembler.Add` | src/meshchat/services/rtl_scan.py:286-301 | a row that does not ascend closes the pending run; at most the cap of rows stays pending |
| `BandScan.RunsAreMaximal` | src/meshchat/services/rtl_scan.py:286-301 | the runs joined are the stream, each strictly ascends, and none could be longer |
| `BandScan.RunsAreUnique` | src/meshchat/services/rtl_scan.py:286-301 | only one way of cutting a stream is like that |
| `BandScan.AssemblerFollowsRuns` | src/meshchat/services/rtl_scan.py:275-301 | after any stream the assembler has emitted one merged sweep per closed run and holds the open one, each cut to its newest rows within the cap |
| `BandScan.NothingLostWithinCap` | src/meshchat/services/rtl_scan.py:275-301 | while no run exceeds the cap, the rows behind the sweeps and the rows still held are exactly the stream |
| `BandMemory.BandAccumulator.Update` | src/meshchat/services/rtl_scan.py:230-272 | the arrays take their specified next value, the picture shows it in fresh copies, and every array handed out before is unchanged |
| `BandMemory.AgeMeaning` | src/meshchat/services/rtl_scan.py:249-253 | a bin's age points at the sweep that last measured it; -1 if and only if none did |
| `BandMemory.RemembersRun` | src/meshchat/services/rtl_scan.py:230-272 | after any sweeps each bin has the age and, unless too old, the last reading of the sweeps since the geometry changed |
| `BandMemory.SinceIsMaximal` | src/meshchat/services/rtl_scan.py:233-244 | those are the longest suffix of one geometry |
| `BandMemory.CoverageMeaning` | src/meshchat/services/rtl_scan.py:260-261 | coverage is the share of bins with a reading, 1 if and only if all have one |
| `LoraAirtime.BlocksIsCeiling` | src/meshchat/analytics/lora_airtime.py:92-95 | the block count is the least that holds all the bits, and 0 when there are none |
| `LoraAirtime.AirtimeRaisesIff` | src/meshchat/analytics/lora_airtime.py:79-102 | the calculation raises if and only if the bandwidth is 0, or there are bits to send and a symbol holds none |
| `LoraAirtime.AirtimeIff` | src/meshchat/analytics/lora_airtime.py:12-22 | for every modem LoRa has, the time on air is that of the fewest blocks that carry the bits: 8 a byte, 20 for a sent header, 16 for a checksum, 8 more, less 4 for each spreading factor, over symbols of 2^SF / BW that hold two bits fewer beyond 16 ms |
| `LoraAirtime.ChecksumIsTwoBytes` | src/meshchat/analytics/lora_airtime.py:84-91 | a checksum costs what two more bytes cost |
| `LoraAirtime.PreambleIsSymbols` | src/meshchat/analytics/lora_airtime.py:98-102 | one more symbol of preamble costs one symbol's time |
| `LoraAirtime.LongFastValues` | src/meshchat/analytics/lora_airtime.py:79-102 | LONG_FAST on both sides of a block boundary, without a checksum, with an implicit header, and at coding rate 4/8 |
| `LoraAirtime.SwitchValues` | src/meshchat/analytics/lora_airtime.py:53-62 | LONG_MODERATE beyond the low-data-rate switch, and 16 ms exactly before it |
| `LoraAirtime.PayloadMonotone` | src/meshchat/analytics/lora_airtime.py:79-102 | a longer payload never takes less time, for any spreading factor |
| `LoraAirtime.BlocksShrink` | src/meshchat/analytics/lora_airtime.py:85-95 | j steps of spreading divide the blocks by at most about 2^j, with the low-data-rate switch anywhere between |
| `LoraAirtime.SpreadingMonotone` | src/meshchat/analytics/lora_airtime.py:53-102 | a higher spreading factor at one bandwidth never takes less time, wherever both times are defined |
| `LoraAirtime.BandwidthScalingIff` | src/meshchat/analytics/lora_airtime.py:53-102 | time on air times bandwidth does not grow with bandwidth, across the 16 ms switch, if and only if the switch does not come on at spreading factor 1 |
| `LoraAirtime.HalvingDoublesIff` | src/meshchat/analytics/lora_airtime.py:53-102 | half the bandwidth takes at least twice the time, with the same exception and no other |
| `LoraAirtime.HalvingBandwidthDoubles` | src/meshchat/analytics/lora_airtime.py:53-102 | for spreading factors of 3 and more both times are defined and there is no exception |
| `PacketIntel.AnalysePackets` | src/meshchat/analytics/packet_intel.py:157-268 | for any modem: it raises if and only if some attributed packet's time on air does, else the report lists each sender once, ranked strictly, with the record its own packets alone would give it, its share, and the totals |
| `PacketIntel.TallyMeaning` | src/meshchat/analytics/packet_intel.py:182-206 | a record counts its packets, those that are direct, relayed and via MQTT by their own definitions, their airtime, sizes missing and port names |
| `PacketIntel.DirectIff` | src/meshchat/models/network_packet.py:47-58 | a packet is direct if and only if it still has the whole of a positive hop allowance and did not come over MQTT |
| `PacketIntel.CostIsTimeOnAir` | src/meshchat/analytics/packet_intel.py:192-196 | a packet costs its time on air in seconds, and nothing when its size is unknown |
| `PacketIntel.TallySignals` | src/meshchat/analytics/packet_intel.py:205-207 | a record's signal list is every report of its packets, in order of arrival |
| `PacketIntel.UnfamiliarIff` | src/meshchat/analytics/packet_intel.py:217-218 | a node is flagged if and only if it sent a packet and the mesh had no record of it |
| `PacketIntel.TallyTimes` | src/meshchat/analytics/packet_intel.py:214-218 | first and last seen bound the node's packets and are each the time of one |
| `PacketIntel.Regrouping` | src/meshchat/analytics/packet_intel.py:182-206 | whatever is measured, grouping by sender loses nothing and counts nothing twice |
| `PacketIntel.WaysConserved` | src/meshchat/analytics/packet_intel.py:198-203 | direct, relayed and MQTT packets of a node add up to its packets |
| `PacketIntel.TrafficConserved` | src/meshchat/analytics/packet_intel.py:182-268 | node packets plus unattributed ones are the input, port counts sum to the totals, node airtimes to the total |
| `PacketIntel.SharesSumToOne` | src/meshchat/analytics/packet_intel.py:240-242 | shares sum to 1 when any airtime was used |
| `PacketIntel.ReportListsSenders` | src/meshchat/analytics/packet_intel.py:229-257 | a number is listed if and only if it sent a packet |
| `PacketIntel.ReportOrder` | src/meshchat/analytics/packet_intel.py:240-259 | profiles come busiest first, lower numbers first among equals |
| `PacketIntel.ReportShares` | src/meshchat/analytics/packet_intel.py:240-242 | a share times the total airtime is the node's own; of no airtime nobody has a share |
| `IqRecorder.Recorder.Write` | src/meshchat/services/iq_recorder.py:287-324 | a write to a closed recorder fails and changes nothing; any other has the specified effect |
| `IqRecorder.FileIsCutStream` | src/meshchat/services/iq_recorder.py:287-324 | the file is the stream cut to the largest even length within the limit, and truncated if and only if the stream was longer |
| `IqRecorder.IterCaptureChunks` | src/meshchat/services/iq_recorder.py:205-222 | for any chunk size: whole even chunks, all but the last full, that join to the file without its odd byte |
| `IqRecorder.RecordThenReplay` | src/meshchat/services/iq_recorder.py:205-222 | what was recorded in even chunks is replayed byte for byte up to the limit |
| `LineWriter.Writer.Write` | src/meshchat/services/firmware.py:305-312 | the text up to the last line break goes out as its non-blank stripped lines, the rest stays buffered |
| `LineWriter.Writer.Flush` | src/meshchat/services/firmware.py:314-317 | what is buffered goes out unless blank, and the buffer is empty |
| `LineWriter.MatchIff` | src/meshchat/services/firmware.py:25-25 | an escape sequence is found at the front if and only if the text begins with ESC [, parameters, intermediates and one final character |
| `LineWriter.UnfinishedIff` | src/meshchat/services/firmware.py:25-25 | and one is unfinished if and only if the whole text begins a longer sequence |
| `LineWriter.StripFirst` | src/meshchat/services/firmware.py:306-306 | stripping drops a sequence at the front and keeps any other first character |
| `LineWriter.LinesCut` | src/meshchat/services/firmware.py:306-308 | a text is cut at every line feed and carriage return, and nowhere else |
| `LineWriter.KeptLines` | src/meshchat/services/firmware.py:309-311 | the lines shown are those that are not blank, in order, each without the whitespace at its end |
| `LineWriter.StreamingIsBatchOfPieces` | src/meshchat/services/firmware.py:300-317 | for any split into writes, the lines shown are those of the writes stripped one by one and joined |
| `LineWriter.StreamingIsBatchIff` | src/meshchat/services/firmware.py:300-317 | for any list of writes they are the lines of the whole text, stripped at once, if and only if no escape sequence of the text lies across a boundary |
| `LineWriter.PlainTextStreaming` | src/meshchat/services/firmware.py:300-317 | without escape characters they are the non-blank right-stripped lines of the whole text, CR counting as LF |
| `LineWriter.BoundaryNeverShowsIff` | src/meshchat/services/firmware.py:305-312 | a write boundary never shows, whatever follows, if and only if the text before it does not end inside an escape sequence |
| `Prelude.StripEmptyIffBlank` | src/meshchat/services/firmware.py:310-311 | strip() of a line is empty exactly when the line is blank |

## Left out

- Threads below one handler: each supervisor handler, worker slot, radio callback, `_enqueue` and writer turn is atomic; the race between a connect constructor and its own established callback is not modelled, nor is the worker's `shutdown`.
- The connection profile's storage in settings; a user's disconnect is one step with its cancel, as the main window sends both.
- Disconnect reasons are "by the user" or "link lost"; other texts of the reason string are not modelled.
- `vacuum` beyond the log it may write back, retry delays and a failing ROLLBACK TO SAVEPOINT; SQLite rolling a whole transaction back inside a batch; a writer thread that fails to start.
- A prune that deletes no rows still counts as a transaction in the log.
- ISO time strings are ordered integers; telemetry and position fields of snapshots, the ring buffer and the session counter of the ingestor; the fallback fingerprint for packets without an id.
- Aliasing of node snapshots: memory, queue and table hold values, as the ingestor hands out copies.
- Tables no migration touches and their indexes; the pre-migration backup file; a failing integrity check after migrations.
- The Web Mercator latitude edge is any function that falls with the row number; the renderer is a function of archive path and view, CRC-32 and zlib of their input, zlib one with an inverse that packs a few bytes into fewer than 2^32; a pack's archive path determines its stem, as the loader builds it. A style change while a render is in flight is not modelled.
- The 4,300-digit limit of Python's `int()` on PPM numbers.
- Float rounding: frequencies, powers, times and shares are real numbers; `float32` storage is not modelled.
- BandScan.ScanAssembler.Add: a cap below 1 is not modelled; the program uses 64.
- PacketIntel.AnalysePackets: labels, RSSI and signal statistics, trends, packet rates, duty cycle and `most_common` ordering are left out.
- LoraAirtime.SpreadingMonotone: like the other laws of time on air, stated for coding rates 4/5 to 4/8 and preambles of at least 0, which the presets and the formula's source give.
- I/O errors while recording, the capture's sidecar file and its metadata.
- Qt widgets, subprocesses, downloads, flashing, HTTP framing, FFTs, exports and classifiers: foreign calls, display, or functions whose properties are read off their bodies.
