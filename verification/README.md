# Ruuvi Gateway firmware: a verified model

Five connected parts of the gateway firmware are modelled here, each twice: as functions on
values, about which the properties are proved for all inputs and all runs, and, where the
firmware updates things in place, as classes whose methods are proved to compute those
functions.

**The advertisement table.** `AdvCache` is what its users see: the latest report of each
sensor, and three queues of sensors. `AdvRuns`, `AdvTheorems`, `AdvQueues` and `AdvReads` prove
what every run does: the table is the newest 100 sensors of the log of accepted reports, the
queues neither lose nor repeat, counters are conserved, and the history scan that stops early
misses nothing. `AdvLaws` says in terms of data, timestamps and counters alone what is accepted,
reported, returned and erased. `AdvPool` introduces the 100 slots and proves the refinement; `SlotLists` has
the intrusive lists, and `AdvTable` the table that threads each slot through five of them.

**The OTA writer and the firmware update.** `OtaSession` re-blocks chunks into 16-byte writes;
`FlashChip` is memory that is erased to 0xFF and programmed by clearing bits; `OtaWriter` and
`OtaOps` are the sessions in place. `FwUpdate` and `FwHistory` prove which partitions an update
touches, when it switches, and that over the life of a gateway the running image is always
served by the data partitions it came with. `FwUpdater` is the update in place.

**Posting.** `AsyncComm` and `AsyncTheorems` treat the posting task as a state machine over its
signals: semaphore, server mutex, nonces, MQTT batches; `AsyncSignals` proves what the signals mean
for its flags and what asks for a transmission; `PostTask` is the posting task in place.
`Relaying` interleaves any number of threads that suspend and resume relaying with the handler
of the posting task, step by step; `GwStatus` has the critical sections. `FilterCache` interleaves the
receiver of advertisements with the handlers that change the scan filter, over the table of
`AdvCache`; `CfgCache` is the filter in place. `Delivery` runs the table and the posting task
together and follows a report from its acceptance to the request that carries it, or to its loss.

**The configuration.** `ConfigJson` reads JSON values and models the union of credentials as
memory; `JsonNumbers` proves how numbers are read from texts. `ConfigSave` and `ConfigLoad` write
and read the sections, `ConfigNormal` defines the
normal form of each, and `ConfigTheorems` proves that saving and loading gives the normal form
of the whole configuration and is idempotent. `ConfigParser` has the parsers in place.

**Downloads.** `Download` collects the parts of a document in a buffer, of an announced length
or grown with each part; `JsonDownload` does so in place.

Everything the firmware asks of the outside world is a parameter of the step that asks: whether
an allocation, a flash write, an erasure, a request or a lock succeeds, what a poll answers,
the clock, and the signals and their order. A theorem about all runs holds for all answers.

Where the properties one would expect are false of the code, the code is kept, and the exact
condition is proved:

- switching relaying off during an MQTT batch unlocks a mutex that the posting task does not hold, and
  the batch buffer is never freed (`MutexHeldDuringRequests`, `BatchOutcome`);
- an empty periodic batch publishes one zeroed entry (`BatchOutcome`);
- without a second nRF52 partition an update can destroy the nRF52 firmware of the running
  image (`CurrentNrfAtRisk`);
- a list is read and cleared before the request is started that is to carry it, and a start that
  fails loses its reports (`FateOfWaiting`);
- a caller that suspends relaying can be told that this was handled although the posting task has not
  seen it, exactly when it sets the command bit while the handler is between an older reading of the
  counter and the clearing of the bit (`MisledIff`, `RaceHappens`);
- a second caller does not wait at all, and can meet a request exactly when one is in progress or the
  posting task has yet to look at the counter (`SecondSuspenderDoesNotWait`);
- the scan settings of a document from before version 1.16 are lost at start-up exactly when they
  are not the default ones, because the base bears the mark of the default (`OldScanSurvives`,
  `OldScanLostAtStartup`);
- numbers in the configuration are narrowed to 16 bits (`NumbersNarrow`), and the remote
  section loses tokens and API keys, and nothing else (`RemoteRoundTrip`);
- the length announced by a redirection stays in force for the document behind it, which is
  rejected exactly when there is no room for it under that length (`RedirectLengthStays`);
- a body that is shorter than announced is delivered as it is (`ResultIsDocument`).

To check the project: `dafny verify dfyconfig.toml`.

## Model

| member | source | states |
|---|---|---|
| `AdvTheorems.UsedReportsAreNewest` | main/adv_table.c:175-227 | MAIN. After any run of puts, drains, head pops, clears and statistics reads, the used reports come first in the history and are exactly the latest accepted reports of the last 100 distinct sensors since the last clear, newest first |
| `AdvTheorems.PutDecision` | main/adv_table.c:153-205 | A put accepts a report exactly when the log holds no newest report of its sensor with the same data, or with more than 31 bytes while the new one has 31 or fewer |
| `AdvTheorems.UsedPut` | main/adv_table.c:180-224 | An accepted put moves its report to the front of the used ones and drops at most the oldest |
| `AdvTheorems.AgreesPut` | main/adv_table.c:175-227 | A put keeps the agreement of the table with the log |
| `AdvTheorems.AgreesOther` | main/adv_table.c:238-506 | Drains, pops, statistics reads and clears keep the agreement with the log |
| `AdvRuns.PutWf` | main/adv_table.c:175-227 | A put keeps sensors distinct, at most 100, and every queue repetition-free and within the table |
| `AdvRuns.ApplyWf` | main/adv_table.c:175-506 | So does every operation |
| `AdvRuns.RunWf` | main/adv_table.c:175-506 | So does every run |
| `AdvRuns.PutResidents` | main/adv_table.c:180-190 | Which sensors the table holds after a put: the new one, and all others but the one that is evicted |
| `AdvRuns.LatestSnoc` | main/adv_table.c:206-226 | The latest reports of a longer log, from those of the shorter one |
| `AdvRuns.NewestSnoc` | main/adv_table.c:206-226 | The same for the 100 newest: one step of a log equals one update of the cache |
| `AdvQueues.WaitingIffAccepted` | main/adv_table.c:206-222 | MAIN. A sensor waits in a queue exactly when it is in the table and was accepted after it last left that queue |
| `AdvQueues.StoredIsLatest` | main/adv_table.c:188-199 | The stored report of a sensor is its latest accepted one |
| `AdvQueues.DrainIsExact` | main/adv_table.c:238-302 | MAIN. A drain returns exactly the waiting sensors, once each, with their latest accepted reports, empties that queue and leaves the other two alone |
| `AdvQueues.PopAllIsDrain` | main/adv_table.c:328-340 | Popping heads of list 3 until it is empty gives what draining it gives |
| `AdvQueues.PutQueue` | main/adv_table.c:206-222 | Who waits in a queue after a put |
| `AdvQueues.PutKeeps` | main/adv_table.c:186-205 | A put leaves the reports of the other sensors it keeps unchanged |
| `AdvQueues.QueueUsedStep` | main/adv_table.c:206-222 | Waiting sensors always have data |
| `AdvReads.CountersConserved` | main/adv_table.c:153-205 | MAIN. While a sensor stays in the table, reported counts plus the current counter equal the number of put calls for it, accepted or not, modulo 2^32 |
| `AdvReads.CountersFromInsertion` | main/adv_table.c:188-203 | From its insertion on, the count starts at the counter that came with the inserted report |
| `AdvReads.StepConserves` | main/adv_table.c:414-434 | One operation moves counts from the counter to what is reported and loses none |
| `AdvReads.ScanIsFilter` | main/adv_table.c:360-399 | The scan that stops early equals the filter over the whole history exactly when the wanted reports come first |
| `AdvReads.HistoryIsFilter` | main/adv_table.c:360-399 | MAIN. With puts in order of age, the history read returns exactly the used reports the filter wants, and the used reports stand youngest first |
| `AdvReads.TimestampsInOrder` | main/adv_table.c:360-399 | Timestamps that never decrease and are not in the future, or counts that never decrease and lie within 2^31 of the requested one, put the puts in order of age; that the used reports are then in that order, too, is part of HistoryIsFilter |
| `AdvReads.CongruentIsEqualModulo` | main/adv_table.c:198-203 | The congruence in which counters are compared is equality modulo 2^32 |
| `AdvLaws.PutIsAcceptedIff` | main/adv_table.c:153-205 | MAIN. In every run, a put of data other than the stored data of its sensor, which is no data of 31 bytes or fewer behind data of more, leads the history afterwards and waits in all queues; any other put counts one sample and changes nothing else |
| `AdvLaws.AcceptsIff` | main/adv_table.c:153-173 | When a report is accepted, by the stored and the new data alone |
| `AdvLaws.LongStaysLong` | main/adv_table.c:159-170 | MAIN. While a sensor stays in the table and the table is not cleared, stored data of more than 31 bytes are never replaced by 31 bytes or fewer |
| `AdvLaws.HistoryByAge` | main/adv_table.c:360-399 | MAIN. In every run with timestamps that never decrease, a history read returns the first reports, and a report is among them exactly when it holds data and is no more seconds old than asked for, or counted after what was asked for |
| `AdvLaws.StatisticsReportUsed` | main/adv_table.c:414-434 | MAIN. In every run whose puts bear a timestamp, a statistics read reports exactly the reports that hold data, and all counters are zero afterwards |
| `AdvLaws.StatisticsReadPrefix` | main/adv_table.c:419-433 | In any state it reports the reports before the first zero timestamp, and resets their counters and nothing else |
| `AdvLaws.ClearErases` | main/adv_table.c:489-506 | A clear zeroes timestamps and counters and removes the data; sensors and radio parameters stay, and the queues are empty |
| `AdvLaws.RunBlank` | main/adv_table.c:489-506 | In every run, a report without data has a zero timestamp and a zero counter |
| `AdvPool.PutRefines` | main/adv_table.c:175-227 | A put on slots is a put on the cache |
| `AdvPool.DrainRefines` | main/adv_table.c:238-302 | A drain on slots is a drain on the cache; at most 100 slots wait, so the output table never fills up |
| `AdvPool.PopRefines` | main/adv_table.c:328-340 | Taking a head slot is taking a head of the cache |
| `AdvPool.ClearRefines` | main/adv_table.c:489-506 | Clearing slots is clearing the cache |
| `AdvPool.HistoryRefines` | main/adv_table.c:360-399 | The history read on slots returns what the cache returns |
| `AdvPool.HistoryStops` | main/adv_table.c:360-399 | Where a history read stops, by data, timestamp and the wrapped differences the code compares |
| `AdvPool.StatisticsRefines` | main/adv_table.c:414-434 | So does the statistics read |
| `AdvPool.StepRefines` | main/adv_table.c:175-506 | Every operation on slots refines the one on the cache and keeps the pool well formed |
| `AdvPool.RunRefines` | main/adv_table.c:54-506 | MAIN. So does every run from the initial table: the history is always a permutation of all 100 slots, and the hashed slots hold the sensors of the cache |
| `AdvPool.QueueKeepsOrder` | main/adv_table.c:206-349 | MAIN. Over any run of puts, drains, head pops and reads a queue is first in, first out: what stood in it leaves first and in its order, by a drain or by head pops, and what has not left stands in the same order |
| `AdvPool.QueueSlots` | main/adv_table.c:251-254 | Pigeonhole: a queue holds at most as many slots as the pool has, so the capacity break of a drain is unreachable |
| `AdvPool.InitialWf` | main/adv_table.c:54-79 | The initial pool is well formed and stands for the empty cache |
| `AdvPool.AbsWf` | main/adv_table.c:175-227 | A well-formed pool stands for a well-formed cache |
| `SlotLists.SlotQueue.InsertTail` | main/adv_table.c:210-221 | Tail insertion into a singly linked tail queue |
| `SlotLists.SlotQueue.RemoveHead` | main/adv_table.c:249 | Head removal from it |
| `SlotLists.SlotDeque.InsertTail` | main/adv_table.c:77 | Tail insertion into the doubly linked history |
| `SlotLists.SlotDeque.InsertHead` | main/adv_table.c:224 | Head insertion into it |
| `SlotLists.SlotDeque.Remove` | main/adv_table.c:223 | Removal from its middle |
| `SlotLists.HashChains.InsertTail` | main/adv_table.c:134 | Tail insertion into one of 101 chains that share the link fields; the other chains stay as they are |
| `SlotLists.HashChains.Predecessor` | main/adv_table.c:149 | The walk of a chain removal finds the predecessor of the slot |
| `SlotLists.HashChains.Unlink` | main/adv_table.c:149 | The links change in one place, and the chain is what it was without that slot |
| `SlotLists.HashChains.Remove` | main/adv_table.c:149 | Removal from a chain |
| `SlotLists.ChainedWithout` | main/adv_table.c:149 | What unlinking does to a chain |
| `AdvTable.AdvTable.Init` | main/adv_table.c:54-79 | Initialisation of all lists and slots |
| `AdvTable.CalcHash` | main/adv_table.c:97-108 | The loop computes the hash: three bytes, each the exclusive or of two bytes of the address |
| `AdvTable.AdvTable.Search` | main/adv_table.c:110-125 | The search in one bucket finds the slot a linear scan of the pool would find, or none if there is none |
| `AdvTable.AdvTable.OneSlotPerSensor` | main/adv_table.c:110-125 | No two hashed slots hold the same sensor |
| `AdvTable.AdvTable.HashRemove` | main/adv_table.c:138-151 | A slot leaves its chain, and its flag is cleared |
| `AdvTable.AdvTable.HashAdd` | main/adv_table.c:127-136 | A slot joins the chain of its sensor, and its flag is set |
| `AdvTable.AdvTable.Rehash` | main/adv_table.c:184-189 | A slot is given to another sensor: it leaves the chain of the old one, takes the report and joins the chain of the new one |
| `AdvTable.AdvTable.Renew` | main/adv_table.c:197-203 | The report of the sensor that holds the slot is renewed, or only counted, and the chains stay as they are |
| `AdvTable.AdvTable.EnqueueAll` | main/adv_table.c:208-222 | The three queues take the slot if it is not in them already |
| `AdvTable.AdvTable.Touch` | main/adv_table.c:206-225 | The slot is enqueued and moved to the front of the history |
| `AdvTable.AdvTable.Place` | main/adv_table.c:184-224 | A slot that takes the report of another sensor is hashed, enqueued and moved to the front of the history |
| `AdvTable.AdvTable.Refresh` | main/adv_table.c:197-224 | A slot that takes a new report of its own sensor is enqueued and moved to the front of the history |
| `AdvTable.AdvTable.Insert` | main/adv_table.c:181-190 | The branch for a new sensor |
| `AdvTable.AdvTable.Update` | main/adv_table.c:194-200 | The branch for an accepted report of a known sensor |
| `AdvTable.AdvTable.Count` | main/adv_table.c:201-204 | The branch for a discarded report |
| `AdvTable.AdvTable.Put` | main/adv_table.c:175-236 | The put on linked lists is the put on slots; it returns whether no hashed slot of the sensor holds the same data, or extended data before a regular report |
| `AdvTable.AdvTable.DrainQueue` | main/adv_table.c:238-302 | The drain loop, in which the capacity break is proved dead |
| `AdvTable.AdvTable.ReadList1` | main/adv_table.c:304-310 | Draining list 1 |
| `AdvTable.AdvTable.ReadList2` | main/adv_table.c:312-318 | Draining list 2 |
| `AdvTable.AdvTable.ReadList3` | main/adv_table.c:320-326 | Draining list 3 |
| `AdvTable.AdvTable.ReadList3Head` | main/adv_table.c:328-349 | Taking the head of list 3 |
| `AdvTable.AdvTable.IsList3Empty` | main/adv_table.c:351-358 | Whether list 3 is empty |
| `AdvTable.AdvTable.ReadHistory` | main/adv_table.c:360-412 | The history loop |
| `AdvTable.AdvTable.ReadStatistics` | main/adv_table.c:414-442 | The statistics loop |
| `AdvTable.AdvTable.ResetCountersInOrder` | main/adv_table.c:419-433 | The counters of the reported slots are reset |
| `AdvTable.AdvTable.ResetAlongHistory` | main/adv_table.c:419-433 | The loop reports down the history to the first zero timestamp, and resets exactly the reported counters |
| `AdvTable.AdvTable.ClearQueues` | main/adv_table.c:444-487 | The three queues are emptied and their flags cleared |
| `AdvTable.AdvTable.EraseInOrder` | main/adv_table.c:497-503 | All reports are erased; hashed slots stay hashed |
| `AdvTable.AdvTable.Clear` | main/adv_table.c:489-506 | Clearing the table |
| `OtaSession.WriteChunkWf` | main/esp_ota_ops_patched.c:136-199 | MAIN. Every write, failed or not, keeps: the successful writes tile [0, wrote_size), in whole blocks when encrypted, and at most one block waits |
| `OtaSession.NeverTwice` | main/esp_ota_ops_patched.c:136-199 | MAIN. In any run with any failures no erased offset is programmed twice and none is skipped |
| `OtaSession.WrittenOnce` | main/esp_ota_ops_patched.c:190-198 | Writes that tile a range are disjoint and contiguous |
| `OtaSession.ChunkStream` | main/esp_ota_ops_patched.c:136-199 | MAIN. A chunk that is taken extends the received stream (flash, then waiting bytes) by exactly its bytes |
| `OtaSession.CarryStream` | main/esp_ota_ops_patched.c:155-181 | The branch with waiting bytes: fill up, flush, go on |
| `OtaSession.WriteBlocksStream` | main/esp_ota_ops_patched.c:183-198 | The branch without: whole blocks to the flash, the rest into the carry buffer |
| `OtaSession.ReceivedIsConcat` | main/esp_ota_ops_patched.c:136-199 | MAIN. However an image is split, what was received is the concatenation of the chunks |
| `OtaSession.ChunkTaken` | main/esp_ota_ops_patched.c:136-199 | When one chunk is taken: the image so far begins with 0xE9, the writes it leads to work, and the whole blocks so far fit |
| `OtaSession.ReceivedIff` | main/esp_ota_ops_patched.c:136-199 | MAIN. Whether an image is taken is independent of its split: exactly when it is empty or begins with 0xE9 and its whole blocks fit into the partition |
| `OtaSession.FinishStream` | main/esp_ota_ops_patched.c:246-291 | What ending a session does to what was received, and with which error it ends otherwise |
| `OtaSession.FinishedImage` | main/esp_ota_ops_patched.c:224-297 | MAIN. How ending a session ends, error by error; when it succeeds, the flash begins with the image, and its length is the image's, rounded up to 16 when encrypted |
| `OtaSession.FinishedContents` | main/esp_ota_ops_patched.c:136-291 | MAIN. The whole contents of an encrypted partition after a successful end: the image, and behind it in its last block zeros, or 0xFF when a chunk has completed a block that an earlier one began |
| `OtaSession.SplitDoesNotMatter` | main/esp_ota_ops_patched.c:136-297 | MAIN. The result does not depend on the split, nor, on the image bytes, on the encryption |
| `OtaSession.MagicChecksFirstByte` | main/esp_ota_ops_patched.c:144-149 | While no write has failed, the 0xE9 check applies to the first byte of the image and to nothing else |
| `OtaSession.PaddingAfterChunk` | main/esp_ota_ops_patched.c:120-121 | The padding of the last block: zeros until the carry buffer was flushed for the first time, 0xFF from then on |
| `OtaSession.FinishWf` | main/esp_ota_ops_patched.c:224-297 | Ending a session keeps the write discipline |
| `FlashChip.ErasedTakesValue` | main/esp_ota_ops_patched.c:190-198 | Programming clears bits: an erased range takes any value |
| `FlashChip.ProgrammingClears` | main/esp_ota_ops_patched.c:190-198 | Programming sets no bit and touches nothing but the bytes it is given |
| `FlashChip.ErasePartition` | main/fw_update.c:270-294 | The erase loop, sector by sector, with a failure at any sector; a size that is no multiple of 4096 is refused |
| `OtaWriter.HeldAfterWrite` | main/esp_ota_ops_patched.c:190-198 | A write behind everything written so far lands unchanged, and the flash is erased behind it |
| `OtaWriter.OtaEntry.Append` | main/esp_ota_ops_patched.c:194-198 | A write at wrote_size |
| `OtaWriter.OtaEntry.Flush` | main/esp_ota_ops_patched.c:168-179 | The full carry buffer is written and reset to 0xFF |
| `OtaWriter.OtaEntry.WriteWholeBlocks` | main/esp_ota_ops_patched.c:183-198 | The rest of a chunk is saved, its whole blocks are written |
| `OtaWriter.OtaEntry.WriteAfterCarry` | main/esp_ota_ops_patched.c:155-198 | A chunk that meets waiting bytes |
| `OtaWriter.OtaEntry.WriteEntry` | main/esp_ota_ops_patched.c:136-199 | The in-place write is the write on sessions |
| `OtaWriter.OtaEntry.FinishEntry` | main/esp_ota_ops_patched.c:244-291 | The in-place end is the end of a session |
| `OtaOps.BeginRefusal` | main/esp_ota_ops_patched.c:80-113 | What is refused before anything is erased, in the order of the checks |
| `OtaOps.OtaTable.Find` | main/esp_ota_ops_patched.c:209-216 | The first entry with a handle |
| `OtaOps.OtaTable.Begin` | main/esp_ota_ops_patched.c:79-134 | Checks, erasure, then a new entry in front with the next handle |
| `OtaOps.OtaTable.Write` | main/esp_ota_ops_patched.c:201-222 | A write by handle changes only the session that is found |
| `OtaOps.OtaTable.End` | main/esp_ota_ops_patched.c:224-297 | An end by handle removes the session in any case |
| `FwUpdate.ReadInfoIff` | main/fw_update.c:134-219 | When the flash info can be read: the partitions of the other image are there, by name; with ota_0 running and no nRF52 partition at all the code goes on with a null pointer |
| `FwUpdate.InformedTargets` | main/fw_update.c:134-219 | Which partitions an update is aimed at: while ota_0 runs, fatfs_gwui_2 and fatfs_nrf52_2, or fatfs_nrf52 when there is no second one; otherwise fatfs_gwui and fatfs_nrf52 |
| `FwUpdate.FindFat` | main/fw_update.c:89-103 | The first data partition of a name, or none when there is none |
| `FwUpdate.OtaEventsReceive` | main/fw_update.c:450-496 | A download into the app partition without an error took every part of the file |
| `FwUpdate.DataEventsFlat` | main/fw_update.c:318-369 | So did one into a data partition |
| `FwUpdate.OtaEventsIff` | main/fw_update.c:450-496 | A download of an app image is free of errors exactly when every answer is a redirection or OK with working writes, and the image begins as one and fits |
| `FwUpdate.DataEventsIff` | main/fw_update.c:318-369 | The same for a data partition, into which every byte must fit |
| `FwUpdate.OnlyTargetsTouched` | main/fw_update.c:806-868 | MAIN. Whatever fails, only the inactive app partition and the two chosen data partitions are touched; the running app never is |
| `FwUpdate.CurrentDataUntouched` | main/fw_update.c:246-259 | MAIN. The data partitions that serve the running image are not touched: while ota_0 runs, fatfs_gwui, and fatfs_nrf52 as long as there is a fatfs_nrf52_2; otherwise fatfs_gwui_2 and fatfs_nrf52_2 |
| `FwUpdate.AppArrivesIff` | main/fw_update.c:546-577 | The app update succeeds exactly when the partition may be written and is erased, the download is free of errors and complete, enough arrived, the last block fits and the image is verified |
| `FwUpdate.DataArrivesIff` | main/fw_update.c:371-424 | The same for a data partition |
| `FwUpdate.SwitchedIff` | main/fw_update.c:806-868 | MAIN. The boot partition is switched exactly when all three files arrive, as a condition on the answers of the server, the flash and the images alone, and the switch works; otherwise the boot partition and what is known of it stay |
| `FwUpdate.LaterStagesUntouched` | main/fw_update.c:806-843 | A stage that fails leaves the partitions of the later stages alone |
| `FwHistory.OtaDelivered` | main/fw_update.c:546-577 | A delivered app image was verified, and the partition begins with it |
| `FwHistory.DataDelivered` | main/fw_update.c:371-424 | A delivered data partition holds the file and is erased behind it |
| `FwHistory.AllDelivered` | main/fw_update.c:806-843 | MAIN. When all three files arrive, and so whenever the boot partition was switched, the three partitions hold them |
| `FwHistory.OneReleaseRuns` | main/fw_update.c:806-868 | MAIN. After any sequence of updates with any failures, the running app and the data partitions that serve it hold the files of one release, the last one that was switched to |
| `FwHistory.CurrentNrfAtRisk` | main/fw_update.c:195-210 | MAIN. Exactly when the second nRF52 partition is missing while ota_0 runs, an update can destroy the nRF52 firmware of the running image without switching away from it |
| `FwHistory.BrokenOffHits` | main/fw_update.c:195-210 | The update that does so: it breaks off after the erasure |
| `FwUpdater.DataDownload.OnRecvData` | main/fw_update.c:318-369 | The callback of a data download |
| `FwUpdater.Updater.UpdatePartition` | main/fw_update.c:371-424 | Erase, download and check a data partition |
| `FwUpdater.Updater.OnOtaRecvData` | main/fw_update.c:450-496 | The callback of the app download |
| `FwUpdater.Updater.DownloadApp` | main/fw_update.c:498-544 | The app download writes through the OTA session |
| `FwUpdater.Updater.RunSession` | main/fw_update.c:564-577 | The session is ended also after a failed download |
| `FwUpdater.Updater.UpdateApp` | main/fw_update.c:546-577 | The app update |
| `FwUpdater.Updater.RunActions` | main/fw_update.c:806-868 | The whole update in place is the update on values |
| `AsyncTheorems.SemaphoreGuardsRequests` | main/http.c:636-716 | MAIN. Over any signals the semaphore is available exactly when no HTTP request is in progress; no assertion about it or about the batch buffer fails |
| `AsyncTheorems.ApplyLocks` | main/adv_post_signals.c:450-484 | Every step keeps semaphore, mutex and flags in agreement |
| `AsyncTheorems.StartNextLocks` | main/adv_post_async_comm.c:149-251 | So does starting a request, also when it fails to start |
| `AsyncTheorems.MutexHeldDuringRequests` | main/adv_post_async_comm.c:320-408 | MAIN. The server mutex is held exactly while a request is in progress, and is unlocked once for each lock; it is unlocked without being held exactly as often as relaying is switched off during an MQTT batch, and stays locked at the end of the posting task exactly when a request is in progress |
| `AsyncTheorems.ApplyForeign` | main/adv_post_signals.c:179-195 | The one step that unlocks a mutex it never took |
| `AsyncTheorems.NoncesAreConsecutive` | main/adv_post_async_comm.c:168-213 | MAIN. Started advertisement requests carry consecutive nonces modulo 2^32; failed starts and statistics use up none |
| `AsyncTheorems.CountStartConsecutive` | main/adv_post_async_comm.c:177 | Starting a request continues the count |
| `AsyncTheorems.BatchOutcome` | main/adv_post_async_comm.c:253-318 | MAIN. A batch publishes its entries in order, each once; its buffer is freed exactly once, after all of them or after a failure, and never if it was interrupted; an empty batch publishes one zeroed entry |
| `AsyncTheorems.StartedIff` | main/adv_post_async_comm.c:149-408 | A request starts exactly when relaying is enabled, it is its turn, and network, time, mutex, memory and client are there; what does not start keeps its turn |
| `AsyncSignals.FlagsFollowSignals` | main/adv_post_signals.c:96-195 | MAIN. In every run that is not stopped, the network flag says whether the network was connected and not disconnected since, the relaying flag whether relaying was turned on after it was last turned off, and the time flag whether time was ever synchronised |
| `AsyncSignals.IdleWhileOff` | main/adv_post_signals.c:179-195 | MAIN. In every run no request is in progress while relaying is off |
| `AsyncSignals.TimersAsk` | main/adv_post_signals.c:135-177 | In every run each timer asks for its own transmission, while relaying is enabled and the target is used, and does nothing else |
| `AsyncSignals.ConfigurationAsks` | main/adv_post_signals.c:269-350 | A new configuration asks for every HTTP transmission that it uses and for no other |
| `AsyncSignals.AskedUntil` | main/adv_post_async_comm.c:149-408 | MAIN. What was asked for is dropped only when it is started or withdrawn, or when a request of the same kind ends |
| `AsyncSignals.StartedIsForgotten` | main/adv_post_async_comm.c:149-408 | What is started is not asked for any more, and neither is what ends |
| `AsyncTheorems.PublishNextWf` | main/adv_post_async_comm.c:293-318 | One step of a batch |
| `AsyncTheorems.BatchProgress` | main/adv_post_async_comm.c:311-317 | A step that does not end a batch leaves one entry fewer |
| `AsyncTheorems.EmptyBatchPublishesZero` | main/adv_post_async_comm.c:298-310 | A run in which an empty batch publishes the zeroed entry |
| `AsyncTheorems.ApplyPublishes` | main/adv_post_signals.c:450-484 | Every step keeps the account of the batches |
| `Delivery.RunProjects` | main/adv_post_async_comm.c:114-147 | In a run of the table and the posting task together, the table goes through a run of its own: puts, drains, pops, reads and clears |
| `Delivery.DrainedIff` | main/adv_post_async_comm.c:102-291 | Which list a free posting task reads: the one whose turn it is, when relaying, network, time, memory and the mutex or MQTT are there; whether the request can be started does not matter |
| `Delivery.SignalsOnTable` | main/adv_post_signals.c:117-133 | Which signals empty the table: a new configuration and the first time synchronisation; only a communication step reads a list |
| `Delivery.StartsWhen` | main/adv_post_async_comm.c:149-291 | A step starts the request that carries a list exactly when it reads the list and the start works |
| `Delivery.RequestCarries` | main/adv_post_async_comm.c:98-147 | MAIN. In every run, a started request or batch was given exactly the sensors in the table that were accepted since they last left its list, each once, with its latest accepted report |
| `Delivery.FateOfWaiting` | main/adv_post_async_comm.c:114-132 | MAIN. A waiting report goes on waiting exactly when its list is not read, is carried exactly when the list is read and the start works, and is lost otherwise; once it has left, no later request carries the sensor before another of its reports is accepted, and the same data heard again is not accepted |
| `Delivery.NeverAgain` | main/adv_post_async_comm.c:114-132 | Nothing is sent twice: a sensor that does not wait in a list is in no request for it until a report of it is accepted |
| `PostTask.HttpClient.Post` | main/http_post_advs.c:259-297 | Taking the semaphore, and giving it back on failure; the assertion that it is available is proved |
| `PostTask.HttpClient.Poll` | main/http.c:636-716 | Polling; the semaphore is signalled when the request is over |
| `PostTask.HttpClient.AbortAny` | main/http.c:758-787 | Aborting, whether or not a request is in progress |
| `PostTask.ServerMutex.TryLock` | main/ruuvi_gateway_main.c:82-85 | Trying the mutex shared with incoming connections |
| `PostTask.ServerMutex.Release` | main/ruuvi_gateway_main.c:88-91 | Unlocking it, held or not |
| `PostTask.Task.Retransmit` | main/adv_post_async_comm.c:80-112 | Memory, the configuration and the client decide whether the request is started; the list that it carries is followed in Delivery |
| `PostTask.Task.RequestAdvs` | main/adv_post_async_comm.c:164-178 | The request under the mutex, which is given back when the start fails |
| `PostTask.Task.SendAdvs` | main/adv_post_async_comm.c:149-213 | Sending advertisements to either target |
| `PostTask.Task.SendStatistics` | main/adv_post_async_comm.c:215-251 | Sending statistics |
| `PostTask.Task.StartPeriodicMqtt` | main/adv_post_async_comm.c:253-291 | Starting a periodic MQTT batch |
| `PostTask.Task.PublishMqtt` | main/adv_post_async_comm.c:293-318 | Publishing one entry of it |
| `PostTask.Task.PollRequest` | main/adv_post_async_comm.c:320-355 | Polling the request in progress |
| `PostTask.Task.DoAsync` | main/adv_post_async_comm.c:367-408 | One step of communication |
| `PostTask.Task.OnRelayingModeChanged` | main/adv_post_signals.c:179-195 | The handler that aborts what is in progress |
| `PostTask.Task.OnRetransmit` | main/adv_post_signals.c:135-177 | The timers ask for transmissions while relaying is enabled |
| `PostTask.Task.OnFlags` | main/adv_post_signals.c:96-133 | What the signals set in the state of the posting task; that the first time synchronisation clears the table is in Delivery |
| `PostTask.Task.HandleSignal` | main/adv_post_signals.c:450-484 | Every signal keeps the invariants of the posting task |
| `Relaying.FlagFollowsCounter` | main/gw_status.c:321-464 | MAIN. For any number of interleaved threads: when no notification is on its way, the posting task's relaying flag equals 'not suspended' |
| `Relaying.MqttFollowsCounter` | main/main_loop.c:588-613 | MAIN. The same for MQTT: when no notification of it is on its way, the main task has read that MQTT may run exactly when it is not suspended |
| `Relaying.MatchedCounts` | main/gw_status.c:348-444 | MAIN. With matched calls the counters are what is held, and MQTT suspended implies HTTP suspended |
| `Relaying.UnmatchedCounts` | main/gw_status.c:422-444 | Without matching the implication fails |
| `Relaying.HandledMeansSeen` | main/gw_status.c:283-319 | MAIN. A caller whose wait ends because its command was handled was seen by the posting task, unless it raced with the handler |
| `Relaying.ReturnsWhenHandled` | main/gw_status.c:283-345 | MAIN. A caller that waits and does not give up returns only after it has found what it notified handled: MQTT first, then HTTP |
| `Relaying.RacedWaitEndsEarly` | main/adv_post_signals.c:179-195 | The race: the handler clears the command bit of a caller it has not seen |
| `Relaying.RaceHappens` | main/adv_post_signals.c:179-195 | A run of two threads, each of which takes back only what it holds, reaches that race, and a request is in progress afterwards |
| `Relaying.MisledIff` | main/gw_status.c:283-345 | MAIN. When a waiting caller sets the command bit, it can be told that its command was handled before it was seen exactly when the handler is, at that moment, between an older reading of the counter and the clearing of the bit |
| `Relaying.SuspenderHasTheClient` | main/gw_status.c:406-464 | MAIN. A caller that suspended, waited and did not race has the HTTP client to itself, through all later events, until it calls again |
| `Relaying.SecondSuspenderDoesNotWait` | main/gw_status.c:406-420 | MAIN. A caller that suspends while another one has suspended returns at once; it can meet a request before it calls again exactly when one is in progress, or relaying is still enabled in the posting task and its handler is not about to read the counter; when no notification is on its way it has the client to itself |
| `Relaying.SecondSuspenderMeetsRequest` | main/gw_status.c:406-420 | A run in which it does: a request is in progress, and two threads suspend one after the other |
| `Relaying.MeetsRequestIff` | main/gw_status.c:406-464 | For any thread that holds a suspension: whether it can meet a request before it calls again |
| `Relaying.ThreadAgrees` | main/gw_status.c:321-345 | A step of a thread keeps the flag right or a notification on its way |
| `Relaying.ApplyBitStays` | main/gw_status.c:259-281 | The command bit stays set until the posting task has seen the change |
| `Relaying.ApplyAccounted` | main/gw_status.c:348-444 | The counter is the sum of what the threads hold |
| `GwStatus.Status.SuspendRelaying` | main/gw_status.c:348-364 | Both counters; a notification exactly on an edge between zero and non-zero |
| `GwStatus.Status.ResumeRelaying` | main/gw_status.c:366-404 | The same, ignoring what is not suspended |
| `GwStatus.Status.SuspendHttpRelaying` | main/gw_status.c:406-420 | HTTP alone |
| `GwStatus.Status.ResumeHttpRelaying` | main/gw_status.c:422-444 | HTTP alone |
| `GwStatus.Status.MarkCommands` | main/gw_status.c:321-341 | The command bits are set before the event is sent |
| `FilterCache.TableObeysFilter` | main/adv_post.c:379-441 | MAIN. In every interleaving, while the posting task is outside a handler that changes the configuration, the sensor of every used and every queued report is in the list when an allow list is in force, and is not in it when a deny list is |
| `FilterCache.PutIff` | main/adv_post.c:379-441 | MAIN. Whatever happens between its steps, the receiver puts a message into the table exactly when it is a report with 1 to 48 bytes that the list in force lets pass and time is known if it is used; what it puts is given field by field |
| `FilterCache.PutPasses` | main/adv_post.c:410-433 | A report that passed the filter keeps the table filtered |
| `FilterCache.ReceiverKeeps` | main/adv_post.c:379-441 | The receiver's steps under the lock |
| `FilterCache.TaskKeeps` | main/adv_post_signals.c:269-350 | The handler's steps: lock, drop, set, unlock, clear |
| `FilterCache.Parse` | main/adv_post.c:93-134 | What is parsed: reports with data of 1 to 48 bytes, with their radio parameters, the timestamp and a counter of zero |
| `CfgCache.CfgFilter.IsFilteredOut` | main/adv_post.c:161-193 | The loops drop a sensor exactly when there is a list and the sensor is missing in an allow list or is in a deny list |
| `CfgCache.CfgFilter.Drop` | main/adv_post_signals.c:402-408 | The filter is dropped |
| `CfgCache.CfgFilter.Rebuild` | main/adv_post_signals.c:232-267 | The filter is rebuilt in a loop; without memory nothing is filtered |
| `CfgCache.CfgFilter.OnCfgChange` | main/adv_post_signals.c:274-291 | The filter's part of a configuration change |
| `Download.DocumentCollected` | main/http_download.c:450-524 | MAIN. A response is collected without an error exactly when memory suffices and an announced length is not exceeded; then the buffer holds the concatenated parts and a NUL, whether or not a length was announced |
| `Download.CollectableIff` | main/http_download.c:474-523 | What it takes to collect the parts, seen all at once: memory for every part without an announced length, otherwise memory once and no more bytes than announced |
| `Download.DataHolds` | main/http_download.c:450-524 | One part |
| `Download.ReserveHolds` | main/http_download.c:474-505 | Memory is reserved for it |
| `Download.StoreReserved` | main/http_download.c:506-523 | It is stored below json_buf_size, or refused |
| `Download.HandleCollects` | main/http_download.c:82-149 | The event handler's bookkeeping of the offset |
| `Download.RedirectLengthStays` | main/http_download.c:107-111 | The length n announced by a redirection stays in force for a document without a length of its own, which is collected exactly when there is room for it under n: never when it is longer than n > 0, and for n = 0 exactly when memory suffices; a length of its own replaces n |
| `Download.ResultIsDocument` | main/http_download.c:526-600 | MAIN. A download reports no error exactly when there was room and the codes are 200, and delivers the parts that arrived; it is not checked that they are all: the buffer is full exactly when no length was announced or as much arrived as was announced; on an error it returns the code of the response, of the parts, or 400 |
| `JsonDownload.DownloadInfo.AllocateBuffer` | main/http_download.c:474-491 | The first allocation |
| `JsonDownload.DownloadInfo.GrowBuffer` | main/http_download.c:492-505 | The reallocation |
| `JsonDownload.DownloadInfo.StorePart` | main/http_download.c:506-523 | The bounds check and the copy |
| `JsonDownload.DownloadInfo.OnRecvData` | main/http_download.c:450-524 | The callback |
| `JsonDownload.DownloadClient.OnEvent` | main/http_download.c:82-149 | The event handler |
| `JsonDownload.DownloadClient.ReceiveBody` | main/http_download.c:116-135 | A whole body |
| `ConfigTheorems.LoadAfterSave` | main/gw_cfg_json_generate.c:909-989 | MAIN. For every configuration, base and defaults, what is saved and loaded again is the normal form, in all sections |
| `ConfigTheorems.LoadAfterSaveIsIdempotent` | main/gw_cfg_json_generate.c:1020-1025 | MAIN. Saving and loading is idempotent |
| `ConfigTheorems.NormStable` | main/gw_cfg_json_generate.c:909-989 | The normal form is its own normal form and fits the C types |
| `ConfigTheorems.AddSectionKeeps` | main/gw_cfg_json_generate.c:909-989 | Adding a section does not touch the others |
| `ConfigNormal.HttpRoundTrip` | main/gw_cfg_json_generate.c:343-560 | MAIN. A custom target other than Ruuvi's comes back with its credentials, exactly when its period is below 2^16; a target equal to Ruuvi's comes back as Ruuvi-only; none stays none |
| `ConfigNormal.HttpLoads` | main/gw_cfg_json_parse_http.c:165-226 | MAIN. Saving and loading the HTTP section gives its normal form |
| `ConfigNormal.HttpStable` | main/gw_cfg_json_parse_http.c:206-215 | Folding into the Ruuvi switch is stable |
| `ConfigNormal.HiddenHttpSecretsKept` | main/gw_cfg_json_parse_http.c:92-150 | MAIN. A document that comes back without the secrets leaves them as they are |
| `ConfigNormal.EmptyDocument` | main/gw_cfg_json_parse.c:47-69 | What a document without entries changes: formats and credentials of a target in use, the MQTT names, and what follows from the defaults |
| `ConfigNormal.StoredReadBack` | main/gw_cfg_json_parse_http.c:92-150 | Credentials copied into the union are read back |
| `ConfigNormal.RemoteLoads` | main/gw_cfg_json_parse_remote.c:71-159 | The remote section: token and API key become none; a changed type clears the memory |
| `ConfigNormal.RemoteRoundTrip` | main/gw_cfg_json_parse_remote.c:71-159 | MAIN. Everything comes back, but the credentials exactly when they are neither a token nor an API key, which become none |
| `ConfigNormal.RemoteStable` | main/gw_cfg_json_parse_remote.c:94-121 | Its normal form is stable |
| `ConfigNormal.MqttLoads` | main/gw_cfg_json_parse_mqtt.c:59-153 | The MQTT section: empty prefix and client id become the defaults, certificates count only if used |
| `ConfigNormal.MqttRoundTrip` | main/gw_cfg_json_parse_mqtt.c:59-153 | Everything comes back but an interval of 2^16 or more, an empty prefix or client id, and the certificates of an unused target |
| `ConfigNormal.MqttStable` | main/gw_cfg_json_parse_mqtt.c:94-133 | Its normal form is stable |
| `ConfigNormal.LanLoads` | main/gw_cfg_json_parse_lan_auth.c:55-112 | The LAN section: default credentials are recognised either way, and no others |
| `ConfigNormal.LanRoundTrip` | main/gw_cfg_json_parse_lan_auth.c:55-112 | Passwords of the three password types come back, Ruuvi's credentials are marked as the default exactly when they are the default ones, the default type takes the default credentials, the other types come back without; API keys come back |
| `ConfigNormal.LanStable` | main/gw_cfg_json_parse_lan_auth.c:87-92 | Its normal form is stable |
| `ConfigNormal.ScanLoads` | main/gw_cfg_json_parse_scan.c:33-121 | The scan section: the named default takes the default settings |
| `ConfigNormal.OldScanLoads` | main/gw_cfg_json_parse_scan.c:33-120 | What becomes of a document from before 1.16, over any base: the default over a base that is marked as the default, otherwise its settings, marked when they look like the default |
| `ConfigNormal.OldScanSurvives` | main/gw_cfg_json_parse_scan.c:33-120 | MAIN. The settings of an old document survive exactly over a base without the mark, unless they look like the default, or where they equal the default |
| `ConfigNormal.OldScanLostAtStartup` | main/settings.c:173-201 | Over the base of the start-up, the default configuration of main/gw_cfg_default.c:107-115, they survive exactly when they are the default ones; with coded PHY on they are lost |
| `ConfigNormal.StatLoads` | main/gw_cfg_json_parse_http_stat.c:32-80 | The statistics section |
| `ConfigNormal.NtpLoads` | main/gw_cfg_json_parse_ntp.c:53-75 | The time section: servers are kept only when they are used |
| `ConfigNormal.UpdateLoads` | main/gw_cfg_json_parse_auto_update.c:33-82 | The automatic updates come back unchanged |
| `ConfigNormal.FilterLoads` | main/gw_cfg_json_parse_filter.c:32-43 | The company filter comes back unchanged |
| `ConfigNormal.ScanFilterLoads` | main/gw_cfg_json_parse_scan_filter.c:32-60 | The listed sensors come back; unused entries are those of the base |
| `ConfigNormal.EthLoads` | main/gw_cfg_json_parse_eth.c:54-72 | The Ethernet section: addresses are kept only when they are used |
| `ConfigNormal.WifiLoads` | main/gw_cfg_json_parse_wifi.c:33-79 | The Wi-Fi section: channel 0 becomes 1 |
| `ConfigJson.NumbersNarrow` | main/cjson_wrap.c:134-168 | A uint32_t written as a number is read back exactly when it is below 2^16; narrowing is stable |
| `ConfigJson.NumberReadAs` | main/cjson_wrap.c:134-152 | What any number is read as by the 32-bit getter |
| `JsonNumbers.TextsReadBack` | main/cjson_wrap.c:153-168 | MAIN. A number given as a text is read as what its decimal digits, or its hexadecimal digits behind 0x, denote, limited to 32 bits and not narrowed |
| `JsonNumbers.TextTakenIff` | main/cjson_wrap.c:153-168 | MAIN. A text is taken exactly when it consists of decimal digits, or of at least one hexadecimal digit behind 0x |
| `JsonNumbers.SmallTexts` | main/cjson_wrap.c:190-274 | A smaller number is only taken from a hexadecimal text, when it is in range; what follows the digits is ignored |
| `ConfigJson.GetSmall` | main/cjson_wrap.c:170-274 | A smaller number is taken exactly when it is in range; otherwise, or when it is missing, the value stays as it was, and it is in range in any case |
| `ConfigJson.BasicReadBack` | main/gw_cfg.h:194-216 | User and password do not disturb each other in the union |
| `ConfigJson.ReadWritten` | main/cjson_wrap.c:90-105 | A text copied into a buffer that has room for it is read back |
| `ConfigTypes.AuthReadBack` | main/gw_cfg_json_parse_http.c:59-90 | The texts of authentication types are told apart |
| `ConfigTypes.FormatReadBack` | main/gw_cfg_json_parse_http.c:34-57 | So are those of data formats |
| `ConfigTypes.MqttFormatReadBack` | main/gw_cfg_json_parse_mqtt.c:34-57 | So are those of MQTT data formats |
| `ConfigLoad.RemoteAuthReadBack` | main/gw_cfg_json_parse_remote.c:94-121 | The remote section knows only two kinds of credentials |
| `ConfigParser.AuthUnion.CopyString` | main/cjson_wrap.c:90-105 | Copying into the union, truncated and terminated |
| `ConfigParser.HttpSection.Parse` | main/gw_cfg_json_parse_http.c:165-226 | The HTTP parser in place |
| `ConfigParser.HttpSection.ParseAuth` | main/gw_cfg_json_parse_http.c:92-150 | Its credentials |
| `ConfigParser.HttpSection.FoldTarget` | main/gw_cfg_json_parse_http.c:206-215 | A target like Ruuvi's turns into the switch for it |
| `ConfigParser.RemoteSection.Parse` | main/gw_cfg_json_parse_remote.c:71-159 | The remote parser in place |
| `ConfigParser.RemoteSection.ParseAuth` | main/gw_cfg_json_parse_remote.c:86-145 | Its credentials |
| `ConfigParser.LanSection.Parse` | main/gw_cfg_json_parse_lan_auth.c:55-112 | The LAN parser in place |
| `ConfigParser.ScanSection.Parse` | main/gw_cfg_json_parse_scan.c:33-121 | The scan parser in place |
| `ConfigParser.ScanSection.Convert` | main/gw_cfg_json_parse_scan.c:93-119 | Its conversion of old documents |
| `ConfigParser.MqttSection.Parse` | main/gw_cfg_json_parse_mqtt.c:59-153 | The MQTT parser in place |
| `ConfigParser.MqttSection.ParseName` | main/gw_cfg_json_parse_mqtt.c:94-133 | A name that may be missing or empty |
| `ConfigParser.NtpSection.Parse` | main/gw_cfg_json_parse_ntp.c:53-75 | The time parser in place |

## Left out

- AdvTable.Put: the lock of the table is not modelled; each operation is one step, as the lock makes it.
- AdvReads.HistoryIsFilter: the clock is a parameter, and times are `uint32_t` values; what `time_t` adds beyond that range is not part of this model.
- OtaOps.OtaTable.Begin: a second session on a partition that already has one is allowed, as in the code, but the contents of the flash are then stated only for the session that was written last.
- OtaWriter.OtaEntry.Append: a failed write leaves the flash as it was; how much of it a real chip may have programmed is not part of this model.
- FwUpdate.OnlyTargetsTouched: encryption of data partitions, progress reports and the flashing of the nRF52 chip itself are not modelled; the last is a parameter that says whether it worked.
- FwHistory.OneReleaseRuns: a rollback by the boot loader is not modelled; the gateway restarts from its boot partition.
- AsyncTheorems.SemaphoreGuardsRequests: requests that other threads make with the same HTTP client, to check a configuration, are covered by `SuspenderHasTheClient` instead, on the model of suspending and resuming.
- AsyncTheorems.BatchOutcome: the encoding of messages is not modelled.
- Delivery.RequestCarries: what the server makes of a request that was started is not modelled; reports of a request that fails after its start are not sent again, as in the code. The statistics read is a step of its own.
- PostTask.Task.OnFlags: timers, LEDs, watchdogs and the network watchdog only appear as signals.
- Relaying.FlagFollowsCounter: the counters are unbounded; overflow of `int32_t` would need 2^31 suspensions.
- Relaying.MqttFollowsCounter: a notification reaches the posting task and the main task in one step; whether MQTT is used at all, and how it is started and stopped, is not modelled.
- GwStatus.Status.MarkCommands: the event group's other bits are not modelled.
- FilterCache.TableObeysFilter: a handler that finds no memory for the filter restarts the gateway, which ends the run.
- Download.DocumentCollected: an allocation of 2^31 bytes or more always fails.
- ConfigJson.GetSmall: texts with signs or leading blanks, and values that are neither numbers nor texts, leave a number as it was.
- ConfigNormal.ScanFilterLoads: lists of more than 100 sensors are not modelled; the texts of sensor addresses are taken to be read back as they were written.
- ConfigNormal.LanLoads: the texts of LAN authentication types come from the web server library, which is not part of this model; they are taken to be distinct, and what it makes of other texts is a parameter.
- ConfigTheorems.LoadAfterSave: the text form of JSON is not modelled; a document is a map from names to values, without the duplicate names and the letter case that a JSON text may have.
- The document for the user interface, which hides passwords, and the device information are not modelled.
- The HTTP, TLS and MQTT clients, mbedTLS, the nonvolatile storage and the file systems are external.
- The decoding of advertisements, the generation of posted JSON, statistics and LED patterns are not modelled.
- The comparison and logging of configurations, and the getters of single settings, would add easy members only.
