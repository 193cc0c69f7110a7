# Verification of the BLE manager

A Dafny model of the five stateful parts of the BLE manager library under `src/ble_mgr`, with proofs of
what they keep over whole runs.

**GATT client, requests** (`Scheduler`, `SchedulerSafety`, `SchedulerFairness`, `SchedulerOrphans`,
`SchedulerAnswers`, `GattcLink`). A link multiplexes queued requests over its ATT bearers, one outstanding request per bearer (Bluetooth Core
Specification, Vol 3 Part F, section 3.3.2). Events are submissions, responses, bearers coming, changing
and going, restarts of discovery and release. The stack's answers are an arbitrary function of how many
commands it was given.

**GATT client, database** (`Attributes`, `ServiceTable`, `DiscoveryList`, `IncludeLoop`, `DiscoveryWalk`,
`DiscoveryOrder`, `DiscoveryLayout`, `DiscoveryHolds`, `Queries`, `TableQueries`, `TableLoad`, `TableKeeps`, `TableFormat`, `CccdTable`, `CccdConfig`, `Storage`,
`GattcDiscovery`, `GattClient`). Discovery (Vol 3 Part G, sections 4.4.1, 4.5.1, 4.6.1 and 4.7.1) fills a
list, the list is sized and packed into one flat table, stored tables are loaded, queries read the table,
and CCCD values are requested and kept for it. The bytes are modelled one by one.

**Extended advertising** (`AdvActions`, `AdvSerializer`, `AdvOrder`, `AdvCommands`, `AdvReports`, `ExtAdv`). One command
in flight over all sets, a bounded queue of actions behind it, and the completions that serve the queue.

**GATT server data** (`ServerQueues`, `ServerOrder`, `ServerNotes`, `ServerTaken`, `ServerConfirm`, `ServerStalls`,
`GattServer`). Indications per link, one outstanding; notifications in one global queue, limited by credits.

**Scanning** (`ScanMerge`, `ScanMachine`, `ScanCommands`, `BleScan`). Clients share one scan with merged parameters, which
restarts when the merge changes.

## How it is built

Each part has a module of functions on values that say what every operation does, modules of lemmas about
these functions and about all runs of events, and a class whose fields are those of the C record and whose
methods follow the C code's order of statements, with its loops and early exits. Every
method is proved to take the record to the state its function gives. `Widths` holds the truncating stores.

Calls into the stack are answered by functions from the number of calls so far to an answer, so every
theorem holds for every pattern of acceptance and refusal. What the stack reports arrives as events; a
`Legal` predicate in each part says what it may report. Fields named `issued`, `resolved`, `sent`, `taken`,
`accepted`, `seen` and `calls` are traces for stating properties; the C code has no counterpart for them.

Bounds are those of the C code: a list that is walked with an 8-bit index holds at most 255 elements, the
packed table is at most 65535 bytes, the action queue holds 50 entries. Where a loop with an 8-bit index
also ends on some longer lists, the bound is the exact one (`IncludeLoop.SecondaryEnds` for includes,
`GattServer.Queues.DeleteNotes` for notifications).

## Where the code differs from what one would expect

Each of these is modelled as the code has it. The members named say exactly when, and most give an input.

- A write longer than 0xFFFC bytes wraps in the size test (`SchedulerFairness.SizeTestIsExact`).
- Restarting discovery drops waiting requests but leaves their bearers busy, for good
  (`SchedulerSafety.BusyMatchesWaiting`, `SchedulerOrphans.OrphanStays`, `SchedulerOrphans.OrphanedLinkSilent`).
- The loop on bearer loss skips the element after each deletion; it misses nothing only because a bearer
  has one request (`GattcLink.SingleLoss`).
- An include that is not wanted ends the loop over its service's includes, so a wanted one behind it is
  lost unless another service reaches it (`DiscoveryList.SecondaryExactly`, `DiscoveryList.WantedIncludes`,
  `DiscoveryList.WantedIncludeLost`).
- A service with 256 includes can keep the loop over them running for ever (`IncludeLoop.IncludeLoopEnds`,
  `IncludeLoop.SecondaryEnds`, `IncludeLoop.EndlessIncludes`).
- A handle in a 16-bit characteristic is attributed to a 128-bit one if the service has any
  (`Queries.CharDescOfOwner`, `Queries.AllOwnersReported`).
- Reconfiguring an enabled advertising set can leave its start queued with nothing in flight
  (`AdvSerializer.StepSerial`, `AdvSerializer.StrandedExample`), and queues only part of its sequence when
  the queue is nearly full (`AdvCommands.SequenceQueued`, `AdvCommands.SequenceCutShort`).
- Creating an advertising set reports success when the table is full (`AdvCommands.CreateExactly`,
  `AdvCommands.FullTableCreates`).
- A completion carries no PDU type, so a notification's completion can end an outstanding indication of the
  same attribute (`ServerConfirm.IndicationsConfirmed`, `ServerConfirm.CompleteFreesEarly`,
  `ServerConfirm.MistakenRun`).
- Indications may wait with none outstanding after a moment without credit (`ServerStalls.IndicationsServed`,
  `ServerStalls.StepServed`, `ServerStalls.StallingRun`), until the next completion (`ServerStalls.StalledRecovers`).
- An indication that waits does not keep its bearer (`ServerStalls.CidNotKept`).
- A disconnection removes one indication record (`ServerNotes.DisconnectExactly`, `ServerNotes.SharedIdKept`).
- Pausing, changing parameters and resuming while a scan starts leaves the old parameters on air
  (`ScanMachine.StepCoherent`, `ScanMachine.PauseChangeResume`).

## Model

| member | source | states |
|---|---|---|
| `SchedulerSafety.BearerExclusivity` | src/ble_mgr/bt_gatt_client.c:697-767 | in every state of every run the busy count equals the number of busy bearers, bearer ids are distinct, every waiting request is the one last sent on a busy bearer of its own, and every accepted request is queued, waiting or ended exactly once; if no discovery was restarted with a request outstanding, every busy bearer also has its waiting request |
| `SchedulerSafety.StepKeeps` | src/ble_mgr/bt_gatt_client.c:191-275 | every submission, response, bearer and MTU event, restart and release keeps the three records of an outstanding request in agreement |
| `SchedulerSafety.RestartOnto` | src/ble_mgr/bt_gatt_client.c:359-399 | restarting discovery leaves a bearer busy with no request behind it exactly when a request was waiting |
| `SchedulerSafety.BusyMatchesWaiting` | src/ble_mgr/bt_gatt_client.c:359-399 | over every run, busy bearers and waiting requests match in every state exactly when no discovery is restarted with a request outstanding |
| `SchedulerOrphans.RestartOrphans` | src/ble_mgr/bt_gatt_client.c:359-399 | a restart orphans exactly the bearers of the waiting requests |
| `SchedulerOrphans.OrphanStays` | src/ble_mgr/bt_gatt_client.c:191-275 | an orphaned bearer stays busy through every run until it is deleted or the link released |
| `SchedulerOrphans.OrphanedLinkSilent` | src/ble_mgr/bt_gatt_client.c:697-767 | a link whose only bearer is orphaned gives the stack nothing more, whatever is submitted, until that bearer ends or another is added |
| `SchedulerSafety.StepConserves` | src/ble_mgr/bt_gatt_client.c:597-622 | no event loses, duplicates or twice resolves a request: queued, waiting and ended occurrences still add up to one |
| `SchedulerSafety.ResponseAttribution` | src/ble_mgr/bt_gatt_client.c:277-328 | a response that matches a waiting request matches the only one on that bearer, which is the one last issued there, and ends exactly that one |
| `SchedulerAnswers.AnswerEnds` | src/ble_mgr/bt_gatt_client.c:277-328 | the answer to any waiting request (a read, a write or CCCD write with its handle, a read by UUID with a handle in its range or failed without one, on its bearer) ends exactly that request, frees its bearer, and the queue is served |
| `SchedulerAnswers.StrayIgnored` | src/ble_mgr/bt_gatt_client.c:277-328 | any other response changes nothing |
| `SchedulerAnswers.CommandsAsAsked` | src/ble_mgr/bt_gatt_client.c:1217-1364 | over every run, each command given to the stack, and each request queued or waiting, is the one submitted under its number, with its kind and handle |
| `SchedulerAnswers.BearerReported` | src/ble_mgr/bt_gatt_client.c:2096-2131 | a bearer that comes or changes has the size reported, is new at the end if unknown, and the others are as they were |
| `SchedulerAnswers.BearerLost` | src/ble_mgr/bt_gatt_client.c:2133-2176 | losing a bearer removes it alone and ends what waits on it as lost; a BR/EDR link goes with its last one |
| `SchedulerAnswers.RequestsReleased` | src/ble_mgr/bt_gatt_client.c:359-399 | a restart and a release end every request as released, queued ones first |
| `SchedulerAnswers.FirstWrites` | src/ble_mgr/bt_gatt_client.c:191-209 | a new LE link carries writes of up to 20 bytes, and those whose length wraps |
| `SchedulerSafety.DeleteKeeps` | src/ble_mgr/bt_gatt_client.c:2133-2176 | losing a bearer keeps the agreement for the remaining ones |
| `SchedulerSafety.DispatchKeeps` | src/ble_mgr/bt_gatt_client.c:697-767 | one pass over the queue keeps the agreement, for any pattern of refused commands |
| `SchedulerFairness.WorkConservation` | src/ble_mgr/bt_gatt_client.c:154-173 | after every event of every run no queued request fits any free bearer |
| `SchedulerFairness.StepWorks` | src/ble_mgr/bt_gatt_client.c:2096-2191 | each single event re-establishes this |
| `SchedulerFairness.SizeTestIsExact` | src/ble_mgr/bt_gatt_client.c:716-721 | the 16-bit sum of length and header admits a write to exactly the bearers that can carry it if and only if the length is at most 0xFFFC; above, it wraps |
| `SchedulerFairness.BoundedOvertaking` | src/ble_mgr/bt_gatt_client.c:707-766 | over whole runs, a request queued behind another that needs no more room is never handed over first |
| `SchedulerFairness.NonWritesAreFifo` | src/ble_mgr/bt_gatt_client.c:707-766 | requests other than writes are handed over in the order they were queued |
| `GattcLink.Link.FindUnused` | src/ble_mgr/bt_gatt_client.c:154-173 | finds the first free bearer that admits the size, or none |
| `GattcLink.Link.FindByCid` | src/ble_mgr/bt_gatt_client.c:175-189 | finds the first bearer with the id, or none |
| `GattcLink.Link.FindWaitRsp` | src/ble_mgr/bt_gatt_client.c:277-328 | the search whose answer ResponseAttribution shows to be unique; its handle changes in mid-search when a failed read by UUID reports none |
| `GattcLink.Link.CheckReq` | src/ble_mgr/bt_gatt_client.c:697-767 | the loop with index and shrinking queue makes exactly one pass over the queue, for which WorkConservation and BoundedOvertaking hold, and never runs past it |
| `GattcLink.Link.DelWaitRsp` | src/ble_mgr/bt_gatt_client.c:249-275 | the answered request goes, its bearer is free and counted out, and the queue is served |
| `GattcLink.Link.Submit` | src/ble_mgr/bt_gatt_client.c:1217-1364 | the loop appends the requests in order, and the queue is then served once |
| `GattcLink.Link.LoseWaiting` | src/ble_mgr/bt_gatt_client.c:2146-2162 | the loop that skips the element after a deleted one still removes every request of the lost bearer, because there is at most one |
| `GattcLink.Link.HandleChannelDeleted` | src/ble_mgr/bt_gatt_client.c:2133-2176 | a lost bearer ends its request as lost, is counted out if it was busy, and is removed |
| `GattcLink.Link.ReqListFree` | src/ble_mgr/bt_gatt_client.c:359-399 | the loops empty both request lists, each request ended as released, with the bearers left as they were |
| `GattcLink.SingleLoss` | src/ble_mgr/bt_gatt_client.c:2146-2162 | with distinct bearers among the waiting requests, removing the one found is removing all of the lost bearer |
| `TableLoad.CacheRefinement` | src/ble_mgr/bt_gattc_storage.c:1332-1584 | for every well-formed, bound discovery list that fits, loading the packed bytes succeeds, ends exactly at the table length, counts the same CCCDs and reads back the discovered database |
| `TableKeeps.CacheKeeps` | src/ble_mgr/bt_gattc_storage.c:498-652 | the cached database has the services of the list in order, of each all includes and all characteristics in order, split by UUID width, each with its properties, value, UUID and CCCD, and its end at the last descriptor; its CCCD count is that of the characteristics discovered with one |
| `TableKeeps.LoadKeeps` | src/ble_mgr/bt_gattc_storage.c:1332-1584 | what is packed and loaded again keeps the discovered list in this sense |
| `TableFormat.LoadSound` | src/ble_mgr/bt_gattc_storage.c:1399-1545 | whatever bytes loading accepts are a gapless chain of wanted services that fills the table, with entries of the types their tables are for |
| `TableFormat.SrvFormat` | src/ble_mgr/bt_gattc_storage.c:507-551 | the bytes of a packed service, offset by offset |
| `TableFormat.CharFormat` | src/ble_mgr/bt_gattc_storage.c:578-626 | the bytes of a packed characteristic with its CCCD, offset by offset |
| `TableLoad.ParsePacked` | src/ble_mgr/bt_gattc_storage.c:1399-1535 | the loader, started anywhere a packed database begins, rebuilds its control blocks at the offsets the packer used |
| `TableLoad.PackInjective` | src/ble_mgr/bt_gattc_storage.c:498-652 | two databases with the same bytes are the same database |
| `ServiceTable.ReadPacked` | src/ble_mgr/bt_gattc_storage.c:498-652 | reading a packed database through its control blocks gives it back, entry by entry |
| `ServiceTable.ReadPackedSrv` | src/ble_mgr/bt_gattc_storage.c:498-652 | one service's control block points inside the table and reads back the service |
| `ServiceTable.SplitSrv` | src/ble_mgr/bt_gattc_storage.c:507-551 | declaration, counters and entry tables of a packed service follow each other without gap or overlap |
| `ServiceTable.SplitTables` | src/ble_mgr/bt_gattc_storage.c:528-551 | the four entry tables of a service tile the rest of its region |
| `ServiceTable.PackSize` | src/ble_mgr/bt_gattc_storage.c:462-489 | the size computed from the counters is the number of bytes written |
| `Storage.Record.GetSrvInstanceId` | src/ble_mgr/bt_gattc_storage.c:9-45 | the instance id is the number of listed services with this UUID, in 8 bits |
| `Storage.Record.AddPrimaryService` | src/ble_mgr/bt_gattc_storage.c:84-150 | a wanted service is appended with the next instance id of its UUID, any other is ignored |
| `Storage.Record.FindIncluded` | src/ble_mgr/bt_gattc_storage.c:173-210 | finds the listed service an include points at |
| `Storage.Record.AddIncludedServices` | src/ble_mgr/bt_gattc_storage.c:166-262 | whenever the loop with its 8-bit index ends, by IncludeLoop.IncludeLoopEnds, one service's includes are added up to the first that is neither listed nor wanted |
| `Storage.Record.AddSecondaryService` | src/ble_mgr/bt_gattc_storage.c:152-273 | whenever the loops end, by IncludeLoop.SecondaryEnds, the list becomes AddSecondary of the old one, for which SecondaryClosure holds; the result says whether it grew |
| `Storage.Record.SrvListRelease` | src/ble_mgr/bt_gattc_storage.c:388-412 | table, control blocks and CCCD slots go, the discovery list stays |
| `Storage.Record.TableSizeOf` | src/ble_mgr/bt_gattc_storage.c:462-489 | the sizing pass gives the length of the packed database and never wraps |
| `Storage.Record.FillHeader` | src/ble_mgr/bt_gattc_storage.c:507-526 | declaration and counters land at the running index, nothing before it changes |
| `Storage.Record.FillTables` | src/ble_mgr/bt_gattc_storage.c:552-626 | a queue is distributed over its two tables in order, each holding exactly its entries |
| `Storage.Record.FillSrv` | src/ble_mgr/bt_gattc_storage.c:498-640 | a service's region is filled exactly, its control block is the one Layout says and reads back everything discovered of it, and exit 4 cannot be taken |
| `Storage.Record.FillTable` | src/ble_mgr/bt_gattc_storage.c:498-640 | the fill pass writes exactly the packed database and empties the list; exits 1 and 5 cannot be taken |
| `Storage.Record.SrvListGen` | src/ble_mgr/bt_gattc_storage.c:446-675 | the record afterwards reads as the cached database, keeping all that was discovered as in CacheKeeps, with as many empty slots as characteristics with a CCCD; exit 6 cannot be taken |
| `Storage.Record.CheckRows` | src/ble_mgr/bt_gattc_storage.c:1479-1530 | finds whether all entries of a table have its type, and counts their CCCDs |
| `Storage.Record.LoadSrv` | src/ble_mgr/bt_gattc_storage.c:1399-1535 | parses one service or names the reason it cannot |
| `Storage.Record.RestoreCccd` | src/ble_mgr/bt_gattc_storage.c:1546-1565 | saved bytes of any length are copied over the zeroed slots when they fit, otherwise the slots are empty |
| `Storage.Record.LoadTable` | src/ble_mgr/bt_gattc_storage.c:1388-1543 | the loop over the stored bytes ends with exactly the control blocks Parse gives and their CCCD count in 8 bits, or with no table and its error |
| `Storage.Record.Load` | src/ble_mgr/bt_gattc_storage.c:1332-1584 | loads exactly what storage gives for the address, or for the hash, and Parse accepts, with the CCCD slots restored; otherwise leaves no table and names the error |
| `Storage.Record.GetCccdData` | src/ble_mgr/bt_gattc_storage.c:1643-1656 | the bits last stored for the handle, or the default |
| `Storage.Record.SetCccdData` | src/ble_mgr/bt_gattc_storage.c:1712-1744 | stores the bits under the handle, in its slot or the first empty one, and says whether anything changed |
| `Storage.SaveThenLoad` | src/ble_mgr/bt_gattc_storage.c:1658-1691 | saving a record's table and CCCD values and loading them into a fresh record gives the same database and the same bits for every handle |
| `Storage.PackThenLoad` | src/ble_mgr/bt_gattc_storage.c:446-675 | generating on one record and loading its table into another gives the same database, control blocks and CCCD count |
| `Storage.ParseCounts` | src/ble_mgr/bt_gattc_storage.c:1399-1555 | the CCCD count that loading keeps is that of the database it restores, for any stored bytes it accepts |
| `Storage.FillBounds` | src/ble_mgr/bt_gattc_storage.c:498-652 | the counters kept during discovery place every part of a service inside its region |
| `CccdConfig.CccdReadsLastStored` | src/ble_mgr/bt_gatt_client.c:1008-1125 | over every run of a link, through discoveries and configurations, every CCCD request under way names a CCCD of the current database, and every handle reads as last stored or as it was restored when the database came |
| `CccdConfig.StoredByAnswer` | src/ble_mgr/bt_gatt_client.c:1910-1917 | bits are stored by nothing but the successful answer to the CCCD request that carries them, under its own handle |
| `CccdConfig.SelectedExactly` | src/ble_mgr/bt_gatt_client.c:1032-1058 | a write is among those of a table exactly if it configures one of its entries: to its CCCD, with the bits asked for and allowed |
| `CccdConfig.EnablingExactly` | src/ble_mgr/bt_gatt_client.c:980-1101 | of a service's characteristics exactly those are written that have a CCCD, are asked for, and allow notifying or indicating and some of what is asked: one write each in table order, bit 0 for notifications asked and allowed, bit 1 for indications |
| `CccdConfig.AskedExactly` | src/ble_mgr/bt_gatt_client.c:1008-1125 | a configuration request submits exactly these writes as CCCD requests; without a database or the service it does nothing |
| `CccdConfig.DatabaseLost` | src/ble_mgr/bt_gatt_client.c:359-399 | a restarted discovery and a released link leave no database and no slots |
| `CccdConfig.DatabaseComes` | src/ble_mgr/bt_gattc_storage.c:653-668 | a discovered database comes with every handle reading zero, a loaded one with the slots saved |
| `CccdConfig.EnablingWithin` | src/ble_mgr/bt_gatt_client.c:1030-1101 | every handle so written is a CCCD handle of the database |
| `CccdConfig.SavedSlots` | src/ble_mgr/bt_gattc_storage.c:1546-1565 | what the slots hold after any run fits its database again when it is saved and loaded |
| `CccdConfig.SavedThenLoaded` | src/ble_mgr/bt_gattc_storage.c:1658-1691 | what any run leaves in the slots, saved as bytes and loaded for the same database by any client, is a load the CCCD theorem covers, and every handle reads the same |
| `CccdTable.RestoredFor` | src/ble_mgr/bt_gattc_storage.c:1546-1565 | slots that are empty or restored from bytes saved for the database have distinct handles of it and are as many as it has CCCDs |
| `CccdTable.RestoredBack` | src/ble_mgr/bt_gattc_storage.c:1558-1565 | saved slots come back from their bytes, followed by empty ones |
| `GattClient.Configurator.FinishDiscovery` | src/ble_mgr/bt_gatt_client.c:1735-1750 | discovery completes with the cached database and empty slots, as the event Discovered of CccdReadsLastStored has it |
| `GattClient.Configurator.LoadFromStorage` | src/ble_mgr/bt_gatt_client.c:822-833 | a load that succeeds gives the stored database and restored slots, as the event Loaded has it |
| `GattClient.Configurator.Select` | src/ble_mgr/bt_gatt_client.c:1032-1064 | the loop over one characteristic table collects the requests for exactly the chosen entries, in order |
| `GattClient.Configurator.EnableCharCccd` | src/ble_mgr/bt_gatt_client.c:1008-1125 | finds the service in the table, queues the requests for its chosen CCCDs and serves the queue; a client without database or service does nothing |
| `GattClient.Configurator.HandleWriteResult` | src/ble_mgr/bt_gatt_client.c:1888-1933 | the answer to a CCCD write has its bits stored when it succeeded, and ends the request |
| `CccdTable.CccdTableIsAMap` | src/ble_mgr/bt_gattc_storage.c:1712-1744 | the table by itself: written through CCCD handles of the database it behaves as a map |
| `CccdTable.AlwaysRoom` | src/ble_mgr/bt_gattc_storage.c:1712-1744 | by pigeonhole a write always finds its slot or an empty one |
| `CccdTable.StoreThenLookup` | src/ble_mgr/bt_gattc_storage.c:1643-1656 | a write changes what is read for its handle and for no other |
| `CccdTable.NeverDrops` | src/ble_mgr/bt_gattc_storage.c:1712-1744 | no sequence of writes to at most as many handles as slots loses one |
| `DiscoveryList.SecondaryClosure` | src/ble_mgr/bt_gattc_storage.c:152-273 | adding included services keeps the old list as a prefix, appends only fresh wanted services, adds nothing when repeated, and closes the list under inclusion exactly when every include is listed or wanted |
| `DiscoveryList.SecondaryExactly` | src/ble_mgr/bt_gattc_storage.c:166-262 | a service is listed afterwards exactly when it was listed before, or is wanted and some service's includes reach one that points at it: those before it are all wanted or listed |
| `DiscoveryList.AddIncludedExactly` | src/ble_mgr/bt_gattc_storage.c:166-262 | the same for one service's includes, with the early exit at the first that is neither wanted nor listed |
| `DiscoveryList.WantedIncludes` | src/ble_mgr/bt_gattc_storage.c:152-273 | no wanted include is lost exactly when each is listed already or reached by some service |
| `DiscoveryList.WantedIncludeLost` | src/ble_mgr/bt_gattc_storage.c:219-224 | a discovered service with an unwanted include before a wanted one, and the wanted one is lost |
| `IncludeLoop.IncludeLoopEnds` | src/ble_mgr/bt_gattc_storage.c:166-262 | the loop over one service's includes, with its 8-bit index, ends exactly when there are at most 255 or one of the first 256 is neither wanted nor listed, and then does what the unbounded loop does |
| `IncludeLoop.SecondaryEnds` | src/ble_mgr/bt_gattc_storage.c:159-271 | so adding included services ends exactly when this holds of every listed service, judged by the list it starts with |
| `IncludeLoop.EndlessIncludes` | src/ble_mgr/bt_gattc_storage.c:166-262 | 256 includes of a listed service are never done |
| `DiscoveryList.AddIncludeOk` | src/ble_mgr/bt_gattc_storage.c:275-330 | adding an include keeps the counters equal to the queues they count |
| `DiscoveryList.AddCharOk` | src/ble_mgr/bt_gattc_storage.c:332-386 | adding a characteristic keeps the counters and the instance ids |
| `DiscoveryList.NewSrvOk` | src/ble_mgr/bt_gattc_storage.c:84-150 | appending a service with its next instance id keeps the list keyed |
| `Queries.ServiceKey` | src/ble_mgr/bt_gattc_storage.c:1066-1108 | through add and pack, asking for (UUID, k) finds the k-th service of that UUID, exactly when k is below the reported number |
| `Queries.CharacteristicKey` | src/ble_mgr/bt_gattc_storage.c:1158-1203 | the same for the characteristics of one service |
| `Queries.FindIsKth` | src/ble_mgr/bt_gattc_storage.c:1066-1108 | first match by UUID and instance id is the k-th by UUID |
| `TableQueries.GetSrvNum` | src/ble_mgr/bt_gattc_storage.c:932-968 | the loop over the service list counts the services of the database with this UUID |
| `TableQueries.FindSrvByUuid` | src/ble_mgr/bt_gattc_storage.c:1066-1108 | the loop finds the first service of the database with UUID and instance id |
| `TableQueries.FindSrvByHandle` | src/ble_mgr/bt_gattc_storage.c:970-988 | the loop finds the first service of the database whose range holds the handle |
| `TableQueries.FindCharByUuid` | src/ble_mgr/bt_gattc_storage.c:1158-1203 | the loop over the packed entries finds the first characteristic with UUID and instance id |
| `TableQueries.GetCharNum` | src/ble_mgr/bt_gatt_client.c:2586-2634 | zero without a database or service, otherwise the loop counts the characteristics with this UUID |
| `TableQueries.FindCharDesc` | src/ble_mgr/bt_gattc_storage.c:990-1064 | the two loops over the packed entries answer with the kind and characteristic CharDesc says |
| `Queries.HandleAttribution` | src/ble_mgr/bt_gattc_storage.c:970-1064 | in a database of disjoint, partitioned services, looking up a handle's service and then its characteristic finds the one service and the role of the one characteristic whose range holds it |
| `Queries.CharDescOfOwner` | src/ble_mgr/bt_gattc_storage.c:990-1064 | a handle in a characteristic's range is answered as its value, its CCCD or another descriptor, as it is, and with the right characteristic exactly when that one is 128-bit or the service has no 128-bit characteristic; otherwise the first 128-bit one is reported |
| `Queries.CharDescFinds` | src/ble_mgr/bt_gattc_storage.c:990-1064 | a handle is found exactly when some characteristic's range holds it |
| `Queries.AllOwnersReported` | src/ble_mgr/bt_gattc_storage.c:1006-1059 | a service answers every handle with its owner exactly when it does not mix UUID widths |
| `Queries.HandlePartition` | src/ble_mgr/bt_gattc_storage.c:578-613 | ordered discovery packs ranges that are disjoint, inside the service, and hold their own CCCD |
| `DiscoveryWalk.WalkCovers` | src/ble_mgr/bt_gatt_client.c:1633-1750 | a walk that reports completion has asked, in order, for relations once per primary, characteristics once per primary and added secondary service, and descriptors once per characteristic with room, and no more |
| `DiscoveryWalk.Finish` | src/ble_mgr/bt_gatt_client.c:1633-1750 | under a stack that ends each accepted procedure once, and stays within what the 8-bit indices can walk, the walk ends: it is run to its end by recursion on services left, phase and characteristics left |
| `DiscoveryWalk.FinishSucceeds` | src/ble_mgr/bt_gatt_client.c:1633-1750 | if that stack accepts everything and reports no failure the walk completes |
| `DiscoveryWalk.RoundOk` | src/ble_mgr/bt_gatt_client.c:1633-1750 | results and end of one procedure keep the walk invariant and come down in the measure; only a refused or failed procedure makes it fail |
| `DiscoveryWalk.DoneOk` | src/ble_mgr/bt_gatt_client.c:1366-1586 | whatever procedure ends, with lists the 8-bit indices can walk, the next one asked for is the one that is due |
| `DiscoveryWalk.ApplyOk` | src/ble_mgr/bt_gatt_client.c:1763-1853 | a result moves neither the walk nor its measure |
| `DiscoveryHolds.DiscoveredExactly` | src/ble_mgr/bt_gatt_client.c:1763-1853 | the list of a completed walk is what was reported: the wanted primary services in order, for each the includes and characteristics reported for it in order, for each characteristic its last CCCD and highest descriptor, and its properties but for the notify and indicate bits exactly where there is no room for a CCCD |
| `DiscoveryWalk.CloseFromSpec` | src/ble_mgr/bt_gatt_client.c:1505-1565 | closing characteristics stops at the first with room and fixes every end handle passed |
| `DiscoveryLayout.DiscoveryDisjoint` | src/ble_mgr/bt_gatt_client.c:1633-1853 | if the server's services do not overlap and the primary ones are reported in increasing order, a completed discovery leaves services with disjoint ranges, the secondary ones it added among them |
| `DiscoveryLayout.DiscoveryAttributes` | src/ble_mgr/bt_gatt_client.c:1633-1853 | so after an orderly discovery every handle of a characteristic is looked up to its own service and role |
| `DiscoveryOrder.OrderlyDiscoveryPartitions` | src/ble_mgr/bt_gatt_client.c:1512-1539 | if values directly follow declarations and come in increasing order, a completed discovery leaves every service partitioned |
| `GattcDiscovery.Discovery.DisNextService` | src/ble_mgr/bt_gatt_client.c:1436-1490 | asks for the next primary service's relations, and after the last turns to the added services or completes |
| `GattcDiscovery.Discovery.CloseChars` | src/ble_mgr/bt_gatt_client.c:1505-1565 | the loop fixes end handles and silences characteristics without room, up to the first with room |
| `GattcDiscovery.Discovery.DisNextDesc` | src/ble_mgr/bt_gatt_client.c:1492-1586 | asks for the next descriptors or moves on to the next service |
| `GattcDiscovery.Discovery.HandleDone` | src/ble_mgr/bt_gatt_client.c:1633-1761 | afterwards the walk is as Done says, to which DoneOk applies; on completion the record holds the packed database, storage is given its bytes, and the application is told; on failure it is told so |
| `GattcDiscovery.Discovery.StartDiscovery` | src/ble_mgr/bt_gatt_client.c:814-865 | if storage is to be tried and gives a table that loads, the client is done with it; otherwise the discovery runs from an empty list exactly when the stack accepts the first procedure |
| `AdvSerializer.AdvertisingSerialized` | src/ble_mgr/ble_ext_adv.c:215-282 | in every state of every run at most one set has a command in flight and at most 50 actions wait; actions wait with nothing in flight in no state exactly when no step strands a start |
| `AdvSerializer.StepSerial` | src/ble_mgr/ble_ext_adv.c:1360-1475 | each event keeps at most one command in flight, and leaves actions waiting with none in flight exactly when it reconfigures an enabled set while nothing is pending and the stack refuses the stop and cannot take the update |
| `AdvSerializer.ReconfigureOk` | src/ble_mgr/ble_ext_adv.c:703-712 | the stop-update-start sequence strands its start exactly under that condition |
| `AdvSerializer.NextStepOk` | src/ble_mgr/ble_ext_adv.c:1360-1439 | taking actions until one is accepted ends with one in flight or none left, skipping and reordering none |
| `AdvSerializer.CompletionRecovers` | src/ble_mgr/ble_ext_adv.c:1441-1475 | whatever was stranded, the next completion takes at least one action and restores the property |
| `AdvSerializer.StrandedExample` | src/ble_mgr/ble_ext_adv.c:703-712 | a run from an empty manager in which a set is created, enabled, started and reconfigured, and its start is stranded |
| `AdvOrder.ActionsInOrder` | src/ble_mgr/ble_ext_adv.c:158-193 | over every run in which no set of a given group gets a connection, the actions sent for the group are those taken followed by those waiting, in order |
| `AdvOrder.StepFlows` | src/ble_mgr/ble_ext_adv.c:1360-1439 | every event but a connection only appends to the queue and takes from its front |
| `AdvReports.EnabledAfterReport` | src/ble_mgr/ble_ext_adv.c:1262-1318 | after a report a set has the state reported and, unless a start or stop queued for it was carried out, is enabled exactly if it was and: is not quiet; or was stopped by the host for an update; or has starts or stops queued and got no connection |
| `AdvReports.StoppedEnablesAgain` | src/ble_mgr/ble_ext_adv.c:1282-1302 | a set that timed out, got a connection or failed is disabled and can be enabled again, exactly when the stack accepts its start or there is room for it |
| `AdvReports.StateReported` | src/ble_mgr/ble_ext_adv.c:1441-1475 | what a report changes of its set, which commands it completes, and when it serves the queue |
| `AdvReports.CreatedFlags` | src/ble_mgr/ble_ext_adv.c:321-442 | a set is created to be configured with its parameters, a random address if given and used, data unless directed, a scan response if scannable |
| `AdvReports.UpdateBits` | src/ble_mgr/ble_ext_adv.c:502-520 | until its parameters are set every update also configures what creation left, afterwards exactly what is asked |
| `AdvReports.MultiBits` | src/ble_mgr/ble_ext_adv.c:1093-1193 | what setting several things at once asks for, bit by bit |
| `AdvReports.SettingSent` | src/ble_mgr/ble_ext_adv.c:502-551 | setting data, or anything of a set not enabled, gives one update or queues it behind what is pending |
| `AdvReports.ReconfigureAsked` | src/ble_mgr/ble_ext_adv.c:703-712 | reconfiguring any enabled set with nothing pending gives the stop and queues the update asked for and the start |
| `AdvReports.CommandsAnswered` | src/ble_mgr/ble_ext_adv.c:215-282 | a start or stop goes out as asked; a refused start disables its set, a refused stop does not |
| `AdvReports.AllDisabledStop` | src/ble_mgr/ble_ext_adv.c:1236-1256 | with room and a stack that accepts, disabling all leaves no set enabled: each enabled one gets its stop, in table order |
| `AdvCommands.ReconfigureReturns` | src/ble_mgr/ble_ext_adv.c:654-723 | for any manager with nothing pending and any advertising set: if the stack accepts and completes everything, it is given exactly stop, update and start, and the set ends up advertising, enabled, with nothing left over |
| `AdvCommands.EnableAdvertises` | src/ble_mgr/ble_ext_adv.c:584-629 | enabling a set for the first time gives the stack its whole initial configuration and then the start, and ends up advertising |
| `AdvCommands.DisableQuiets` | src/ble_mgr/ble_ext_adv.c:1195-1234 | disabling an advertising set gives the stack one stop and ends up disabled and quiet |
| `AdvCommands.SequenceQueued` | src/ble_mgr/ble_ext_adv.c:703-712 | while a command is pending, as much of stop, update and start is queued as there is room for; the whole exactly when at most 47 actions wait |
| `AdvCommands.SequenceCutShort` | src/ble_mgr/ble_ext_adv.c:654-723 | a run from an empty manager that leaves 48 actions waiting: stop and update are then queued without the start, the set stays enabled, and setting the parameters reports success |
| `AdvCommands.CreateExactly` | src/ble_mgr/ble_ext_adv.c:321-442 | a creation that reports success makes the set known exactly when it was known or an unused set was left |
| `AdvCommands.FullTableCreates` | src/ble_mgr/ble_ext_adv.c:321-442 | a table of any size filled by creations: one more reports success and changes nothing |
| `AdvCommands.NextStepIssues` | src/ble_mgr/ble_ext_adv.c:1360-1439 | serving the queue gives the stack commands that carry out, in order, actions taken from it, all but the last refused |
| `AdvCommands.ExecuteIssues` | src/ble_mgr/ble_ext_adv.c:1384-1425 | an action for an unknown set, a start of one not quiet or a stop of one not advertising gives the stack nothing; any other gives it exactly the command that carries it out |
| `AdvOrder.OthersExactly` | src/ble_mgr/ble_ext_adv.c:1329-1358 | deleting a set's actions removes all of them and nothing else |
| `ExtAdv.Manager.FindByHandle` | src/ble_mgr/ble_ext_adv.c:467-482 | the loop finds the first used set with the handle, or none |
| `ExtAdv.Manager.FindPendingAction` | src/ble_mgr/ble_ext_adv.c:484-500 | the loop tells whether any set has a command in flight |
| `ExtAdv.Manager.CreateAdv` | src/ble_mgr/ble_ext_adv.c:321-442 | the loop takes the first unused set, to which CreateExactly applies |
| `ExtAdv.Manager.DisableAll` | src/ble_mgr/ble_ext_adv.c:1236-1256 | the loop disables every enabled set in table order |
| `ExtAdv.Manager.DeletePendingActions` | src/ble_mgr/ble_ext_adv.c:1329-1358 | one rotation of the queue is an order-preserving filter |
| `ExtAdv.Manager.CheckNextStep` | src/ble_mgr/ble_ext_adv.c:1360-1439 | the loop takes actions until one is accepted, per NextStep |
| `ServerOrder.IndicationsStopAndWait` | src/ble_mgr/bt_gatt_svc.c:380-437 | for every link in every reachable state: complete exactly when the recorded service is 0xFF; between two indications handed to the stack lies a completion of the first one's service and attribute; accepted is handed over followed by waiting |
| `ServerOrder.IndicateOk` | src/ble_mgr/bt_gatt_svc.c:720-775 | sending an indication keeps this |
| `ServerOrder.CompleteOk` | src/ble_mgr/bt_gatt_svc.c:380-437 | a completion, its own or not, keeps this |
| `ServerNotes.NotificationsInOrder` | src/ble_mgr/bt_gatt_svc.c:439-474 | over every run, what is accepted is exactly the notifications offered and taken, and of links that stay open they are the sent ones followed by the waiting ones, in one order across links |
| `ServerNotes.NoteTaken` | src/ble_mgr/bt_gatt_svc.c:688-793 | a notification is taken exactly when it can only wait, for want of credit or behind others, or the stack accepts it; success is reported of no other, and one not taken leaves no trace |
| `ServerTaken.IndTaken` | src/ble_mgr/bt_gatt_svc.c:720-775 | an indication is taken exactly when it can only wait or the stack accepts it, which is what is reported; it goes out at once on an idle link with credit, and waits behind the others otherwise |
| `ServerTaken.IndicationsTaken` | src/ble_mgr/bt_gatt_svc.c:720-775 | over every run in which a link stays open, the indications offered to it and taken are those handed over followed by those waiting, in order |
| `ServerTaken.DoneAnswered` | src/ble_mgr/bt_gatt_svc.c:380-437 | a completion is answered with failure exactly when its link has no record or the stack refuses what comes next |
| `ServerNotes.DrainExact` | src/ble_mgr/bt_gatt_svc.c:439-474 | a drain sends a prefix no longer than the credits read, all accepted, and stops early only at a refused head, which stays |
| `ServerNotes.ClearExactly` | src/ble_mgr/bt_gatt_svc.c:513-554 | when its last bearer goes nothing of the link stays and everything of the others does |
| `ServerNotes.DisconnectExactly` | src/ble_mgr/bt_gatt_svc.c:795-850 | a disconnection leaves no record with its connection id exactly when there was at most one, and no notification of it |
| `ServerNotes.SharedIdKept` | src/ble_mgr/bt_gatt_svc.c:692-735 | a run in which two links share a connection id, as BR/EDR links do: a disconnection keeps the second record |
| `ServerConfirm.IndicationsConfirmed` | src/ble_mgr/bt_gatt_svc.c:380-437 | over every run, indications are separated by their own confirmations on every link in every state exactly when no mistaken completion hands one over, and none is handed over on a link that a mistaken completion freed before that confirmation or by anything but it; said by the records alone, without their traces |
| `ServerConfirm.CompleteFreesEarly` | src/ble_mgr/bt_gatt_svc.c:389-399 | a link is left free too early exactly by a notification's completion that carries the outstanding pair, or by a completion that finds it so and does not confirm |
| `ServerConfirm.StepMarked` | src/ble_mgr/bt_gatt_svc.c:380-437 | each event keeps what a link owes in step with what its trace awaits, and overtakes an unconfirmed indication exactly when it hands over early by the records |
| `ServerConfirm.CompleteMarked` | src/ble_mgr/bt_gatt_svc.c:380-437 | a completion hands over with the outstanding indication unconfirmed exactly when it is mistaken for its confirmation or the link still owes another one |
| `ServerConfirm.UnmistakenConfirmed` | src/ble_mgr/bt_gatt_svc.c:380-437 | runs in which no notification's completion carries the pair of an outstanding indication are stop-and-wait by confirmation |
| `ServerConfirm.MistakenRun` | src/ble_mgr/bt_gatt_svc.c:389-424 | an indication, a notification of the same attribute, another indication and the notification's completion: the second goes out with the first unconfirmed, for any attributes and data |
| `ServerStalls.IndicationsServed` | src/ble_mgr/bt_gatt_svc.c:720-775 | over every run, no link keeps indications waiting with none outstanding exactly when no step stalls one |
| `ServerStalls.StepServed` | src/ble_mgr/bt_gatt_svc.c:380-437 | a step stalls a link exactly by sending on an idle one without credit, or by a completion that frees one with waiting indications without credit or acceptance |
| `ServerStalls.StallingRun` | src/ble_mgr/bt_gatt_svc.c:380-424 | two indications, and the first one's confirmation finds no credit: the second waits with none outstanding |
| `ServerStalls.StalledRecovers` | src/ble_mgr/bt_gatt_svc.c:389-424 | any completion on a stalled link, with credit and acceptance, hands over the head of its queue |
| `ServerStalls.CidNotKept` | src/ble_mgr/bt_gatt_svc.c:407-424 | an indication sent on any busy link goes out on the bearer of the confirmation before it, after everything that waited |
| `GattServer.Queues.CheckLinkInd` | src/ble_mgr/bt_gatt_svc.c:335-347 | the loop finds the first record of the link, or none |
| `GattServer.Queues.HandleIndQueue` | src/ble_mgr/bt_gatt_svc.c:380-437 | completes and hands over in place with the early exits of the source, per HandleInd |
| `GattServer.Queues.HandleNotifyQueue` | src/ble_mgr/bt_gatt_svc.c:439-474 | the loop over credits and queue, per Drain and so DrainExact |
| `GattServer.Queues.FreeLink` | src/ble_mgr/bt_gatt_svc.c:513-536 | the record goes with everything that waits in it |
| `GattServer.Queues.DeleteNotes` | src/ble_mgr/bt_gatt_svc.c:536-553 | the loop whose index stays on deletion filters the queue in order, for any number of deletions |
| `GattServer.Queues.ClearSvcDataQueue` | src/ble_mgr/bt_gatt_svc.c:513-554 | closing a link by its last bearer, to which ClearExactly applies |
| `GattServer.Queues.HandleDisconnected` | src/ble_mgr/bt_gatt_svc.c:795-850 | closing a link by its connection id, to which DisconnectExactly applies |
| `ScanMerge.MergeCovers` | src/ble_mgr/ble_scan.c:216-285 | for any clients the merged parameters use the union of PHYs; on each the least interval of its users with the window of the first that asks for it, active if one is; no duplicate filter and any policy if one asks; the common address type or public |
| `ScanMerge.CoversUnique` | src/ble_mgr/ble_scan.c:216-285 | only one set of parameters covers the clients so |
| `ScanMerge.JoinCovers` | src/ble_mgr/ble_scan.c:233-284 | one more client keeps the merge covering |
| `ScanMachine.ScanCoherence` | src/ble_mgr/ble_scan.c:171-303 | over every run: on air with other than the merged parameters implies a requested restart, in every state exactly when no step breaks it; then a settled scan runs the merge of its clients |
| `ScanMachine.StepCoherent` | src/ble_mgr/ble_scan.c:171-303 | a step breaks this exactly when the merge changes while paused with the stack starting, or scanning and refusing to stop; or a failed stop returns to scanning after a change |
| `ScanMachine.PlainRunsSettle` | src/ble_mgr/ble_scan.c:171-303 | without pauses and failed stops every settled scan runs the merged parameters |
| `ScanMachine.PauseChangeResume` | src/ble_mgr/ble_scan.c:491-530 | a run from an idle scanner: for any two different parameters, pause, change and resume during the start settle on the old ones |
| `ScanMachine.ChangeRestarts` | src/ble_mgr/ble_scan.c:306-317 | for any settled scan and any change of a client that changes the merge: if the stack accepts and completes everything, it gets one stop and one start, and the scan settles on the new merge |
| `ScanCommands.CommandsExactly` | src/ble_mgr/ble_scan.c:171-214 | for every state and event, the stack is told to stop exactly when it scans and nobody wants it to or it is to restart, to start exactly when it is idle and a scan is wanted, then with the merge, and nothing else |
| `ScanCommands.ProgressExactly` | src/ble_mgr/ble_scan.c:171-214 | how a restart is requested, stops, starts and is over |
| `ScanCommands.LastLeaves` | src/ble_mgr/ble_scan.c:445-489 | the last client leaves a running scan: the stack is told to stop |
| `ScanCommands.ResumeStarts` | src/ble_mgr/ble_scan.c:491-512 | resuming an idle scanner with clients gives the stack a start with their merge |
| `ScanMachine.StepMerged` | src/ble_mgr/ble_scan.c:344-489 | the manager's parameters stay the merge of its clients', and the action fits them |
| `BleScan.Manager.MergeParams` | src/ble_mgr/ble_scan.c:216-285 | the loop over the clients yields parameters that cover every one of them |
| `BleScan.Manager.UpdateParam` | src/ble_mgr/ble_scan.c:216-304 | requests a restart exactly when a started scan on air gets new parameters |
| `BleScan.Manager.StopClient` | src/ble_mgr/ble_scan.c:445-489 | a client leaves the merge; the last one stops the scan |

## Left out

- Write commands and their credits (`src/ble_mgr/bt_gatt_client.c:769-812`): no queue, nothing waits.
- GattClient.Configurator.HandleWriteResult: does not give the report to the application, nor the result of a write command, which belongs to no queued request.
- CccdTable.CccdTableIsAMap: takes it that only CCCD handles of the table are written, because it is about the table alone; CccdConfig.CccdReadsLastStored proves it of every run.
- GattClient.Configurator.EnableCharCccd: does not mark the last request of a configuration, because the mark only starts a report to the application.
- Read results, printing, `find_inc_srv`, `find_char`, `check_prop` and the server's attribute lookups: single scans or output.
- `match_filter` and delivery of scan reports and state changes to applications: callbacks are not modelled, and are taken not to call back into the library.
- Allocation failure, so error exit 2 and 3 of table generation and the matching exits elsewhere.
- Timers and flash storage: what is stored is a byte sequence given to `Storage.Record.Load`.
- TableLoad.Parse: is defined for every byte sequence, reporting an overrun where the C code would read past its buffer before checking, because only well-formed tables have a meaning; correctness is claimed for packed databases.
- `pending_start_stop_num` as an exact count: deleting a set's actions on connection does not count them down (`src/ble_mgr/ble_ext_adv.c:1344-1357`); the field itself is modelled as the code updates it.
- AdvActions.Create: keeps of the advertising parameters only those that decide what the manager does later (address type and intervals), because the others are copied through to the stack.
- ExtAdv.Manager.ActionStart: takes the stack's two answers, to the parameters and to the enable, as one, because the code treats them alike.
- ExtAdv.Manager.CreateAdv: keeps of the advertising parameters only those that decide what the manager does later, as AdvActions.Create.
- ExtAdv.Manager.CheckState: does not give the stop cause, because it only goes to the application.
- GattcLink.Link.Submit: starts behind the checks of state and characteristic properties that refuse a request before it is queued, because a refused request changes nothing.
- GattcLink.Link.ReqListFree: does not cover the list of write commands, which is not modelled.
- GattServer.Queues.HandleIndQueue: is told whether a completion confirms an indication, for the trace only, because the statements about confirmation need it.
- ScanMachine.StartScan: the stack's state is starting as soon as it accepts a start, and stopping as soon as it accepts a stop, because that is how the code reads it back.
- ScanMerge.Covers: compares parameters field by field where the code compares bytes, because padding has no meaning.
- GattServer.Queues.DeleteNotes: at most 255 notifications of other links wait when a link closes, because the 8-bit index counts those that stay and wraps beyond that, and the C loop then does not end.
- Disabled and normal-server modes of the GATT server: the stack's answer stands for the lookups they add.
- Links as such: each class is one link's record, so finding and allocating records by connection handle is not modelled; a BR/EDR link only differs in having no fixed bearer.
- DiscoveryWalk.Finish: ends in no result when the stack delivers results of another kind than the running procedure's or more than the 8-bit indices hold, because the code has no defined behaviour or does not end there.
- Other state machines of the library (connection updates, advertising data rotation, bookkeeping of loaded clients): small, and independent of these.
