# FDM Monster: a verified model of its stateful services

FDM Monster manages a farm of 3D printers. Most of it is plumbing; this project models the parts whose
correctness depends on runs and loops, and proves what they keep. Each part has a specification on values (the
tables as maps, one function per operation), the service itself as a class or method proved to compute that
specification step by step, and lemmas about the specification over all inputs and all runs. `PrintQueueRows.dfy`,
`YamlMatching.dfy`, `YamlLanding.dfy` and the files ending in `Laws` say what each operation answers, what it writes
and what it leaves alone, without the functions that compute it.

- **Print queue** (`PrintQueue*.dfy`). Each printer's queue is stored as integer positions scattered over the job
  rows. Under the use a client is meant to make of it, the service is a plain list per printer, uploads ending at
  any later moment included. For arbitrary positions, distinctness and order are characterised exactly, getQueue is
  followed through every operation, and runs keep positions distinct however late uploads end.
- **Floors** (`Floor*.dfy`). The grid is an injective partial map from printers to cells. The row-level service,
  with its displacing inserts and its clean-up from a snapshot read earlier, computes "last writer wins"; the cache
  on top, refreshed one floor at a time, over-approximates the database.
- **YAML import and export** (`Yaml*.dfy`, on top of the floors). Round trip up to renaming, when importing twice is
  importing once, isolation of failing printers, and, for every comparison strategy, which rows, floors and tags an
  import writes and with what.
- **JSON-RPC requests** (`Rpc*.dfy`). Requests wait in a table until a response, their timer or close, and each is
  settled once and in the way that fits.
- **Printer events** (`Printer*.dfy` other than the queue). The printer cache, the index of websocket adapters and
  the events cache follow the same events; the adapters are heap objects, numbered in the order they are made.
- **Normalisers and path sets** (`Slashes.dfy`, `SlashProofs.dfy`, `SlashLaws.dfy`, `DataUrl*.dfy`,
  `FileListing.dfy`, `Text.dfy`).
- **Stored files** (`StoredFiles*.dfy`). Deduplicated upload and download, jobs made from stored files, and
  reference-counted deletion, with calls that throw at any of the stages named by `Fault`.

`dafny verify dfyconfig.toml` checks everything.

## What turned out not to hold

Where a property one would expect fails, the code is modelled as it is, a lemma gives a concrete input, and another
says exactly when the property holds.

- A job keeps its position number when its printer is deleted. Submitting it to another printer then closes a gap
  that is not there, and two jobs can end on one position (`AdoptedJobCollides`, `SubmitKeepsOrderIff`).
- A reorder that leaves out queued jobs can put two jobs on one position (`PartialReorderCollides`,
  `ReorderKeepsDistinctIff`).
- A job queued again at its old place while its upload runs is taken out of the queue when the upload succeeds and
  stays QUEUED (`RequeuedJobIsLost`, `FinishKeepsSyncedIff`).
- A floor update that names an unknown printer throws after moving the printers named before it; the cached floor is
  not refreshed (`HalfwayUpdateUncovers`, `UpdateKeepsCoverIff`).
- When two printers of a YAML file share an id, one new and one already in the farm, a second import can put the
  other one in their cell (`SharedIdMovesPrinter`, `ImportTwiceIsOnceIff`). Distinct tag names, on the other hand, are
  not needed for idempotence.
- A request id that is reused while in flight can strand a promise (`ReusedIdStrands`, `StrandedIff`,
  `StepKeepsMatchedIff`).
- A printer whose type was changed, or that was loaded again, leaves an adapter that no deletion bars; a late
  message of it brings the printer's events back (`RetypedPrinterReturns`, `PurgedStaysPurgedIff`).
- A matched scheme with a third slash keeps three slashes (`ThreeSlashesStay`, `StrayDoubleIff`).
- A data URL whose media type is the word base64 in other case changes again when normalised twice
  (`ShoutedBase64IsUnstable`, `NormalFormIff`).
- Deleting a stored file directly leaves its jobs without their file (`DeletedUnderItsJob`,
  `DirectDeleteKeepsSoundIff`).

Where code and comments disagree the code is followed: `src/services/orm/floor.service.ts:78` promises that missing
data is deleted, but line 95 skips an empty list; `src/services/print-queue.service.ts:374` logs that a failed job
is still in the queue, which it has already left; the look-behind at `src/utils/normalize-url.ts:174` is said to be
equivalent to the loop, but would treat the third slash behind a scheme differently;
`src/services/core/yaml.service.ts:501` stops at the first tag that exists, so later tags are dropped;
`src/shared/websocket-rpc-extended.adapter.ts:36` is written as if it gave requests fresh ids, but leaves the id as
it was.

## Model

| member | source | states |
|---|---|---|
| PrintQueueLists.GetQueueIsList | src/services/print-queue.service.ts:162-181 | when a printer's rows hold a list (QUEUED jobs at 0..n-1, nobody else positioned or QUEUED), getQueue returns exactly that list |
| PrintQueueLists.RepresentsUnique | src/services/print-queue.service.ts:162-181 | a printer's rows hold at most one list |
| PrintQueueLists.MaxOfList | src/services/print-queue.service.ts:268-276 | the maximum position of a list of n jobs is n-1, and null for none |
| PrintQueueLists.AddInserts | src/services/print-queue.service.ts:109-134 | adding a job that is not in the list inserts it in front of the given index or appends it, and touches no other printer's row |
| PrintQueueLists.AddKeepsDensityIff | src/services/print-queue.service.ts:109-134 | the rows hold a list again exactly when the position given lies in 0..n; other positions are accepted but leave a gap |
| PrintQueueLists.VacateDeletes | src/services/print-queue.service.ts:288-296 | nulling a listed job's position and compacting deletes it from the list |
| PrintQueueLists.RemoveDeletes | src/services/print-queue.service.ts:136-160 | removing a listed job deletes it from the list and makes it PENDING |
| PrintQueueLists.SubmitDeletes | src/services/print-queue.service.ts:298-326 | submitting a listed job deletes it from the list and makes it PRINTING |
| PrintQueueLists.ClearEmpties | src/services/print-queue.service.ts:222-238 | clearing empties the list, makes its jobs PENDING and changes no other row |
| PrintQueueLists.ReorderPrefixAt | src/services/print-queue.service.ts:209-216 | after n rounds of the reorder loop a job of the printer holds the index of its last mention, all other rows are unchanged |
| PrintQueueLists.ReorderInstalls | src/services/print-queue.service.ts:209-220 | reordering by a permutation of the list installs that permutation |
| PrintQueueOrder.AddKeepsOrder | src/services/print-queue.service.ts:109-134 | for arbitrary positions and even a job that is queued already, adding keeps positions distinct and the other jobs in order |
| PrintQueueOrder.VacateKeepsOrderIff | src/services/print-queue.service.ts:288-296 | closing the gap at c keeps distinctness and order exactly when c and c+1 are not both held by other jobs of that printer |
| PrintQueueOrder.RemoveKeepsOrder | src/services/print-queue.service.ts:136-160 | removing any job keeps positions distinct and the others in order |
| PrintQueueOrder.SubmitKeepsOrderIff | src/services/print-queue.service.ts:298-326 | submitting keeps distinctness and order exactly when the gap is closable, which always holds for a job that still has its printer |
| PrintQueueOrder.AdoptedJobCollides | src/services/print-queue.service.ts:298-312 | concrete failure: submitting a job whose printer was deleted while it held position 0 puts two jobs of the new printer on one position |
| PrintQueueOrder.ClearKeepsDistinct | src/services/print-queue.service.ts:222-238 | clearing keeps positions distinct |
| PrintQueueOrder.FinishKeepsDistinctIff | src/services/print-queue.service.ts:355-363 | the dequeue after an upload keeps positions distinct exactly when it is not taken or the gap it closes is closable, which always holds for a job still on the printer it was submitted to |
| PrintQueueOrder.ReorderKeepsDistinctIff | src/services/print-queue.service.ts:209-220 | a reorder by any list keeps positions distinct exactly when no job left out holds an index some listed job receives |
| PrintQueueOrder.ReorderRealisesOrder | src/services/print-queue.service.ts:209-220 | jobs of the printer named by a list without repetitions come to stand in the order of that list |
| PrintQueueOrder.PartialReorderCollides | src/services/print-queue.service.ts:209-220 | concrete failure: a reorder that names one job of two puts both on position 0 |
| PrintQueueRuns.StepKeepsDistinctIff | src/services/print-queue.service.ts:109-382 | for every step of the service and of the rest of the server, the exact condition under which positions stay distinct per printer |
| PrintQueueDistinct.StepKeepsAnchored | src/services/print-queue.service.ts:109-382 | every step keeps positions distinct, jobs without a printer out of every queue, and each submission's job on its printer or the printer deleted; only deletions of printers, reorders and new ids are under a condition |
| PrintQueueDistinct.RunKeepsDistinct | src/services/print-queue.service.ts:109-382 | over every run, uploads ending at any later moment and in any way, no two jobs of a printer share a position, if printers are deleted with an empty queue and not named again, new jobs have new ids, and a reorder leaves out no job that stands among the positions it hands out; submissions and ends of uploads are under no condition |
| PrintQueueRuns.StepRefines | src/services/print-queue.service.ts:109-382 | each well-used step is the corresponding step on one plain list per printer |
| PrintQueueRuns.RunRefines | src/services/print-queue.service.ts:109-382 | over every well-used run, getQueue returns the lists the abstract machine computes, QUEUED means positioned, and no ending upload dequeues a second time |
| PrintQueueRuns.FinishKeepsSyncedIff | src/services/print-queue.service.ts:328-382 | an ending upload keeps QUEUED and positioned together exactly when the job was not queued again meanwhile, or was queued at another place and the upload succeeded |
| PrintQueueRuns.RequeuedJobIsLost | src/services/print-queue.service.ts:355-363 | concrete failure: a job queued again at its old place during its upload ends QUEUED without a position and in no queue |
| PrintQueueUploads.StepKeepsUndisturbed | src/services/print-queue.service.ts:109-382 | for arbitrary positions: a step that queues no job in flight keeps QUEUED and positioned together and jobs in flight out of the queue |
| PrintQueueUploads.SingleDequeue | src/services/print-queue.service.ts:355-376 | in every run in which no job is queued again during its upload and reorders name only queued jobs, no upload takes the dequeue branch, and a job assigned to a printer is QUEUED exactly when it holds a position, also after failed uploads |
| PrintQueueGaps.RemoveTakesOut | src/services/print-queue.service.ts:136-160 | for distinct positions with gaps: what getQueue returns for any printer afterwards is what it returned before without the job |
| PrintQueueGaps.SubmitTakesOut | src/services/print-queue.service.ts:298-326 | the same for submitting a job whose gap can be closed |
| PrintQueueGaps.FinishTakesOut | src/services/print-queue.service.ts:328-382 | for a job still on the printer it was submitted to: an ending upload takes it out of getQueue when it dequeues or fails it, and leaves every queue alone otherwise |
| PrintQueueGaps.DeletionTakesOut | src/services/orm/print-job.service.ts:763-765 | deleting a job, queued or not and whatever the positions, takes it out of getQueue and nothing else |
| PrintQueueGaps.AddPlaces | src/services/print-queue.service.ts:109-134 | for distinct positions with gaps: adding puts the job in front of the first row whose position is at least the one given, or at the end, and leaves the other queues alone |
| PrintQueuePages.PagesPartitionQueue | src/services/print-queue.service.ts:183-196 | pages 1 to the page count, one after the other, are all QUEUED jobs in (printer, position) order, each once; a page is empty exactly when it is beyond the count |
| PrintQueuePages.PageEmptyIff | src/controllers/print-queue.controller.ts:43-61 | a page is empty exactly when its number exceeds the page count |
| PrintQueuePages.RowsInOrder | src/services/print-queue.service.ts:183-196 | the pages list exactly the QUEUED jobs, by printer and by position within a printer, rows without either first |
| PrintQueueRows.AddedJob | src/services/print-queue.service.ts:109-134 | an added job is QUEUED on its printer, at the position given, or one behind the greatest position held there, or at 0; other rows at most move |
| PrintQueueRows.Refusals | src/services/print-queue.service.ts:240-266 | unknown jobs and jobs of another printer are refused |
| PrintQueueRows.RemovedJob | src/services/print-queue.service.ts:136-160 | a removed job has no position, and is PENDING if it was QUEUED |
| PrintQueueRows.SubmittedJob | src/services/print-queue.service.ts:298-326 | a submitted job is PRINTING on the printer without a position, and its submission holds file flag and former position |
| PrintQueueRows.FinishedJob | src/services/print-queue.service.ts:328-382 | a failed upload, or a submission without a file, makes the job FAILED and changes no other row; a successful one changes no status, and dequeues exactly a job that holds the captured position |
| PrintQueueRows.StepKeepsFailed | src/services/print-queue.service.ts:109-382 | no step but adding, submitting, reporting on or deleting a FAILED job changes its status |
| PrintQueueRows.FailedUploadShows | src/services/print-queue.service.ts:364-382 | over every run after a failed upload the job stays FAILED until one of those steps names it |
| PrintQueueRows.UploadLeavesOthers | src/services/print-queue.service.ts:328-382 | the other submissions wait on in order |
| PrintQueueServiceModel.PrintQueueService.ShiftQueuePositions | src/services/print-queue.service.ts:278-286 | row by row: jobs of this printer at or behind the position move back by one, every other row stays, and the position is free afterwards |
| PrintQueueServiceModel.PrintQueueService.CompactQueuePositions | src/services/print-queue.service.ts:288-296 | row by row: jobs of this printer behind the position move up by one and every other row stays |
| PrintQueueServiceModel.PrintQueueService.AddToQueue | src/services/print-queue.service.ts:109-134 | the new table is the add step of the old one; unknown jobs and other printers' jobs are refused |
| PrintQueueServiceModel.PrintQueueService.RemoveFromQueue | src/services/print-queue.service.ts:136-160 | the new table is the remove step of the old one; unknown jobs are refused |
| PrintQueueServiceModel.PrintQueueService.GetQueue | src/services/print-queue.service.ts:162-181 | returns the list the rows hold, and in any case the QUEUED positioned rows in order |
| PrintQueueServiceModel.PrintQueueService.GetNextInQueue | src/services/print-queue.service.ts:198-207 | returns the head of the list the rows hold, and in any case a first row in queue order |
| PrintQueueServiceModel.PrintQueueService.ReorderQueue | src/services/print-queue.service.ts:209-220 | the loop computes the reorder step |
| PrintQueueServiceModel.PrintQueueService.ClearQueue | src/services/print-queue.service.ts:222-238 | the loop over the rows found computes the clear step |
| PrintQueueServiceModel.PrintQueueService.SubmitToPrinter | src/services/print-queue.service.ts:298-326 | the new table is the submit step, and the submission is queued with the position the job held |
| PrintQueueServiceModel.PrintQueueService.HandleJobSubmission | src/services/print-queue.service.ts:328-382 | the end of an upload is the finishing step on the submission's captured position: a failed upload or a submission without a file fails the job, a successful one dequeues it if it still stands there |
| PrintQueueServiceModel.PrintQueueService.GetGlobalQueue | src/controllers/print-queue.controller.ts:31-62 | pages outside 1.. and sizes outside 1..200 are refused; otherwise each page continues the previous ones, and totalPages pages give the whole queue |
| FloorGrid.WishesGranted | src/services/orm/floor.service.ts:96-98 | after the insert loop the surviving wishes are in place, other wished-for printers are nowhere, and the rest keep their cells unless a wish took them |
| FloorGrid.LastWriterWins | src/services/orm/floor.service.ts:83-112 | after an update with a non-empty list the floor holds exactly the wishes no later wish shares a printer or cell with; other printers keep their places on other floors and are gone from this one |
| FloorGrid.StoppedHalfway | src/services/orm/floor.service.ts:130-167 | where the loop stops at a wish for a printer that does not exist: the earlier wishes that survive each other and the failed one are in place |
| FloorGrid.FailsAtFirstUnknown | src/services/orm/floor.service.ts:157-165 | the loop fails only at the first wish for a printer that does not exist |
| FloorGrid.ClashFreeInstalled | src/services/orm/floor.service.ts:83-112 | a list without clashes is installed exactly |
| FloorGrid.InstalledUnique | src/services/orm/floor.service.ts:83-112 | that determines the grid |
| FloorGrid.LayoutOrderIrrelevant | src/services/orm/floor.service.ts:83-112 | two orders of the same clash-free list give the same grid |
| FloorGrid.ReinstallIsIdentity | src/services/orm/floor.service.ts:83-112 | updating a floor with the layout it has changes nothing |
| FloorGrid.PlaceAllInjective | src/services/orm/floor.service.ts:130-167 | the insert loop keeps at most one printer per cell, whatever the list |
| FloorGrid.UpdateInjective | src/services/orm/floor.service.ts:83-112 | so does a whole update |
| FloorDb.UpdateConsistent | src/services/orm/floor.service.ts:83-112 | an update keeps every constraint of the tables, also when it stops halfway |
| FloorDb.CreateConsistent | src/services/orm/floor.service.ts:45-61 | so does creating a floor |
| FloorDb.AddConsistent | src/services/orm/floor.service.ts:130-167 | so does placing one printer |
| FloorDb.DeleteFloorConsistent | src/state/floor.store.ts:45-48 | so does deleting a floor with its positions |
| FloorDb.UpdateWithOwnPrinters | src/services/orm/floor.service.ts:114-128 | updating a floor with its own printers, as renaming and reordering do, changes only its name and order |
| FloorLaws.UpdateAnswers | src/services/orm/floor.service.ts:83-112 | an update refuses an unknown floor, then a bad name or place, then an unknown printer; only one not refused writes name and order, and no other floor changes |
| FloorLaws.CreateAnswers | src/services/orm/floor.service.ts:45-61 | a creation refuses a bad name or place; it adds the floor even when a printer on it is unknown, and throws then |
| FloorLaws.RenameAnswers | src/services/orm/floor.service.ts:114-128 | renaming and reordering change that alone, or are refused |
| FloorLaws.AddAnswers | src/services/orm/floor.service.ts:130-167 | a placed printer stands in that cell alone, whoever stood there is off the grid, everybody else stays; an unknown printer is refused after the eviction |
| FloorLaws.RemovePrinterAnswers | src/services/orm/floor.service.ts:169-176 | the printer is off the grid and nobody else moved; a printer that is not on the floor is refused |
| FloorLaws.RemoveFromAnyAnswers | src/services/orm/floor-position.service.ts:22-24 | the printer is off the grid and nobody else moved |
| FloorLaws.DeleteFloorAnswers | src/state/floor.store.ts:45-48 | the floor and everybody on it are gone, every other floor and printer stays |
| FloorServiceModel.CleanUp | src/services/orm/floor.service.ts:100-106 | deleting the row ids of the snapshot taken before the loop removes exactly the undesired printers that still stand, though the loop has replaced rows meanwhile |
| FloorServiceModel.FloorService.FindPrinterPosition | src/services/orm/floor-position.service.ts:18-20 | finds the row of a printer if it has one |
| FloorServiceModel.FloorService.FindPosition | src/services/orm/floor-position.service.ts:10-12 | finds the row on a cell if there is one |
| FloorServiceModel.FloorService.CreatePosition | src/services/orm/floor-position.service.ts:6-8 | the insert succeeds exactly when printer and floor exist and neither unique constraint is violated, and adds that one row |
| FloorServiceModel.FloorService.DeletePosition | src/services/orm/floor.service.ts:147-155 | deleting a row takes its printer off the grid |
| FloorServiceModel.FloorService.DeletePrinterFromAnyFloor | src/services/orm/floor-position.service.ts:22-24 | takes the printer off every floor |
| FloorServiceModel.FloorService.AddOrUpdatePrinter | src/services/orm/floor.service.ts:130-167 | the displacing insert: the printer leaves its cell, whoever stands in the new one leaves the grid, and only a printer that does not exist is refused, after the eviction |
| FloorServiceModel.FloorService.PlaceWishes | src/services/orm/floor.service.ts:95-98 | the loop places one wish after the other and stops at the first that fails; rows are replaced, never changed |
| FloorServiceModel.FloorService.Create | src/services/orm/floor.service.ts:45-61 | creating a floor with wishes |
| FloorServiceModel.FloorService.Update | src/services/orm/floor.service.ts:83-112 | row by row, the update is the update of the grid; a list that is empty changes no position |
| FloorServiceModel.FloorService.UpdateName | src/services/orm/floor.service.ts:114-120 | renaming changes the name alone, though it goes through the whole update |
| FloorServiceModel.FloorService.UpdateOrder | src/services/orm/floor.service.ts:122-128 | reordering changes the order alone |
| FloorServiceModel.FloorService.RemovePrinter | src/services/orm/floor.service.ts:169-176 | removes a printer from the floor it is on, and throws otherwise |
| FloorServiceModel.FloorService.PrintersOn | src/services/orm/floor.service.ts:63-75 | the listed entries of a floor are exactly its placements, each once |
| FloorCache.StepConsistent | src/state/floor.store.ts:18-102 | every call through the store keeps the database constraints |
| FloorCache.StepKeepsCoverIff | src/state/floor.store.ts:18-102 | every call keeps the cache an over-approximation exactly unless it is an update of a cached floor, valid in name and entries, whose wishes in front of the first unknown printer are not in the cache already |
| FloorCache.UpdateKeepsCoverIff | src/state/floor.store.ts:62-67 | that condition for update: the earlier wishes that stay in the database were already cached in those cells |
| FloorCache.HalfwayUpdateUncovers | src/state/floor.store.ts:62-67 | concrete failure: a layout naming an unknown printer second leaves the first one's new cell out of the cache |
| FloorCache.CacheOverRuns | src/state/floor.store.ts:18-102 | in every reachable state a cached floor has the database's name and order and lists every printer of the floor; after loadStore the two are equal |
| FloorCache.ExtraEntriesLeft | src/state/floor.store.ts:83-88 | an extra entry names a printer that is no longer on that floor |
| FloorCache.MoveLeavesExtraEntry | src/state/floor.store.ts:38-43 | concrete case: moving a printer to another floor leaves such an entry |
| FloorLaws.WrittenFloorIsFresh | src/state/floor.store.ts:38-95 | a call that writes a floor and does not throw leaves exactly the database's floor in the cache and touches no other key |
| FloorLaws.LoadingRefreshesAll | src/state/floor.store.ts:18-36 | loading, and removing a printer everywhere, leave every floor of the database fresh in the cache |
| FloorLaws.DeletionAndReading | src/state/floor.store.ts:45-60 | a deleted floor leaves the cache; reading returns the cached floor, and refreshes one that is not cached |
| FloorStoreModel.FloorStore.LoadStore | src/state/floor.store.ts:18-26 | overwrites the key of every floor and removes none |
| FloorStoreModel.FloorStore.ListCache | src/state/floor.store.ts:28-36 | loads first when the cache is empty |
| FloorStoreModel.FloorStore.GetFloor | src/state/floor.store.ts:50-60 | the cached floor, or a refresh from the database |
| FloorStoreModel.FloorStore.Create | src/state/floor.store.ts:38-43 | creates, then caches the floor unless it threw |
| FloorStoreModel.FloorStore.Delete | src/state/floor.store.ts:45-48 | deletes floor and key; throws what the service throws |
| FloorStoreModel.FloorStore.Update | src/state/floor.store.ts:62-67 | updates, then refreshes this floor's key alone |
| FloorStoreModel.FloorStore.UpdateName | src/state/floor.store.ts:69-74 | renames, then refreshes this floor's key; throws what the service throws |
| FloorStoreModel.FloorStore.UpdateFloorOrder | src/state/floor.store.ts:76-81 | reorders, then refreshes this floor's key; throws what the service throws |
| FloorStoreModel.FloorStore.AddOrUpdatePrinter | src/state/floor.store.ts:83-88 | places, then refreshes this floor's key, not that of the floor left; throws what the service throws |
| FloorStoreModel.FloorStore.RemovePrinter | src/state/floor.store.ts:90-95 | removes, then refreshes this floor's key; throws what the service throws |
| FloorStoreModel.FloorStore.RemovePrinterFromAnyFloor | src/state/floor.store.ts:97-102 | removes everywhere, then reloads |
| Yaml.FirstIsLeast | src/services/core/yaml.service.ts:380-381 | the index search finds the first matching row |
| YamlIsolation.FailuresAreIsolated | src/services/core/yaml.service.ts:88-257 | importing with any set of printers failing gives the same farm and renamings as importing the file without those printers and without the places and memberships of the ids only they carry; with grid or printer export off, places are not filtered and stay |
| YamlIsolation.RenamedDidNotFail | src/services/core/yaml.service.ts:90-126 | a renamed file id belongs to a printer that was written |
| YamlIsolation.FloorsSeeOnlyTheRenaming | src/services/core/yaml.service.ts:128-200 | where positions are filtered, those of printers that were not renamed do not influence the floors |
| YamlIsolation.TagsSeeOnlyTheRenaming | src/services/core/yaml.service.ts:204-257 | memberships of printers that were not renamed do not influence the tags |
| YamlPrinters.PhaseImports | src/services/core/yaml.service.ts:74-126 | after the printer phase every printer that did not fail has one row, found by name or new; no other row appears, and of several printers with one file id the last one found by name, or else the last new one, gives the renaming |
| YamlPrinters.RenamingInjective | src/services/core/yaml.service.ts:89-126 | different file ids are renamed to different rows |
| YamlPrinters.SecondPhase | src/services/core/yaml.service.ts:74-126 | a second printer phase writes nothing, and renames a file id to the row of the last printer that carries it |
| YamlPrinters.RenamedAlikeIff | src/services/core/yaml.service.ts:89-126 | it renames a file id as the first phase did exactly when the last printer carrying it was in the farm before, or none carrying it was |
| YamlMatching.MatchDecides | src/services/core/yaml.service.ts:377-414 | the first strategy of the list that matches any row decides, for the least row it matches: by name ignoring case, by the lower-cased URL, never by id; without such a strategy the printer is new |
| YamlMatching.ImportedPrinters | src/services/core/yaml.service.ts:74-126 | for every list of strategies: a row holds what the last printer that lands on it brings, or what it held; the unmatched printers that do not fail get the next rows in order; there is no other row |
| YamlMatching.ImportedIds | src/services/core/yaml.service.ts:89-126 | for every list of strategies: a file id is renamed to the row of the last printer that carries it and lands on a row, else to that of the last new one, else not at all |
| YamlMatching.SameUrlOverwrites | src/services/core/yaml.service.ts:392-405 | compared by URL, the least row with the file printer's lower-cased URL is overwritten with its name and settings |
| YamlMatching.NoRowAdded | src/services/core/yaml.service.ts:367-420 | when every printer of the file matches a row, no row is added |
| YamlMatching.RenamedApart | src/services/core/yaml.service.ts:89-126 | when printers with different ids land on different rows, different ids are renamed to different rows |
| YamlFloors.CreateShows | src/services/core/yaml.service.ts:154 | creating a floor with an acceptable layout shows exactly that layout and only makes printers leave other floors |
| YamlFloors.UpdateShows | src/services/core/yaml.service.ts:194 | the same for updating a floor with a layout that is not empty |
| YamlFloors.CreatesFloors | src/services/core/yaml.service.ts:130-160 | the create loop gives each new floor its row and its printers, and later floors do not undo earlier ones |
| YamlFloors.UpdatesFloors | src/services/core/yaml.service.ts:163-200 | so does the update loop |
| YamlFloorPhase.PhaseWritesFloors | src/services/core/yaml.service.ts:128-202 | after the floor phase every floor of the file stands under its name with its renamed layout |
| YamlFloorPhase.SecondFloorPhaseIsIdentity | src/services/core/yaml.service.ts:128-202 | a second floor phase changes neither database nor cache |
| YamlLanding.MatchFloorIs | src/services/core/yaml.service.ts:430-459 | a file floor is written over the least floor of its name, ignoring case, or of its order, and is new exactly when there is none; ids are not compared |
| YamlLanding.ImportedFloors | src/services/core/yaml.service.ts:128-202 | the floor phase, for every strategy: the least match of each file floor takes its name, order and known printers, unmatched floors are added in order, other floors keep name and order |
| YamlLanding.ImportedFloorIds | src/services/core/yaml.service.ts:155-195 | the floor ids returned: of a matched floor the row it matched, of a new one its new row |
| YamlLanding.ImportLandsFloors | src/services/core/yaml.service.ts:74-202 | the same of whole imports, for every list of printer strategies |
| YamlLanding.NoFloorAdded | src/services/core/yaml.service.ts:422-471 | when every floor of the file matches one of the farm, none is added |
| YamlLanding.ImportRenamesFloorIff | src/services/core/yaml.service.ts:128-200 | whatever file and strategies: a floor id is returned exactly when some floor that carries it has a good name, good places and, as written, printers that exist |
| YamlLanding.InvalidFileRefused | src/services/core/yaml.service.ts:48 | a file with a floor name that is too short or a place outside the grid is refused and changes nothing |
| YamlLanding.PositionsAsNamed | src/services/core/yaml.service.ts:136-193 | with printers or grid switched off, positions are neither renamed nor filtered |
| YamlLanding.TagsSplit | src/services/core/yaml.service.ts:490-504 | the tags in front of the first known one are new, that one is updated, those behind it are dropped |
| YamlLanding.ImportLandsTags | src/services/core/yaml.service.ts:204-257 | of whole imports: new tags with name, colour and renamed members; the known tag has exactly its renamed members; every other tag is as it was |
| YamlTwice.TagsTwiceIff | src/services/core/yaml.service.ts:204-257 | a second tag phase rewrites the first tag's members alone, and changes nothing exactly when both renamings make the same members of them |
| YamlTwice.FloorsTwiceIff | src/services/core/yaml.service.ts:128-202 | a second floor phase changes nothing exactly when it renames the printers on the floors as the first one did |
| YamlTwice.ImportTwiceIsOnceIff | src/services/core/yaml.service.ts:74-257 | compared by name, with distinct names and every printer placed at most once: importing a file twice is importing it once, whichever printers fail, exactly when the file is invalid or for every file id on a floor or on the first tag the last printer that carries it was in the farm before the first import, or none that carries it was; tag names need not differ |
| YamlTwice.DistinctIdsSettled | src/services/core/yaml.service.ts:89-126 | distinct file ids meet that condition |
| YamlTwice.SharedIdMovesPrinter | src/services/core/yaml.service.ts:89-200 | concrete failure: with a known and a new printer sharing an id that a floor places, the second import changes the farm |
| YamlRoundTrip.PrintersRoundTrip | src/services/core/yaml.service.ts:529-550 | importing exported printers into an empty farm gives the same printers under a bijective renaming |
| YamlRoundTrip.FloorsRoundTrip | src/services/core/yaml.service.ts:552-575 | importing exported floors gives the same floors with the same printers in the same cells, up to renaming |
| YamlRoundTrip.TagsRoundTrip | src/services/core/yaml.service.ts:577-590 | importing exported tags gives the same names and members without the colours |
| YamlRoundTrip.RoundTrip | src/services/core/yaml.service.ts:88-257 | exporting a farm with a fresh floor cache and importing the file into an empty farm where nothing fails gives an isomorphic farm |
| YamlServiceModel.YamlService.AnalysePrintersUpsert | src/services/core/yaml.service.ts:367-420 | splits the printers by the first strategy that matches a row, into those to insert and those to write over the least such row |
| YamlServiceModel.YamlService.AnalyseFloorsUpsert | src/services/core/yaml.service.ts:422-471 | splits the floors by name or order, into those to insert and those to write over the least row of that name or order |
| YamlServiceModel.YamlService.AnalyseUpsertTags | src/services/core/yaml.service.ts:473-509 | splits the tags, stopping at the first that exists |
| YamlServiceModel.YamlService.CreateAll | src/services/core/yaml.service.ts:89-101 | creates printers and renames their ids, going on after a failure |
| YamlServiceModel.YamlService.UpdateAll | src/services/core/yaml.service.ts:103-126 | updates printers and renames their ids, going on after a failure |
| YamlServiceModel.YamlService.KnownPositions | src/services/core/yaml.service.ts:136-152 | keeps the positions of renamed printers, renamed |
| YamlServiceModel.YamlService.CreateAllFloors | src/services/core/yaml.service.ts:128-160 | creates floors through the store, going on after a failure |
| YamlServiceModel.YamlService.UpdateAllFloors | src/services/core/yaml.service.ts:162-200 | updates floors through the store, going on after a failure |
| YamlServiceModel.YamlService.CreateAllTags | src/services/core/yaml.service.ts:204-226 | creates tags and adds their known printers one by one |
| YamlServiceModel.YamlService.UpdateAllTags | src/services/core/yaml.service.ts:228-257 | removes unwanted and adds missing members one by one, which leaves the wanted set |
| YamlServiceModel.YamlService.ImportYaml | src/services/core/yaml.service.ts:66-257 | the whole import is the specification's import of the old farm, for every list of printer strategies and every floor strategy |
| Rpc.StepCalls | src/shared/websocket-rpc-extended.adapter.ts:28-114 | which promises each step settles and in which way: a response resolves, a timer rejects as timed out, close rejects as closed, and nothing else settles |
| Rpc.OutcomesOverRuns | src/shared/websocket-rpc-extended.adapter.ts:28-114 | for any ids, over every run, a promise is resolved, timed out or closed exactly if that happened to its request |
| Rpc.SendRegisters | src/shared/websocket-rpc-extended.adapter.ts:28-50 | a request is registered under its id with a timer of the timeout asked for, at most 3000 ms; without a socket nothing happens |
| Rpc.ConnectionAfter | src/shared/websocket-rpc-extended.adapter.ts:111-114 | only connecting, losing the socket and closing change the connection |
| Rpc.StepKeepsInv | src/shared/websocket-rpc-extended.adapter.ts:28-114 | every waiting request has its own armed timer; nothing waiting or armed is settled; timers are due within 3000 ms of sending |
| Rpc.NeverSettledTwice | src/shared/websocket-rpc-extended.adapter.ts:28-114 | for any ids, no promise is ever settled twice |
| Rpc.StepKeepsMatchedIff | src/shared/websocket-rpc-extended.adapter.ts:28-56 | entries, timers and unsettled promises stay in one-to-one correspondence exactly when a request does not reuse an id in flight |
| Rpc.EveryRequestSettled | src/shared/websocket-rpc-extended.adapter.ts:28-114 | if no id in flight is reused, each request is settled exactly once or still waits with its timer armed: resolved exactly if a response to its id came while it was registered, timed out exactly if its timer fired, closed exactly if close found it waiting; 3000 ms after sending it is settled, and closing settles all and leaves no timer |
| Rpc.StrandedForever | src/shared/websocket-rpc-extended.adapter.ts:100-114 | an unsettled promise without a timer is never settled, not even by close |
| Rpc.StrandedIff | src/shared/websocket-rpc-extended.adapter.ts:36-50 | for any ids, a promise is stranded exactly when the timer of another request under its id fires while it is the one registered |
| Rpc.OutOfDanger | src/shared/websocket-rpc-extended.adapter.ts:65-94 | a request that was answered, closed, timed out or replaced in the table is never stranded afterwards; a response before the older timer saves it |
| Rpc.UnansweredReuseStrands | src/shared/websocket-rpc-extended.adapter.ts:36-50 | a request sent under the id of an older one with an armed timer is stranded when none of these happens before that timer is due |
| Rpc.ReusedIdStrands | src/shared/websocket-rpc-extended.adapter.ts:36-50 | concrete failure: sending twice under one id strands the second promise when the first timer fires |
| RpcAdapterModel.WebsocketRpcExtendedAdapter.SendRequest | src/shared/websocket-rpc-extended.adapter.ts:28-56 | registers the promise and arms its timer; throws without a socket |
| RpcAdapterModel.WebsocketRpcExtendedAdapter.OnMessage | src/shared/websocket-rpc-extended.adapter.ts:65-86 | a response to a registered id resolves its promise and forgets it; others are dropped |
| RpcAdapterModel.WebsocketRpcExtendedAdapter.ClearRequest | src/shared/websocket-rpc-extended.adapter.ts:88-94 | forgets whatever is registered under the id, with its timer |
| RpcAdapterModel.WebsocketRpcExtendedAdapter.OnTimeout | src/shared/websocket-rpc-extended.adapter.ts:41-45 | clears the id, then rejects its own promise as timed out |
| RpcAdapterModel.WebsocketRpcExtendedAdapter.ClearAllRequests | src/shared/websocket-rpc-extended.adapter.ts:100-106 | the loop rejects every waiting request once |
| RpcAdapterModel.WebsocketRpcExtendedAdapter.Close | src/shared/websocket-rpc-extended.adapter.ts:111-114 | rejects all that wait as closed and drops the socket |
| PrinterIndexProofs.StepKeepsIndexed | src/state/printer-socket.store.ts:149-231 | an indexed adapter belongs to the printer it is filed under and may emit |
| PrinterIndexProofs.NoSharing | src/state/printer-socket.store.ts:149-191 | no two printers share an adapter |
| PrinterIndexProofs.CreateOrUpdateEffect | src/state/printer-socket.store.ts:149-191 | an enabled printer is served by an adapter of its id, type and login exactly when the factory did not throw; a disabled one has none; other printers' adapters are unchanged |
| PrinterIndexProofs.CreateBatchEffect | src/state/printer-socket.store.ts:193-197 | a batch serves all its printers exactly when none makes it throw, and throws otherwise |
| PrinterIndexProofs.StepKeepsAgreementIff | src/state/printer-socket.store.ts:193-231 | the index keeps agreeing with the printer cache exactly when no adapter of an unsupported type is needed |
| PrinterIndexProofs.ReloadAgreesIff | src/state/printer-socket.store.ts:61-76 | reloading restores agreement from any state, exactly when every enabled cached printer has a supported type |
| PrinterIndexProofs.IndexAgreesOverRuns | src/state/printer-socket.store.ts:149-231 | over every sequence of created, batch, updated, deleted and reload events whose adapters can be made, socket ids are exactly the enabled cached printers, with matching id, type and login |
| PrinterPurgeProofs.StepKeepsNoOrphanIff | src/state/printer-socket.store.ts:160-173 | a printer gets an adapter that is out of the index but may still emit exactly by a change of its type or a reload while it has an adapter, and never loses it again |
| PrinterPurgeProofs.NoOrphanOverRunsIff | src/state/printer-socket.store.ts:149-231 | the same over runs |
| PrinterPurgeProofs.DeletionIsFinalIff | src/state/printer-socket.store.ts:221-231 | after a deletion no further run short of re-creating the printer brings its events back, exactly when it had no such adapter |
| PrinterPurgeProofs.PurgedStaysPurgedIff | src/state/printer-events.cache.ts:47-104 | from an empty start, that is exactly when its type never changed and no reload found it with an adapter |
| PrinterPurgeProofs.RetypedPrinterReturns | src/state/printer-socket.store.ts:160-173 | concrete failure: change the type, delete, and a late message of the first adapter recreates the events |
| PrinterPurgeProofs.StepKeepsOpenIndexedIff | src/state/printer-socket.store.ts:61-76 | sockets are closed before their adapter is dropped, except by a reload |
| SocketLaws.SavedEnabled | src/state/printer-socket.store.ts:149-191 | the adapter of a saved enabled printer has its type and login, is closed and may emit; it is the old one exactly when that had the type; an old one of another type is closed and otherwise left |
| SocketLaws.SavedUnsupported | src/state/printer-socket.store.ts:149-191 | a printer of an unsupported type keeps the adapter it had, closed |
| SocketLaws.ThrowsIff | src/state/printer-socket.store.ts:160-173 | the call throws exactly for an enabled printer whose adapter does not have its type and cannot be made |
| SocketLaws.AdapterDropped | src/state/printer-socket.store.ts:221-231 | disabling or deleting a printer bars and closes its adapter, takes it out of the index and touches no other |
| SocketLaws.AdapterOpens | src/state/printer-socket.store.ts:96-147 | connecting opens the printer's adapter and touches no other |
| SocketLaws.BatchStops | src/state/printer-socket.store.ts:193-197 | a batch stops at the first printer that throws: those in front are served, its own adapter is closed, those behind are not looked at |
| SocketLaws.SavedIsCached | src/state/printer.cache.ts:92-95 | a saved printer is cached as it is, whether or not it gets an adapter |
| SocketLaws.DeletedAreGone | src/state/printer-socket.store.ts:208-219 | deleted printers leave printer cache, index and events cache, all others stay in all three |
| SocketLaws.MessageStored | src/state/printer-events.cache.ts:124-136 | current messages, and status updates of Moonraker printers, are stored in their own entry with the time they came; every other message changes nothing |
| SocketLaws.RecordStartsEmpty | src/state/printer-events.cache.ts:47-69 | a printer without a record starts with an empty one |
| PrinterMessages.CopyKeysAt | src/state/printer-events.cache.ts:94-96 | the key loop of setEventPartial overwrites exactly the listed keys |
| PrinterMessages.RunDelivers | src/state/printer-events.cache.ts:71-138 | over every run of events, what is remembered of a printer depends only on its own deliveries: messages of its adapters and its deletions |
| PrinterMessages.PrintKeysAreLast | src/state/printer-events.cache.ts:124-135 | over every run, the print keys are those of the last OctoPrint message of the printer, missing ones included, if nothing replaced its record since |
| PrinterMessages.TempsAreLastSent | src/state/printer-events.cache.ts:129-135 | over every run, temperatures are those of the last message that had any, and gone after a deletion |
| PrinterMessages.NothingElseRemembered | src/state/printer-events.cache.ts:80-100 | over every run, OctoPrint messages store no other key |
| PrinterMessages.OthersUntouched | src/state/printer-events.cache.ts:80-104 | over every run, events of other printers do not touch the record of this one |
| PrinterEventsServiceModel.WebsocketAdapter.EmitEvent | src/services/octoprint/octoprint-websocket.adapter.ts:329-340 | nothing leaves a barred adapter; otherwise the listeners get the adapter's printer id |
| PrinterEventsServiceModel.WebsocketAdapter.RegisterCredentials | src/services/octoprint/octoprint-websocket.adapter.ts:100-112 | sets printer id and login |
| PrinterEventsServiceModel.WebsocketAdapter.DisallowEmittingEvents | src/shared/websocket.adapter.ts:28-30 | bars emission |
| PrinterEventsServiceModel.WebsocketAdapter.Close | src/shared/websocket.adapter.ts:19-22 | drops the socket |
| PrinterEventsServiceModel.PrinterEventsCache.GetOrCreateEvents | src/state/printer-events.cache.ts:47-69 | returns the record, storing an empty one if there was none |
| PrinterEventsServiceModel.PrinterEventsCache.SetEvent | src/state/printer-events.cache.ts:71-78 | overwrites one entry of the record |
| PrinterEventsServiceModel.PrinterEventsCache.SetEventPartial | src/state/printer-events.cache.ts:80-100 | the loop copies the listed keys into the stored payload |
| PrinterEventsServiceModel.PrinterEventsCache.OnMessage | src/state/printer-events.cache.ts:124-136 | which messages of which adapter type reach the record |
| PrinterEventsServiceModel.PrinterEventsCache.HandlePrintersDeleted | src/state/printer-events.cache.ts:102-104 | drops the records of the deleted printers and no others |
| PrinterEventsServiceModel.PrinterCache.SetKeyValuesBatch | src/utils/cache/key-diff.cache.ts:19-27 | sets the keys one after the other |
| PrinterEventsServiceModel.PrinterCache.HandlePrinterCreatedOrUpdated | src/state/printer.cache.ts:92-95 | overwrites one printer |
| PrinterEventsServiceModel.PrinterCache.HandlePrintersDeleted | src/state/printer.cache.ts:97-99 | drops the deleted printers and no others |
| PrinterEventsServiceModel.PrinterCache.ListCachedPrinters | src/state/printer.cache.ts:35-41 | lists the cached printers, or the enabled ones |
| PrinterEventsServiceModel.PrinterSocketStore.CreateOrUpdateSocket | src/state/printer-socket.store.ts:149-191 | on objects: every other adapter is untouched, new adapters are fresh, and the store's state is the specified one |
| PrinterEventsServiceModel.PrinterSocketStore.DeleteSocket | src/state/printer-socket.store.ts:221-231 | bars, closes and drops the adapter |
| PrinterEventsServiceModel.PrinterSocketStore.HandleBatchPrinterCreated | src/state/printer-socket.store.ts:193-197 | the loop stops where it throws, and says whether it did |
| PrinterEventsServiceModel.PrinterSocketStore.HandlePrintersDeleted | src/state/printer-socket.store.ts:208-212 | deletes the adapters one by one |
| PrinterEventsServiceModel.PrinterSocketStore.LoadPrinterSockets | src/state/printer-socket.store.ts:61-76 | clears the index, then tries every enabled cached printer |
| PrinterEventsServiceModel.EventEmitter.PrinterCreated | src/state/printer.cache.ts:92-95 | both listeners of the created event together make the specified step; throws when the factory refuses the type of an adapter that must be made |
| PrinterEventsServiceModel.EventEmitter.PrinterUpdated | src/state/printer-socket.store.ts:203-206 | so do those of the updated event, and throw alike |
| PrinterEventsServiceModel.EventEmitter.BatchPrinterCreated | src/state/printer.cache.ts:86-90 | so do those of the batch event, and throw if any printer makes the batch throw |
| PrinterEventsServiceModel.EventEmitter.PrintersDeleted | src/state/printer-socket.store.ts:208-219 | so do the three listeners of the deleted event |
| PrinterEventsServiceModel.EventEmitter.MessageAt | src/state/printer-events.cache.ts:106-112 | a message of any adapter ever made changes the events cache alone, as specified |
| SlashLaws.DedupeSlashes | src/utils/normalize-url.ts:173-202 | the loop terminates; its result is the input without exactly those slashes that follow another slash in a piece between two matched schemes, and has the same segments between slashes |
| Slashes.ExecInSuffix | src/utils/normalize-url.ts:184 | searching on from the last match finds what searching the rest of the string finds |
| SlashProofs.DedupeIdempotent | src/utils/normalize-url.ts:173-202 | passing twice is passing once |
| SlashProofs.DedupeKeepsRuns | src/utils/normalize-url.ts:173-202 | squeezing every run of slashes of the result gives what squeezing the input gives |
| SlashLaws.KeptExactly | src/utils/normalize-url.ts:183-202 | character by character: kept is everything but a slash that follows a slash, and every character of a matched scheme |
| SlashLaws.NothingToDrop | src/utils/normalize-url.ts:193-199 | a string without a double slash is returned unchanged |
| SlashLaws.EndsKept | src/utils/normalize-url.ts:173-202 | the result starts and ends with a slash exactly when the input does |
| SlashLaws.SegmentsKept | src/utils/normalize-url.ts:173-202 | the segments between slashes are those of the input in the same order |
| SlashProofs.OnlySchemeSlashesLeft | src/utils/normalize-url.ts:173-202 | every double slash left ends a matched scheme or starts with the last slash of one |
| SlashProofs.ThirdSlashKept | src/utils/normalize-url.ts:193-195 | the pass neither adds nor removes a third slash behind a scheme |
| SlashProofs.StrayDoubleIff | src/utils/normalize-url.ts:173-202 | a double slash other than the pair ending a scheme is left exactly when the input has a third slash behind a scheme |
| SlashProofs.ThreeSlashesStay | src/utils/normalize-url.ts:173-202 | concrete failure: /file:///x keeps its three slashes |
| DataUrl.Normalize | src/utils/normalize-url.ts:22-69 | popping, shifting and pushing the parts computes the specified normal form; malformed URLs are refused |
| DataUrlProofs.ParseRender | src/utils/normalize-url.ts:23 | a well-formed data URL that is written down is read back |
| DataUrlProofs.NormalAttributeStable | src/utils/normalize-url.ts:41-56 | a normal attribute is normal |
| DataUrlProofs.AnalyseAgain | src/utils/normalize-url.ts:29-66 | what reading back the joined parts gives, in all three cases |
| DataUrlProofs.NormalTwiceIff | src/utils/normalize-url.ts:22-69 | exactly when normalising the parsed URL twice is normalising it once |
| DataUrlProofs.NormalFormIff | src/utils/normalize-url.ts:22-69 | the same on strings, through split, trim, filter and rejoin |
| DataUrlProofs.StandardDataUrlsAreStable | src/utils/normalize-url.ts:22-69 | with a media type that is empty or type/subtype (section 3 of RFC 2397) and data without outer white space, the normal form is stable |
| DataUrlProofs.ShoutedBase64IsUnstable | src/utils/normalize-url.ts:33-40 | concrete failure: data:BASE64, becomes a base64 URL on the second pass |
| DataUrlLaws.AttributeTidied | src/utils/normalize-url.ts:41-56 | an attribute written key=value: both trimmed, a charset in lower case whatever its letters, the default charset dropped, an empty value dropped with its equals sign |
| DataUrlLaws.SecondEqualsCuts | src/utils/normalize-url.ts:42 | what follows a second equals sign is dropped |
| DataUrlLaws.AttributesTidied | src/utils/normalize-url.ts:41-56 | a list of attributes keeps its order, without those that become empty |
| DataUrlLaws.NormalizedUrl | src/utils/normalize-url.ts:22-69 | a URL put together from its pieces becomes: MIME type in lower case, left out when nothing else needs it, tidied attributes, the base64 marker, data trimmed exactly when marked, and the hash unless empty or stripped |
| DataUrlLaws.RefusedIff | src/utils/normalize-url.ts:22-27 | a string is refused exactly when it is not data:, a media type, a comma, data and an optional hash without a line end |
| FileListing.FirstPartsAreDirs | src/services/moonraker.api.ts:147-149 | the proper prefixes of the split path, joined, are exactly the strings followed by a slash in it |
| FileListing.GetFilesRecursive | src/services/moonraker.api.ts:141-159 | the directories are duplicate-free and exactly the strings d with some stripped path starting with d and a slash; the files keep order and count |
| FileListing.DirsPrefixClosed | src/services/moonraker.api.ts:147-149 | the directories are prefix-closed |
| StoredFilesProofs.StoreIsGood | src/controllers/printer-files.controller.ts:183-263 | whichever branch stores the content, it can be read at the reported id and nothing stored is lost |
| StoredFilesProofs.StepKeepsSound | src/controllers/printer-files.controller.ts:183-275 | every call but a direct storage delete keeps: a job's fileStorageId refers to a file that is there, and any hash it has is that file's |
| StoredFilesProofs.DeletionKeepsSound | src/controllers/print-job.controller.ts:335-371 | reference counting keeps that too |
| StoredFilesProofs.DirectDeleteKeepsSoundIff | src/controllers/file-storage.controller.ts:109-113 | deleting a stored file directly keeps it exactly when no job refers to the file or the file cannot be removed |
| StoredFilesProofs.DeletedUnderItsJob | src/controllers/file-storage.controller.ts:109-113 | concrete failure of that |
| StoredFilesProofs.SoundOverRuns | src/services/print-file-downloader.service.ts:103-195 | the same over all runs, calls failing at each modelled stage included |
| StoredFilesProofs.UploadReadBack | src/controllers/printer-files.controller.ts:183-275 | what was uploaded can be read through its job for as long as the job exists |
| StoredFilesProofs.KnownContentIsShared | src/controllers/printer-files.controller.ts:193-232 | content some job already has is not stored again; the new job shares the file of the newest job with that hash |
| StoredFilesLaws.UploadRecords | src/controllers/printer-files.controller.ts:183-275 | an upload in which nothing throws adds one PENDING job with its file and the hash of the content, which makes it the newest job with that hash |
| StoredFilesLaws.NewContentIsStored | src/controllers/printer-files.controller.ts:233-263 | content that no job has is stored under hash and name, with the analysis, hash and name in its sidecar |
| StoredFilesLaws.KnownContentIsDescribed | src/controllers/printer-files.controller.ts:193-232 | for content some job has: the metadata of the file's sidecar, else that job's own, under the new name; else the fresh analysis, and a sidecar with the hash where there was none |
| StoredFilesLaws.SecondUploadShares | src/controllers/printer-files.controller.ts:187-275 | two uploads of one content under any names store one file, to which both jobs refer |
| StoredFilesLaws.FailedUploadRecords | src/controllers/printer-files.controller.ts:183-294 | an upload that throws adds no job, or one without file and hash |
| StoredFilesLaws.DownloadRecords | src/services/print-file-downloader.service.ts:103-195 | a download in which nothing throws makes its job ANALYZED with a file of the content and its hash, and changes no other job |
| StoredFilesLaws.FailedDownloadRecords | src/services/print-file-downloader.service.ts:43-222 | a job that needs no download is left alone; one whose download fails is marked, and nothing else |
| StoredFilesLaws.WantsDownloadWhen | src/services/print-file-downloader.service.ts:43-101 | a job is downloaded exactly when it has no stored file and its printer is known |
| StoredFilesLaws.PrintRecords | src/services/orm/print-job.service.ts:215-262 | a print that starts on the printer without a job of its own adds one without file and hash, which cannot be deleted; a status report changes the status alone |
| StoredFilesLaws.FromFileRecords | src/controllers/print-queue.controller.ts:247-286 | a job made from a stored file refers to that file and takes hash, metadata and name of its sidecar |
| StoredFilesLaws.SidecarWritten | src/services/file-storage.service.ts:256-296 | a sidecar gets metadata and hash, and the first name there is of the one given, the one it had and the one in the metadata |
| StoredFilesLaws.ReanalysisRecords | src/controllers/print-job.controller.ts:251-300 | re-analysis makes the job ANALYZED with the fresh metadata, keeps its file and hash, and rewrites the sidecar |
| StoredFilesLaws.AnalysisRecords | src/controllers/file-storage.controller.ts:125-165 | analysing a stored file records the hash of its content and changes no job |
| StoredFilesLaws.StorageUploadRecords | src/controllers/file-storage.controller.ts:223-278 | an upload to the storage alone stores and describes the file and adds no job; a name some sidecar carries is refused |
| StoredFilesLaws.DeletionRecords | src/controllers/print-job.controller.ts:321-377 | a deleted job is gone; its file and sidecar are gone exactly when that was asked for and no other job refers to the file; jobs being printed stay |
| StoredFilesLaws.DirectDeletionRecords | src/controllers/file-storage.controller.ts:109-113 | a direct delete removes file and sidecar and changes no job |
| StoredFilesProofs.StepKeepsNoLitterIff | src/controllers/print-job.controller.ts:342-371 | exactly which calls leave a stored file that no job refers to |
| StoredFilesServiceModel.PrintFiles.SaveFile | src/services/file-storage.service.ts:102-136 | stores the content under the id of hash and name |
| StoredFilesServiceModel.PrintFiles.DeleteFile | src/services/file-storage.service.ts:147-169 | removes file and sidecar; throws when the file cannot be removed, stays silent when the sidecar cannot |
| StoredFilesServiceModel.PrintFiles.SaveMetadata | src/services/file-storage.service.ts:256-296 | writes the sidecar of a file that is there, keeping an earlier original name |
| StoredFilesServiceModel.PrintFiles.FindDuplicate | src/services/file-storage.service.ts:219-224 | the job with the hash and the highest id, none exactly when no job has the hash |
| StoredFilesServiceModel.PrintFiles.CreatePendingJob | src/services/orm/print-job.service.ts:647-688 | adds a PENDING job, analysed if the metadata has facts |
| StoredFilesServiceModel.PrintFiles.CountJobsReferencingFile | src/services/orm/print-job.service.ts:753-757 | counts the jobs that refer to the file |
| StoredFilesServiceModel.PrintFiles.StoreContent | src/controllers/printer-files.controller.ts:187-263 | the five branches compute the specified store |
| StoredFilesServiceModel.PrintFiles.UploadPrinterFile | src/controllers/printer-files.controller.ts:173-294 | the upload's effect, for every stage at which it may throw: the job refers to the stored file and carries the hash of the content |
| StoredFilesServiceModel.PrintFiles.HandleFileDownloadRequest | src/services/print-file-downloader.service.ts:43-222 | the download's effect, for every stage at which it may throw |
| StoredFilesServiceModel.PrintFiles.CreateJobFromFile | src/controllers/print-queue.controller.ts:247-286 | a job from a stored file takes the hash of its sidecar |
| StoredFilesServiceModel.PrintFiles.DeleteJob | src/controllers/print-job.controller.ts:321-377 | the row goes first, then the file; reports the file deleted exactly when that was asked for, this was the last job to refer to it, and nothing threw |
| StoredFilesServiceModel.PrintFiles.ReAnalyzeJob | src/controllers/print-job.controller.ts:251-300 | re-analysis rewrites the sidecar with the job's hash |
| StoredFilesServiceModel.PrintFiles.AnalyzeFile | src/controllers/file-storage.controller.ts:125-165 | analysing a stored file hashes it anew |

## Left out

- HTTP, MQTT, FTP, SocketIO, logging, dependency injection and middleware: input and output. What they return is a parameter.
- Interleaving at every await: a service call is one step. The upload after a submission is a later step of its own, carrying the position captured when it was submitted.
- Request validation by schemas beyond the length of floor names and the range of coordinates; positions that are not integers.
- `processQueue` only announces the head of the queue, and the print_job columns beside printer, status, position and stored file do not matter to it.
- Ties in database orderings without a full key fall back on the row id. In particular the newest job with a hash is the one with the highest id; jobs created within the same second are ordered by their creation time alone in the original.
- A failed insert uses up no id.
- Floor entries are a map from printers to cells, so the order of a cached floor's printers is not kept; exports list printers, floors and tags by id instead of by date.
- YamlLanding.ImportedFloors: is for files in which no two floors match one row and every printer is placed at most once. Where floors compete for a printer or a cell the floor written later wins, as `FloorGrid.LastWriterWins` says of each single write.
- What a failing create or update of an imported printer leaves behind: it is taken to have no effect on rows and renaming, and which ones fail is a parameter. In the original, a listener that throws on an unsupported printer type (`PrinterEventsServiceModel.EventEmitter.PrinterCreated`) leaves `emit` after the printer's row has been written, so that row stays without being renamed to.
- Printer rows in YAML are name, URL and one value for type, login and enabled flag; normalisation of their URL, the date added and the reason for being disabled are not modelled.
- Settings, users, roles and the legacy format in YAML; the export switches that leave out a whole section.
- Case folding and white space outside ASCII, apart from the no-break space and the byte order mark.
- Hostname, query and port handling of URLs: library behaviour.
- Prefix lookup and directory order in stored-file lookup: the storage is a map from ids to contents. SHA-256 is taken to be injective on contents, and ids on pairs of hash and name.
- Thumbnails of stored files, the values the analysis finds, and merging of metadata reported by printers.
- Adapters have a type, id, login, emission flag and an open or closed socket; authentication, reconnection and message parsing are not modelled, and registering credentials is taken to succeed.
- Messages of adapters without a printer id: every adapter is registered in the call that makes it.
- Diff tracking of the caches.
- Reading log files, image dimensions, client versions and permissions: easy, or decided by libraries.
