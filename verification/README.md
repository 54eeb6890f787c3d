# EventLens: a verified model

EventLens collects the photos of an event, finds and clusters the faces in them, lets guests find
themselves with a selfie, imports whole cloud folders, and starts and stops a rented GPU box to do the
heavy work. Most of it is job-driven: handlers run from queues, concurrently, against one database and
one object store. This project models the parts where that is hard to get right and proves, for every
input, every run and every interleaving the model allows, what the code is there to guarantee.

The database is modelled as maps and sequences, a queue as a sequence, time as integer milliseconds,
random ids as ids not used before. Whatever lies outside the code (the provider, the storage, the
neural network, the clock) appears as a parameter or as a free choice of a step. A handler that runs
alone is a method of a class with its tables as fields, proved against a specification function or
relation; handlers that interleave are state machines with one step per database or storage call.
Every lemma carries `{:induction false}`: each induction is spelled out in the lemma that uses it, and
none rests on an induction hypothesis the verifier generates.

| file | what it models |
|---|---|
| `Common.dfy` | shared definitions |
| `FaceTables.dfy` | face, asset and person rows; the event-scoped k-nearest search |
| `Clustering.dfy` | the recognition job, its runs by one consumer and by two |
| `FaceService.dfy` | the recognition service: handler, drain, re-run entry point |
| `EventIsolation.dfy` | merge, selfie matching, and event isolation over all pipeline steps |
| `FaceDetection.dfy` | IoU, the reconciliation of a detection with stored faces, and the refresh statement |
| `GpuLifecycle.dfy` | the GPU sweep, manual control, holds and heartbeat |
| `ImportListing.dfy` | walking a cloud folder tree and classifying its files |
| `ImportWorkers.dfy` | the concurrent download workers of an import |
| `IngestDedupe.dfy` | uploads and imports racing for one checksum |
| `PersonNaming.dfy` | last-write-wins naming of person clusters |
| `EventExpiry.dfy` | expiry notice and irreversible purge |
| `OrtSession.dfy` | double-checked compile locking in the ML sidecar |
| `RateLimiter.dfy` | the sliding-window limiter |
| `AssetPaging.dfy` | keyset paging of the gallery |
| `JustifiedLayout.dfy` | the justified photo grid |
| `ZipNames.dfy` | entry names of a zip download |
| `TensorShape.dfy` | packing a tensor shape into one word and back |

## Findings

Where a promise does not hold of the code, the code is kept as it is, a run or an input shows the failure,
and a lemma says exactly when the promise holds:

- Two recognition consumers (apps/backend/src/types.ts:100): `OverlapSplitsExactly` says exactly when
  overlapping jobs split a person, `InterleavedConsumersSplitAPerson` builds the run for any two core faces
  in reach, and `OnePendingKeepsShape` is the guarantee as long as decisions do not overlap.
- Merges that meet other statements between their move and their delete
  (apps/backend/src/services/person.service.ts:151-152): `CrossingMergesLoseFaces` and `LateJoinIsLost` are
  runs that leave faces without a person. `DeleteLosesExactly` says when a delete takes nothing away, and
  `MergeLosesNothing` which statements must stay out of the gap.
- A detection that picks a stored face twice (apps/backend/src/services/face.service.ts:133-136): the second
  embedding row violates the primary key (apps/backend/src/migrations/0001-init.ts:179), so the whole refresh
  is refused and the photo is not even marked as detected, although the comment at
  apps/backend/src/services/face.service.ts:162 promises it. `HandleDetectFaces` and `RefusedExactly` say
  exactly when; `CrowdedFaceBlocksTheRefresh` is the failing family.
- A photo detected again at another size (apps/backend/src/services/face.service.ts:121-125): the comment
  promises boxes in the coordinates of the stored faces, but the code scales the wrong way. `ScalesExactly`
  says that it works exactly for an unchanged size; `ResizedPhotoLosesItsFace` is the failing family.
- The generic event update (apps/backend/src/services/event.service.ts:61-64) changes the expiry without
  clearing the purge deadline: `GenericUpdatePurgesUnannounced` is a run in which media is purged with no
  notice for its expiry and no grace; `GenericUpdateSafety` says exactly which updates can lead there, and
  `RiskFromTheRow` what a caller can tell from the row. `PurgeIsDue` holds for every run without a risky
  update or late notice, `PurgeIsFinal` for every run.
- The expiry sweep writes from the row it read, without a second look
  (apps/backend/src/services/event-expiry.service.ts:91-99): `LateNoticePurgesUnannounced` is a run in which an
  extension in between ends in an unannounced purge; `LateNoticeSafety` says exactly when such a write is
  harmless.
- The heartbeat measures idleness from the start of the run, not from the lull
  (apps/backend/src/services/gpu-lifecycle.service.ts:399): `HeartbeatSkipsTheGrace` says exactly when it
  dismisses a box the sweep would keep, and `HeartbeatCutsAnActiveBoxShort` reaches such a state. Comments in
  the source promise a grace period in both places; the model follows the code.
- A gallery page that ends on a photo without a capture time
  (apps/backend/src/repositories/asset.repository.ts:382): `PagingEqualsSort` gives the exact condition under
  which paging still yields the full sort.
- Names given at the very same instant (apps/backend/src/repositories/person.repository.ts:188-191): the
  tie-break inside one query does not keep the winner from flipping between job orders. `ConvergesExactly`
  says exactly when it cannot; `TiesFlip` builds two histories that differ in every other case.
- A shape ending in a zero dimension does not survive packing
  (apps/ml/immich_ml/sessions/ann/loader.py:161): `RoundTrip` is an if-and-only-if.

## Model

| member | source | states |
|---|---|---|
| FaceTables.SearchFaces | apps/backend/src/repositories/face-search.repository.ts:46-79 | refuses row counts outside 1..1000; otherwise some ordering of the event's live embedded faces by distance, limited first and distance-filtered after |
| FaceTables.SearchCounts | apps/backend/src/repositories/face-search.repository.ts:56-77 | limiting before filtering loses no count: exactly min(limit, faces in reach) matches, none out of reach |
| FaceTables.SearchFinds | apps/backend/src/repositories/face-search.repository.ts:56-77 | a search finds exactly live embedded faces on live photos of the event within reach, with a person if asked for, as many as there are up to the limit |
| FaceTables.SearchIsNearest | apps/backend/src/repositories/face-search.repository.ts:71-76 | matches come nearest first and nothing left out is nearer |
| Clustering.CoreGetsPerson | apps/backend/src/services/face.service.ts:249-289 | a face with at least minFaces faces in reach always leaves its job with a person |
| Clustering.DecisionMeans | apps/backend/src/services/face.service.ts:210-289 | the outcome of a job in every case, by density and present assignments alone: skipped if alone, put back if not core on a first visit, joined if someone assigned is in reach, founding if core and nobody is |
| Clustering.NeighbourIsKept | apps/backend/src/services/face.service.ts:241-271 | a face with another face in reach is not dropped on its first visit; with an assigned one in reach it joins or is put back once |
| Clustering.BorderIsDeferred | apps/backend/src/services/face.service.ts:249-256 | on its first visit a face that is not core but has another in reach is put back and nothing else, even next to a person |
| Clustering.FirstVisitIsCore | apps/backend/src/services/face.service.ts:249-256 | on a first visit a face gets a person only if it is core |
| Clustering.FoundingIsIsolated | apps/backend/src/services/face.service.ts:258-285 | a new person is founded only by a core face with no assigned face in reach |
| Clustering.JoinsTheNearest | apps/backend/src/services/face.service.ts:258-271 | the person joined is that of the nearest assigned face of the event, over all of them |
| Clustering.StepDoesWork | apps/backend/src/services/face.service.ts:249-256 | a deferred visit never defers again, so each job is visited at most twice |
| Clustering.Coverage | apps/backend/src/services/face.service.ts:209-342 | every drain of the queue ends within twice its length and leaves assigned every core face and every face within reach of one |
| Clustering.StepKeepsShape | apps/backend/src/services/face.service.ts:232-289 | one job keeps the cluster shape of every event, whatever persons were there before |
| Clustering.ClusterShape | apps/backend/src/services/face.service.ts:232-289 | in every run from an event without assigned faces, the founders of the persons it creates there are core faces pairwise out of reach, and every face it assigns is chained to its founder by same-person hops in reach; other events and left-over persons may look like anything |
| Clustering.CoresFirst | apps/backend/src/services/face.service.ts:249-289 | in every run from an event without assigned faces and a queue of first visits, no face that is not core gets a person while a first visit is left, and every core face with a person is chained to its founder by core faces alone |
| Clustering.ReadThenWriteIsStep | apps/backend/src/types.ts:84-100 | a consumer that writes before anyone else reads takes one atomic step |
| Clustering.OnePendingKeepsShape | apps/backend/src/types.ts:84-100 | any run of any number of consumers with never more than one decision pending keeps the cluster shape |
| Clustering.FoundingKeepsShape | apps/backend/src/services/face.service.ts:273-289 | a founding write, however old its decision, keeps the event's shape if and only if no founder of the event stands within reach by then |
| Clustering.OverlapSplitsExactly | apps/backend/src/types.ts:84-100 | after any run of any number of consumers, however their reads and writes overlap and whatever persons were there before, the event's clusters are in shape if and only if no write founded a person while a founder of the event stood within reach |
| Clustering.InterleavedConsumersSplitAPerson | README.md:176 | for any two core faces in reach, two overlapping consumers found two persons |
| FaceService.Service.HandleRecognizeFaces | apps/backend/src/services/face.service.ts:210-309 | the handler's outcome and writes are those of a decision on the present tables |
| FaceService.Service.TakeJob | apps/backend/src/types.ts:84-100 | the single consumer takes the oldest job, one atomic step |
| FaceService.Service.Drain | apps/backend/src/services/face.service.ts:209-309 | draining terminates with the queue empty, only noise unassigned in every event whose faces were all queued, clusters in shape in every event that had no assigned face, and core faces chained by core faces if only first visits were queued |
| FaceService.Service.QueueRecognizeFaces | apps/backend/src/services/face.service.ts:314-342 | queues exactly the live detected faces of the event that have no person, once each, in id order, after an optional reset |
| FaceService.ResetMeans | apps/backend/src/services/face.service.ts:319-322 | the reset takes the person from exactly the detected faces on live photos of the event and deletes exactly the persons left without a live face |
| FaceService.Service.ReCluster | apps/backend/src/services/face.service.ts:311-342 | a re-run drained to the end assigns every core face of the event and every face in reach of one; a forced one leaves the event's new clusters in shape, whatever other events hold |
| FaceService.PageAfter | apps/backend/src/repositories/face.repository.ts:101-117 | a page is the least ids past the last one, in order |
| EventIsolation.MergeConserves | apps/backend/src/repositories/person.repository.ts:306-318 | with nothing between the move and the delete, a merge moves exactly the sources' faces to the target, loses none, touches no other, deletes exactly the sources |
| EventIsolation.PersonService.Merge | apps/backend/src/services/person.service.ts:129-167 | run alone: refuses a missing target, an empty source list and a source of another event with nothing changed; otherwise merges and counts |
| EventIsolation.DeleteLosesExactly | apps/backend/src/services/person.service.ts:152 | the delete of a merge takes no face's person away if and only if the sources have no faces by then |
| EventIsolation.MergeLosesNothing | apps/backend/src/services/person.service.ts:151-152 | in any run, if between a merge's move and its delete no decision joins a source and no other merge moves faces into one, the delete takes nothing away, and every face the sources had is the target's unless a later step moved or removed that face |
| EventIsolation.CrossingMergesLoseFaces | apps/backend/src/services/person.service.ts:151-152 | for any two persons of an event, two crossing merges delete both and unassign every face they had |
| EventIsolation.LateJoinIsLost | apps/backend/src/services/person.service.ts:151-152 | a decision to join a source, read before the move and written after it, leaves its face unassigned |
| EventIsolation.BestHits | apps/backend/src/services/participant.service.ts:197-209 | for each face found by any selfie, the hit with the smallest distance |
| EventIsolation.RefreshIsolates | apps/backend/src/repositories/face.repository.ts:39-60 | a detection refresh, gone through or refused on its key, keeps isolation |
| EventIsolation.ReadIsolates | apps/backend/src/services/face.service.ts:232-271 | a recognition decision only ever points into the face's own event |
| EventIsolation.WriteIsolates | apps/backend/src/services/face.service.ts:273-289 | each statement that writes a decision (create the person, assign the face), however stale, keeps isolation |
| EventIsolation.MergeIsolates | apps/backend/src/services/person.service.ts:129-152 | every statement of a merge (target read, source reads, move, delete), however late, keeps isolation |
| EventIsolation.MaintenanceIsolates | apps/backend/src/repositories/face.repository.ts:119-129 | forced unassign, person cleanup and photo deletion keep isolation |
| EventIsolation.MatchIsolates | apps/backend/src/services/participant.service.ts:197-218 | matching a participant keeps isolation |
| EventIsolation.MatchMeans | apps/backend/src/services/participant.service.ts:203-218 | every photo hit is matched to the guest through a face that hit it, earlier and other guests' matches stay |
| EventIsolation.ArrivalIsolates | apps/backend/src/services/public.service.ts:122-130 | new photos and participants keep isolation |
| EventIsolation.IsolationHolds | apps/backend/src/repositories/face-search.repository.ts:5-9 | after any mix of all steps, arrivals and half-done merges included, assigned faces and persons, matched participants and photos share one event |
| FaceDetection.IouLaws | apps/backend/src/services/face.service.ts:189-204 | for positive-area boxes IoU is symmetric, in [0,1], and 1 exactly for equal boxes |
| FaceDetection.IouShifted | apps/backend/src/services/face.service.ts:189-204 | a box moved sideways by d overlaps itself by (width - d) / (width + d) |
| FaceDetection.IouApartAndNested | apps/backend/src/services/face.service.ts:189-204 | boxes apart have IoU 0, nested ones the ratio of their areas |
| FaceDetection.OverlapsMeans | apps/backend/src/services/face.service.ts:133 | a detection and a face overlap exactly if they share more than half of what they cover |
| FaceDetection.PickMeans | apps/backend/src/services/face.service.ts:133 | a detection picks the first stored face it overlaps, none exactly if there is none |
| FaceDetection.ScalesExactly | apps/backend/src/services/face.service.ts:122-132 | scaling brings a re-detected box back to its stored coordinates if and only if the image size is unchanged |
| FaceDetection.ResizedPhotoLosesItsFace | apps/backend/src/services/face.service.ts:122-132 | for any stored face away from the edge, detecting the photo again at twice the size removes that face and adds a new one |
| FaceDetection.FaceRepository.RefreshFaces | apps/backend/src/repositories/face.repository.ts:39-60 | one statement: it goes through exactly if no embedding row meets a key already there or repeated, else nothing changes |
| FaceDetection.FaceRepository.HandleDetectFaces | apps/backend/src/services/face.service.ts:112-164 | goes through exactly when no rewriting detection picks a face with an embedding and no two pick the same face; then a stored machine-learning face is gone exactly when no detection picks it, each unpicked detection is a new face with its embedding and the photo is marked; otherwise nothing changes, the mark included |
| FaceDetection.RefusedExactly | apps/backend/src/migrations/0001-init.ts:178-181 | with the faces as the code stores them, the refresh goes through if and only if no two detections pick the same face |
| FaceDetection.CrowdedFaceBlocksTheRefresh | apps/backend/src/services/face.service.ts:133-136 | for any two overlapping detections of one stored face the refresh is refused and a vanished face stays |
| FaceDetection.DetectionIsIdempotent | apps/backend/src/services/face.service.ts:122-152 | the same non-overlapping boxes on the same image pick every stored face once |
| FaceDetection.DetectTwice | apps/backend/src/services/face.service.ts:112-164 | a photo detected twice with non-overlapping boxes stores each detection once and keeps it |
| GpuLifecycle.Service.HandleSweep | apps/backend/src/services/gpu-lifecycle.service.ts:412-554 | the sweep's whole effect on the record and the command it gives |
| GpuLifecycle.SweepCommands | apps/backend/src/services/gpu-lifecycle.service.ts:412-551 | exactly when a sweep starts the box (off, not found running, and the jobs waiting, delayed or live reach the threshold or have waited the maximum age), stops it for a start timeout and stops it for idleness |
| GpuLifecycle.SweepRecords | apps/backend/src/services/gpu-lifecycle.service.ts:432-551 | the state, change time, hold and provider check time a sweep leaves, by what it saw and commanded |
| GpuLifecycle.SweepIdles | apps/backend/src/services/gpu-lifecycle.service.ts:524-544 | the idle clock a sweep leaves |
| GpuLifecycle.StartsOnDemand | apps/backend/src/services/gpu-lifecycle.service.ts:649-677 | in every run no sweep starts the box below both limits, and one that sees a limit reached starts it unless it is not off |
| GpuLifecycle.ManualMeans | apps/backend/src/services/gpu-lifecycle.service.ts:279-329 | what manual start, stop, hold and clear do in every state |
| GpuLifecycle.HoldLasts | apps/backend/src/services/gpu-lifecycle.service.ts:279-329 | a hold keeps sweep and heartbeat from stopping the box for exactly its minutes |
| GpuLifecycle.HeartbeatMeans | apps/backend/src/services/gpu-lifecycle.service.ts:353-407 | exactly when the heartbeat keeps the box up |
| GpuLifecycle.Service.Run | apps/backend/src/services/gpu-lifecycle.service.ts:412-554 | the service over any sequence of sweeps, manual starts, stops and holds: every idle stop comes after a window of quiet sweeps and with no hold, sweeps start on demand only, and no start command follows another before the earlier run ended |
| GpuLifecycle.StartsOnce | apps/backend/src/services/gpu-lifecycle.service.ts:693-819 | between two start commands the start failed, the box was told to stop, or a sweep found it gone |
| GpuLifecycle.PendingZeroIsQuiet | apps/backend/src/services/gpu-lifecycle.service.ts:424-427 | the pending sum is zero exactly when no queue has a waiting, delayed or live-active job |
| GpuLifecycle.IdleClockIsHonest | apps/backend/src/services/gpu-lifecycle.service.ts:524-544 | a running box's idle clock was set by a sweep since which no sweep saw work |
| GpuLifecycle.NeverCutsABatchShort | apps/backend/src/services/gpu-lifecycle.service.ts:453-551 | in every run, an idle stop means every sweep that looked within the idle window saw quiet queues and no hold was in force |
| GpuLifecycle.StopsWhenIdle | apps/backend/src/services/gpu-lifecycle.service.ts:524-551 | a running box whose queues stay empty is told to stop within the idle window plus two sweep intervals |
| GpuLifecycle.StopsDespiteOrphans | apps/backend/src/services/gpu-lifecycle.service.ts:33-44 | orphaned active jobs delay that by at most the stuck limit |
| GpuLifecycle.StartSettles | apps/backend/src/services/gpu-lifecycle.service.ts:455-480 | a starting box is running or told to stop by its start timeout plus one interval |
| GpuLifecycle.WorkIsNotStranded | apps/backend/src/services/gpu-lifecycle.service.ts:649-677 | a waiting job below the threshold still has the off box told to start, or found up, by the maximum age plus one interval |
| GpuLifecycle.HeartbeatTakesOver | apps/backend/src/services/gpu-lifecycle.service.ts:853-880 | after a failed stop, until the worker is gone or someone acts, nothing gives a command and the heartbeat keeps the box up exactly while a job is waiting, delayed or live or a later hold is in force |
| GpuLifecycle.HeartbeatConfirmsStop | apps/backend/src/services/gpu-lifecycle.service.ts:353-407 | when the sweep stops an idle box the heartbeat agrees |
| GpuLifecycle.HeartbeatSkipsTheGrace | apps/backend/src/services/gpu-lifecycle.service.ts:397-406 | exactly when the heartbeat dismisses a box the sweep keeps |
| GpuLifecycle.HeartbeatCutsAnActiveBoxShort | apps/backend/src/services/gpu-lifecycle.service.ts:399-401 | a run from the initial record that gets there |
| ImportListing.ImportService.UpsertListingPage | apps/backend/src/services/import.service.ts:205-263 | a file of a page is skipped if and only if its item was done or skipped with the same checksum, which is present; any other is pending with its own checksum; other items stay; skipped is counted |
| ImportListing.ImportService.HandleImportFolder | apps/backend/src/services/import.service.ts:138-187 | walking a tree lists each media file once, skips exactly the files known with the same checksum, and hands exactly the others (new, edited, failed, without checksum) to workers |
| ImportListing.MediaMeans | apps/backend/src/services/import.service.ts:163 | the MIME type alone decides which files are listed |
| ImportListing.ListingClassifies | apps/backend/src/services/import.service.ts:225-259 | with distinct ids every listed file is classified by the status and checksum its item had before the listing |
| ImportListing.ListAllMeans | apps/backend/src/services/import.service.ts:225-259 | with distinct ids each file is judged against the item as it was before the listing |
| ImportListing.ListingCounts | apps/backend/src/services/import.service.ts:172-178 | the job's items are exactly the listed files, pending or skipped, and total and skipped count them |
| ImportListing.ResyncSkips | apps/backend/src/services/import.service.ts:240-248 | listing an unchanged, imported tree again downloads only files without a checksum |
| ImportWorkers.StepKeepsConsistent | apps/backend/src/services/import.service.ts:268-367 | every statement of every worker keeps statuses, counters and the closing duty consistent |
| ImportWorkers.ImportCompletes | apps/backend/src/repositories/import.repository.ts:119-129 | under every interleaving the job is done only when no item is open; when all workers finish it is done, and each counter is the number of items that ended that way, adding up to the total |
| ImportWorkers.VerdictsAreRecorded | apps/backend/src/services/import.service.ts:286-353 | under every interleaving an item no longer open has the status its own last download earned: stored is done, duplicate skipped, broken failed |
| ImportWorkers.WorkersMove | apps/backend/src/services/import.service.ts:268-367 | a worker can always run its next statement and ends after nine, unless the provider puts it off |
| IngestDedupe.StepKeepsConsistent | apps/backend/src/services/upload.service.ts:38-100 | every call of every request keeps checksums unique, ids private, objects accounted for and results live |
| IngestDedupe.DedupeRace | apps/backend/src/services/import.service.ts:290-333 | however uploads and imports interleave: unique live checksums, every accepted request resolves to a live asset with its checksum, and afterwards the stored originals are exactly the keys of the rows |
| IngestDedupe.OnlyTheRefusedAreRejected | apps/backend/src/services/upload.service.ts:38-65 | an ended request was rejected if and only if it is an upload whose event was not there or which the quota refused; every other one ended with an asset |
| IngestDedupe.FirstRequestCreates | apps/backend/src/services/upload.service.ts:57-87 | a request whose content nobody holds or is ingesting ends by creating an asset under a new id, unless rejected |
| IngestDedupe.DuplicateIsResolvedAtOnce | apps/backend/src/services/upload.service.ts:45-50 | a request for content already there is resolved at its first call and never reaches quota or storage |
| IngestDedupe.RequestsEnd | apps/backend/src/services/upload.service.ts:38-100 | a request can always make its next call and ends after six |
| PersonNaming.PersonRow.NameFromParticipants | apps/backend/src/repositories/person.repository.ts:178-220 | the row becomes that of the latest claim unless its name is at least as new |
| PersonNaming.PersonRow.Replay | apps/backend/src/repositories/person.repository.ts:178-236 | the row after a whole history of renames, claims, joins and naming jobs carries a latest action's name, a rename's if one was made at that instant; if the latest instant is decided, every history with the same actions gives that name |
| PersonNaming.LatestIsLatest | apps/backend/src/repositories/person.repository.ts:181-192 | the claim chosen is the newest through a face of the cluster by a guest who is still there and gave a name, first by name among equals |
| PersonNaming.LexMeans | apps/backend/src/repositories/person.repository.ts:191 | by name means: a prefix, or smaller at the first difference |
| PersonNaming.StampNeverGoesBack | apps/backend/src/repositories/person.repository.ts:213-215 | nameSetAt never decreases over a run |
| PersonNaming.NamingIsIdempotent | apps/backend/src/services/face.service.ts:364-366 | a repeated naming run changes nothing |
| PersonNaming.LastActionWins | apps/backend/src/repositories/person.repository.ts:167-177 | after any history, one naming job leaves the name of a latest human action on the cluster, a rename's if one was made at that instant |
| PersonNaming.NamingConverges | apps/backend/src/repositories/person.repository.ts:167-177 | two histories with the same actions end with the same name and stamp if the latest instant has at most one renamed name and, without a rename, one claimed name; earlier ties do not matter |
| PersonNaming.ConvergesExactly | apps/backend/src/repositories/person.repository.ts:188-215 | all histories with the same actions end with one name if and only if the latest instant is decided in that sense |
| PersonNaming.RenameStands | apps/backend/src/repositories/person.repository.ts:222-228 | an organiser's rename is undone by nothing but another rename or a newer claim |
| PersonNaming.TiesFlip | apps/backend/src/repositories/person.repository.ts:188-191 | for every history whose latest instant is not decided, two histories with the same actions that end with different names |
| EventExpiry.Service.Perform | apps/backend/src/services/event-expiry.service.ts:44-127 | the service over any sequence of actions, sweeps and updates: every action and sweep does exactly what it is for, media is destroyed at most once, only after the expiry, and by the sweep only once the announced grace for the present expiry is over, unless a generic update or a late notice was a risk |
| EventExpiry.ActionsMean | apps/backend/src/services/event-expiry.service.ts:44-83 | purge-now purges exactly a row that is there, expired and not purged, at once and once; extend goes through exactly on a row that is there and not purged, to no expiry or a later one; acknowledge exactly on an expired row |
| EventExpiry.SweepsMean | apps/backend/src/services/event-expiry.service.ts:87-127 | what the two sweeps find, announce and purge, row by row |
| EventExpiry.ExtensionNeedsNewNotice | apps/backend/src/services/event-expiry.service.ts:40-59 | after an accepted extension the sweep destroys the media only after a new notice queued for the expiry then set, purge sweeps already holding the event included, unless an expiry sweep that read before writes a risky notice after |
| EventExpiry.AcknowledgingChangesNothing | apps/backend/src/services/event-expiry.service.ts:61-69 | leave every acknowledgement out of a run and its notices, deadlines and purges are the same |
| EventExpiry.OneNoticePerExtension | apps/backend/src/services/event-expiry.service.ts:88-105 | between two notices there is an accepted extension, unless the second sweep had read the event before the first wrote |
| EventExpiry.StepKeepsSafe | apps/backend/src/repositories/event.repository.ts:81-109 | every step, generic updates and late notices that are no risk included, keeps whatever a sweep holds or could pick up covered by an elapsed notice |
| EventExpiry.PurgeIsDue | apps/backend/src/services/event-expiry.service.ts:108-127 | in every run without a risky update or notice, the sweep purges only if the present expiry passed at least the announced grace ago and its notice was queued for that same expiry |
| EventExpiry.LateNoticePurgesUnannounced | apps/backend/src/services/event-expiry.service.ts:91-100 | a run in which an expiry sweep reads, the organiser extends, the sweep writes, and the new expiry is purged the moment it passes, with no notice for it |
| EventExpiry.LateNoticeSafety | apps/backend/src/services/event-expiry.service.ts:91-100 | from any safe state, some run after the sweep's write has media purged before it is due if and only if the event has another expiry than the one read and no grace announced for it is over in time |
| EventExpiry.PromptNoticesAreSafe | apps/backend/src/services/event-expiry.service.ts:91-100 | no notice is a risk as long as no expiry is changed between a sweep's query and its write |
| EventExpiry.PurgeIsFinal | apps/backend/src/services/event-expiry.service.ts:71-83 | in every run at most one purge, never undone |
| EventExpiry.GenericUpdatePurgesUnannounced | apps/backend/src/services/event.service.ts:61-64 | a run with the default grace in which the generic update leads to a purge with no notice for its expiry |
| EventExpiry.GenericUpdateSafety | apps/backend/src/services/event.service.ts:61-64 | some run after a generic update, with no further risk taken, has the sweep purge before it is due if and only if the update is a risk: on a live event, a new expiry that a sweep in flight or the standing deadline reaches before an announced grace for it is over |
| EventExpiry.RiskFromTheRow | apps/backend/src/services/event.service.ts:61-64 | from the row and the clock alone: a risk in some safe state exactly for a changed, non-null expiry on a live event with a deadline standing or set in the past |
| OrtSession.CompilesOneAtATime | apps/ml/immich_ml/sessions/ort.py:77-98 | at every moment, a session run outside the lock is for a compiled signature, and at most one thread runs uncompiled inputs of a model, holding its lock |
| OrtSession.LocksAreForever | apps/ml/immich_ml/sessions/ort.py:23-29 | a model has one lock forever, shared with no other model |
| OrtSession.CompiledOnce | apps/ml/immich_ml/sessions/ort.py:86-92 | a signature is marked compiled at most once and never unmarked |
| OrtSession.CompileOutcome | apps/ml/immich_ml/sessions/ort.py:86-98 | a compile run that returns is marked, one that raises marks nothing and gives the lock back |
| OrtSession.CompiledNeedsNoLock | apps/ml/immich_ml/sessions/ort.py:77-85 | a call whose inputs are compiled when it starts never asks for a lock |
| OrtSession.ReturnedIsCompiled | apps/ml/immich_ml/sessions/ort.py:86-98 | once a call has returned its inputs are compiled |
| OrtSession.SomeThreadCanStep | apps/ml/immich_ml/sessions/ort.py:87-95 | no deadlock, even after a raising compile run |
| RateLimiter.Limiter.Consume | apps/backend/src/utils/rate-limiter.ts:14-34 | answers every call as a limiter that forgets nothing would |
| RateLimiter.Limiter.EvictStale | apps/backend/src/utils/rate-limiter.ts:25-32 | removes exactly the keys with nothing after the cutoff |
| RateLimiter.Replay | apps/backend/src/utils/rate-limiter.ts:14-34 | over whole sequences, a call is let through if and only if fewer than `limit` accepted calls of its key are less than a window old |
| RateLimiter.WindowBound | apps/backend/src/utils/rate-limiter.ts:16-21 | no half-open window holds more than `limit` accepted calls of a key |
| AssetPaging.PageIsNextSlice | apps/backend/src/services/asset.service.ts:51-86 | a page is the next slice of the full sort, with a cursor exactly if more remains |
| AssetPaging.PagingEqualsSort | apps/backend/src/repositories/asset.repository.ts:361-391 | following the cursors yields the full sort exactly when there is one page, or the first page ends on a row with a capture time, or all later rows compare as older than the epoch cursor it leaves |
| AssetPaging.FollowCursors | apps/backend/src/services/asset.service.ts:82-86 | following the cursors terminates |
| JustifiedLayout.Layout | apps/web/src/lib/justified.ts:30-69 | one box per photo in order, ratios kept, rows greedy and no taller than the target, every row but the last spanning the container exactly, the last inside, container height at the last bottom |
| JustifiedLayout.FlushRow | apps/web/src/lib/justified.ts:41-51 | the boxes of one row side by side with gaps |
| JustifiedLayout.BoxesApart | apps/web/src/lib/justified.ts:41-51 | no two boxes overlap |
| JustifiedLayout.BoxInside | apps/web/src/lib/justified.ts:53-66 | no box sticks out of the container, sideways, at the top or below the last row's bottom, which is the container height |
| ZipNames.EntryNames | apps/backend/src/services/asset.service.ts:278-294 | terminates on every list; entry names pairwise distinct; each its filename or the first free numbered variant |
| ZipNames.FreeName | apps/backend/src/services/public.service.ts:341-350 | the suffix loop ends with the first free name |
| ZipNames.SuffixedInjective | apps/backend/src/services/asset.service.ts:285-291 | different counters give different candidates |
| ZipNames.SuffixedMeans | apps/backend/src/services/asset.service.ts:285-291 | a candidate is the name with " (counter)" between stem and extension, a leading dot being no extension |
| ZipNames.DecimalMeans | apps/backend/src/services/asset.service.ts:285-291 | the counter is its decimal number without leading zeros |
| TensorShape.Pack | apps/ml/ann/ann.cpp:106-116 | the OR of shifted dimensions is their sum and fits 64 bits |
| TensorShape.Unpack | apps/ml/immich_ml/sessions/ann/loader.py:159-165 | the base-65536 digits of the word |
| TensorShape.OrIsSum | apps/ml/ann/ann.cpp:113-114 | bits that do not meet add up |
| TensorShape.RoundTrip | apps/ml/immich_ml/sessions/ann/loader.py:159-165 | unpacking what was packed returns the shape exactly when it does not end in zero |
| TensorShape.SendShape | apps/ml/ann/ann.cpp:106-116 | both sides in sequence; a trailing zero is what is lost |

## Left out

- Vector-index recall: searches are exact; an approximate index may miss neighbours.
- Embeddings and neural inference: only the distance function between faces is kept.
- Job retries and stalled jobs: a failed recognition or detection job is dropped and none runs twice by accident; worker crashes are not modelled.
- Atomicity of the GPU sweep: each sweep, manual command or hold is one step at one instant, so a hold written between a sweep's read and its stop is not modelled.
- GPU record fields that only inform (machine id, last error, last start and stop times), the audit log and the next-action message.
- Import cancellation, rate-limited listings that restart over a changed tree, and two imports of one folder at once.
- Folder graphs with cycles: a listing is over a finite tree of folders.
- Staging files, AssetProcess jobs and quota arithmetic: only whether the quota service accepts an upload.
- Deletion of assets during ingest; storage and database calls that fail halfway.
- ImportWorkers.ImportCompletes: states what holds when all workers have finished, not that they do, because a provider may rate-limit forever.
- EventExpiry.Service.Perform: extend, acknowledge and purge-now each read and write the row in one step, and so do the purge sweep's re-read and purge; a purge queued twice by two such calls at once is not modelled.
- Clustering.OverlapSplitsExactly: each write lands on a face without a person, so two pending jobs for one face are not covered, and creating a person and assigning its face are one step (they are two in the isolation runs).
- FaceDetection.FaceRepository.HandleDetectFaces: the stored faces are read and refreshed in one step, and box coordinates are not rounded to the integer columns.
- Organisation checks on event routes; several events at once, since a row's steps touch no other row.
- JustifiedLayout.Layout: real arithmetic instead of floating point.
- FaceDetection.IouLaws: real arithmetic instead of floating point.
- Cursor encoding as base64 JSON, the face-status filter of the gallery and presigned links.
- OrtSession.CompilesOneAtATime: the MIGraphX provider only; other providers take no lock.
- Person thumbnails and crops, e-mails, selfie retention, authentication, quotas, plans, admin statistics and the web interface.
