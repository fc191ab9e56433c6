# Verified model of a command-line cloud drive

The server keeps each user's directory tree in a database and the file contents, once per
SHA-256 digest, in an object directory. Clients change directories and files over one control
connection and run uploads and downloads, which may be interrupted and resumed, over others.
The project models the parts in which several structures or several threads have to agree:

- `WheelSpec`, `TimerWheel`: idle connections expire through a timing wheel. The wheel of linked
  nodes refines a map from fd to deadline; `WheelSpec` says exactly what expires when.
- `SessionSpec`, `SessionTable`: sessions and the connections bound to them, in two hash indexes
  and a list per session, against one small relation.
- `FdOwnership`: who may use a client's fd. Event loop, epoll set, wheel, session table and
  workers as a machine of small steps, over runs in which fd numbers are used again.
- `FdRequests`: what these steps achieve. A small machine that says whose an fd is, the way of a
  request to its worker and of its connection back, and how a batch of events is worked off.
- `FileStream`, `Uploads`, `UploadRuns`, `UploadHandlers`, `Downloads`, `DownloadRuns`,
  `DownloadHandlers`, `Recovery`: resumable transfers. What each end does with whatever it
  receives; both ends together over bounded channels, with failures anywhere; the loops of the
  source against that; and what a part left from before may do.
- `Tables`, `MetadataDao`, `PathTree`, `BasicHandlers`, `Drive`, `Collisions`: the tables, the
  transactions on them under any interleaving, and the requests, one at a time, on tables and
  object directory together.
- `RoundTrip`: where a transfer goes and what comes back, across all of these.
- `ThreadPool`, `TaskQueue`: the worker pool's condition variables and its linked queue.
- `TransferManager`, `ActiveTransfers`: the client's background transfers and its linked list.
- `Paths`, `Framing`, `ByteOrder`: path resolution, packets on a byte stream, 64-bit byte order.
- `Basics`, `ListContents`: shared types, and the contents of linked lists.

Where the source updates linked nodes, arrays or tables in place, classes with loops do so here
and are proved against functions on plain values; the properties are then proved of those
functions, and of state machines whose steps they are. The clock, random numbers, system calls
that may fail, allocation and what peers send are parameters. SHA-256 is any function to strings;
where a property needs that it has no collisions, this is a hypothesis of its own (`Injective`,
`IsDigest`); `Digests` shows that it can be met.

## Model

| member | source | states |
|---|---|---|
| `TimerWheel.TimerWheel.AdvanceAt` | src/server/timer_wheel.c:292-328 | the nested loops over linked nodes refine one sweep of a map from fd to deadline: every second from the old one to the new examines each entry of its slot exactly once, the expired fds come out once each, the rest stay with their deadlines |
| `WheelSpec.ExactExpiry` | src/server/timer_wheel.c:292-328 | while every deadline is ahead of the wheel, a sweep takes exactly the fds whose rounded-up deadline has come, and, only after a whole turn, those whose deadline has; nothing goes early, and survivors are ahead of the wheel again |
| `WheelSpec.RunExpiresExactly` | src/server/timer_wheel.c:163-328 | the same over every run of track, touch, remove and advance that arms entries in time |
| `WheelSpec.SweptExactly` | src/server/timer_wheel.c:292-328 | with no assumption on arming times: a due entry goes exactly when the sweep reaches the next visit of its slot, at most one turn later |
| `WheelSpec.Arming` | src/server/timer_wheel.c:163-185 | when arming keeps deadlines ahead of the wheel and within one turn: the exact condition on the arming time, for both |
| `WheelSpec.SpareSlot` | src/server/timer_wheel.c:123 | the slot in addition to the timeout is what keeps a rounded-up deadline from being visited early; with one slot fewer it would be |
| `WheelSpec.ExaminedAtOwnTick` | src/server/timer_wheel.c:301-325 | an entry within one turn is examined at its own tick only, and then removed, whatever else is tracked |
| `WheelSpec.RelinkedIff` | src/server/timer_wheel.c:319-322 | with nothing asked of other entries: an entry ahead of the wheel reaches the relink branch exactly if it is not due and its slot comes up before its tick; that takes a deadline more than one turn ahead |
| `WheelSpec.ArmedInTimeIsNeverRelinked` | src/server/timer_wheel.c:163-328 | over every run: an entry armed in the wheel's own second never reaches it until it is armed anew or removed, even next to entries armed while the wheel lags |
| `WheelSpec.LaggingIsRelinked` | src/server/timer_wheel.c:319-322 | in particular, an entry armed while the wheel lags by more than a turn reaches the relink branch |
| `WheelSpec.SweepKeepsWithinOneTurn` | src/server/timer_wheel.c:292-328 | a sweep leaves the entries within one turn of the new second |
| `WheelSpec.SlotsShared` | src/server/timer_wheel.c:79-89 | two seconds share a slot exactly if a whole number of turns lies between them, seconds before the epoch and their 64-bit wrap-around included |
| `WheelSpec.IdleForTheTimeout` | src/server/timer_wheel.c:163-328 | over every run: an entry armed in the wheel's own second and left alone since is taken out only by a sweep that comes the whole timeout after it, to the nanosecond, and is gone as soon as the wheel has reached that time |
| `WheelSpec.TimesAreNanos` | src/server/timer_wheel.c:35-50 | comparing, adding the timeout and rounding up to a second agree with arithmetic on nanoseconds |
| `WheelSpec.RemovedStaysOut` | src/server/timer_wheel.c:272-328 | what is removed is not tracked again until it is armed again |
| `TimerWheel.TimerWheel.SweepSlot` | src/server/timer_wheel.c:301-325 | one second examines the nodes of its slot once each although survivors move to the head of the list being walked |
| `TimerWheel.TimerWheel.Walk` | src/server/timer_wheel.c:302-325 | the inner loop: after i nodes, the first i have been examined, the due ones freed, the others relinked in front |
| `TimerWheel.TimerWheel.FindNode` | src/server/timer_wheel.c:52-63 | the hash chain search finds the node of an fd exactly if it is tracked |
| `TimerWheel.TimerWheel.UnlinkSlot` | src/server/timer_wheel.c:65-77 | unlinking keeps the doubly linked slot list with its back links, minus the node |
| `TimerWheel.TimerWheel.LinkSlot` | src/server/timer_wheel.c:79-89 | linking puts the node at the head of the slot of its tick, back links included |
| `TimerWheel.TimerWheel.UnlinkHash` | src/server/timer_wheel.c:91-102 | unlinking from the hash chain leaves the other nodes of the chain in order |
| `TimerWheel.TimerWheel.constructor` | src/server/timer_wheel.c:109-141 | a new wheel tracks nothing and has one slot more than the timeout |
| `TimerWheel.TimerWheel.TrackLocked` | src/server/timer_wheel.c:163-185 | tracking adds one fd with its deadline and fails, changing nothing, for an fd that is tracked or without memory |
| `TimerWheel.TimerWheel.TrackAt` | src/server/timer_wheel.c:187-200 | which calls succeed, exactly, and the map afterwards |
| `TimerWheel.TimerWheel.TrackAndPublish` | src/server/timer_wheel.c:216-239 | either the fd is tracked and published or the wheel is as before, rollback included |
| `TimerWheel.TimerWheel.TouchAt` | src/server/timer_wheel.c:241-262 | a tracked fd moves to its new deadline; anything else changes nothing |
| `TimerWheel.TimerWheel.Remove` | src/server/timer_wheel.c:272-290 | the fd is no longer tracked and no other entry changes |
| `TimerWheel.TimerWheel.Size` | src/server/timer_wheel.c:340-351 | the count is the number of tracked fds |
| `SessionTable.SessionTable.Create` | src/server/session.c:188-266 | over both hash indexes and the connection lists, creation does what it does to the abstract pair (sessions, bindings): fresh non-zero id, root directory, one binding, or nothing |
| `SessionTable.SessionTable.Authorize` | src/server/session.c:268-321 | the fd is bound to the session of the id or was already; otherwise it is refused with nothing changed; the context returned is the current one |
| `SessionTable.SessionTable.UpdateCwd` | src/server/session.c:323-357 | only a bound fd changes the directory, and of its own session only |
| `SessionTable.SessionTable.DetachFd` | src/server/session.c:359-413 | the binding goes from both lists, and the session with it exactly if that was its last |
| `SessionTable.SessionTable.FindSession` | src/server/session.c:89-102 | finds the session of an id exactly if there is one |
| `SessionTable.SessionTable.FindBinding` | src/server/session.c:104-117 | finds the binding of an fd exactly if there is one |
| `SessionTable.SessionTable.CutFd` | src/server/session.c:372-383 | the link-pointer loop takes the binding out of its fd chain and leaves the rest in order |
| `SessionTable.SessionTable.CutConnection` | src/server/session.c:386-392 | the second loop takes it out of its session's connection list |
| `SessionTable.SessionTable.CutSession` | src/server/session.c:396-407 | the third loop takes an emptied session out of its id chain |
| `SessionTable.SessionTable.CountIsBound` | src/server/session.c:359-413 | connection_count is the number of fds bound to the session |
| `SessionSpec.ChosenIsFresh` | src/server/session.c:213-231 | an id is settled on exactly when some attempt finds an unused one before any attempt fails, and it is that one |
| `SessionSpec.RunsAreOk` | src/server/session.c:188-413 | after every sequence of calls: ids are non-zero, a session exists exactly if some fd is bound to it, and every binding leads to a session |
| `SessionSpec.ApplyKeepsOk` | src/server/session.c:188-413 | every call keeps that relation |
| `SessionSpec.BindingsAreStable` | src/server/session.c:268-413 | an fd changes or loses its session only by its own detach |
| `SessionSpec.AuthorizeSeesLatestCwd` | src/server/session.c:268-357 | whichever fd asks, it gets the directory that any fd of the session set last |
| `SessionSpec.AuthorizeSeesOwner` | src/server/session.c:188-321 | whoever is authorized acts for the user for whom the session was opened, after any calls in between |
| `SessionSpec.FailuresChangeNothing` | src/server/session.c:188-357 | failed calls leave the relation unchanged |
| `SessionSpec.AuthorizesIff` | src/server/session.c:268-321 | an id is authorized on an fd exactly if its session is there and the fd is bound to it, or is bound to none and a binding can be allocated; the context and the table afterwards |
| `SessionSpec.CreatesIff` | src/server/session.c:188-266 | a session is opened exactly if the fd is new, the name fits and some attempt settles on an id; the table afterwards |
| `SessionSpec.UpdatesIff` | src/server/session.c:323-357 | a directory is set exactly if the fd is bound to the session and the path is absolute and fits; it is all that changes |
| `SessionSpec.DetachesExactly` | src/server/session.c:359-413 | detaching takes one binding away, and exactly the session that had no other |
| `SessionSpec.LoginIsAuthorized` | src/server/session.c:188-413 | over every sequence of calls: after a login its connection is authorized for the session it got, as the user who logged in, until it detaches |
| `SessionSpec.JoinIsAuthorized` | src/server/session.c:268-413 | so is a further connection once it has been authorized, without allocating again |
| `SessionSpec.DetachedIsFree` | src/server/session.c:359-413 | a connection that has detached is bound to nothing; its session is gone exactly if no other has it |
| `FdOwnership.FdsArePartitioned` | src/server/handler_event.c:44-181 | in every reachable state between two events, the epoll set equals the wheel's fd set, is disjoint from the fds of workers, and with them makes up the open client fds; no fd has two tasks |
| `FdOwnership.ClosesItsOwnConnection` | src/server/main.c:47-56 | expiry, hang-up and workers only ever close the very connection, by serial number and not just by fd, that they took up, and never a worker's |
| `FdOwnership.ReusedFdIsClean` | src/server/handler_event.c:33-65 | an fd number that is handed out again has no session, wheel entry, epoll entry or task left |
| `FdOwnership.BindingsAreCurrent` | src/server/handler_event.c:33-42 | over runs with reuse of fd numbers, a binding belongs to the connection that has the fd now |
| `FdOwnership.EventsAreCurrent` | src/server/main.c:307-366 | an event is handled for the connection it was raised for |
| `FdOwnership.SessionOutlivesJob` | src/server/handler_transfer.c:83-88 | the session of a running request or transfer stays in the table until its worker detaches, even if the control fd expires first |
| `FdOwnership.SweepWaitsForBatchEnd` | src/server/main.c:361-366 | the machine with one more move, sweeping in the middle of a batch, has a run, for every fd, in which an event is handled for a later connection of the same number; `FdOwnership.EventsAreCurrent` rules that out for the machine of the source |
| `FdOwnership.StepKeepsInv` | src/server/handler_event.c:33-181 | accept, dispatch, republish, hang-up, expiry and their failures, in single steps of event loop and workers, keep the invariant |
| `FdOwnership.RepublishKeepsInv` | src/server/handler_basic.c:137-151 | handing a control fd back to epoll and the wheel keeps the invariant |
| `FdOwnership.WorkerDetachKeepsInv` | src/server/handler_transfer.c:83-88 | so does the first of a transfer's last three steps |
| `FdRequests.RunPasses` | src/server/handler_event.c:33-181 | every run refines a small machine in which an fd is free, idle, in the event loop or at one worker: which step passes which fd from whom to whom, and that it leaves every other fd where it is |
| `FdRequests.StatusMeans` | src/server/handler_event.c:33-181 | what these words mean: idle is watched by epoll and tracked by the wheel under the connection's own serial, and no worker's |
| `FdRequests.RequestReachesWorker` | src/server/handler_event.c:101-180 | over every run: a request is queued for the connection of its event, of the kind and in the session that were checked, and the batch goes on with the next event |
| `FdRequests.ConnectionComesBack` | src/server/handler_basic.c:137-151 | over every run: once a command is done and its connection handed back, however much later, epoll and the wheel have the same connection again, it is still in the session that was checked, and no worker has it |
| `FdRequests.JobLasts` | src/server/handler_event.c:157-180 | a task stays what it was queued as, and task ids do not come back |
| `FdRequests.BatchIsWorkedOff` | src/server/main.c:307-366 | a batch takes at most eight steps of the event loop for each event, whatever workers do; what is left is always a rest of it, and the timer is not forgotten |
| `FdRequests.BatchCanGoOn` | src/server/main.c:307-366 | and until the loop waits again, some step of it is possible whatever the calls come to |
| `FdRequests.TimerLeadsToSweep` | src/server/main.c:334-366 | after the last event the wheel is swept exactly if the timer had fired in the batch |
| `FdRequests.ClientsAreTakenIn` | src/server/handler_event.c:44-65 | a client that connects ends up open, watched and tracked under a new serial, and nothing else is different |
| `FdRequests.ClientsAreLetGo` | src/server/handler_event.c:33-99 | a client that hangs up ends up closed and out of epoll, the wheel and its session, and nothing else is different |
| `FdRequests.IdleClientsAreLetGo` | src/server/main.c:47-56 | so does an idle client while the wheel is swept |
| `FdRequests.AuthorizedAreAdmitted` | src/server/handler_event.c:114-128 | a request can be admitted exactly if its session is there and its fd is bound to it or can be; it is bound to it then |
| `FdRequests.RequestsAreHandedOver` | src/server/handler_event.c:130-180 | an admitted request ends up with a worker that has its connection alone |
| `FdRequests.CommandsAreRepublished` | src/server/handler_basic.c:137-151 | a worker can always hand a control connection back: watched and tracked, the task gone, nothing else different |
| `FdRequests.TransfersAreClosed` | src/server/handler_transfer.c:83-88 | a worker that is done with a transfer leaves its connection closed and out of its session, and nothing else different |
| `FdRequests.LoginsBind` | src/server/handler_basic.c:251-320 | a login opens a session in the root for its user, bound to its connection, exactly if that has none, the name fits and an id is found |
| `Uploads.AttemptIsSafe` | src/server/handler_transfer.c:231-397 | for every sender, chunking, interruption and failing system call: every object has the digest that names it, a newly published one the claimed size; other digests are left alone; only stored content is acknowledged |
| `Uploads.PublishedIsStored` | src/server/handler_transfer.c:343-397 | an upload that is verified and renamed, or finds the object there, leaves content of its digest and size in the store and no part; it is acknowledged exactly if the rows can be written |
| `Uploads.UnpublishedStoresNothing` | src/server/handler_transfer.c:199-371 | any other upload leaves the store as it was, and is acknowledged exactly if it was linked and the resume offset could be sent |
| `UploadRuns.UploadIsExact` | src/client/transfer.c:203-315 | client and server together, over any number of interrupted attempts and next to uploads of other digests: the part is a prefix of the source, a success means the very source is stored, an attempt during which nothing fails ends in success |
| `UploadRuns.FaultlessSucceeds` | src/client/transfer.c:203-315 | an attempt none of whose steps is a fault succeeds, with the very source stored |
| `UploadRuns.NeverBothWait` | src/client/transfer.c:239-308 | the two ends are never both waiting to receive with nothing on the way |
| `UploadRuns.NextStep` | src/server/handler_transfer.c:210-341 | until both ends are done one of them can go on without any failure, in every branch, even if the connection holds one packet at a time |
| `UploadRuns.AttemptsEnd` | src/client/transfer.c:272-308 | every step of either end uses up some of a measure, so every attempt ends |
| `UploadRuns.AttemptIsBounded` | src/client/transfer.c:203-315 | an attempt takes at most three steps of the two ends for each byte of the file and fourteen more |
| `UploadRuns.StepKeepsInv` | src/server/handler_transfer.c:231-397 | each step of either end keeps the relation between the phases, the packets on the way and the part |
| `Uploads.OnPacketGrows` | src/server/handler_transfer.c:282-340 | only a data packet of the own session with 1 to 4096 bytes, and no more than are missing, changes the part, and only by growing it; a packet of another session ends the upload |
| `Recovery.UploadSucceedsIff` | src/server/handler_transfer.c:253-371 | with two honest ends and no failure, an upload is acknowledged exactly if what is kept of the part is a prefix of the file; no part is left either way |
| `Recovery.TwoUploadsSuffice` | src/server/handler_transfer.c:366-371 | so whatever the part held, the second attempt gets through |
| `Recovery.InterruptedUploadIsKept` | src/server/handler_transfer.c:231-341 | an upload that loses its connection after any number of packets keeps exactly what they brought, and publishes nothing |
| `Recovery.UploadIsResumed` | src/server/handler_transfer.c:231-397 | an upload cut off anywhere and taken up again with what is missing then is acknowledged, and the file stored, exactly if it would have been in one go |
| `UploadHandlers.UploadServer.HandlePuts` | src/server/handler_transfer.c:231-397 | the handler, step by step, makes the attempt that its packets and the results of its system calls determine; with an honest sender and no failure it acknowledges, and has stored the file, exactly if what is kept of the part is a prefix of it |
| `UploadHandlers.UploadServer.ReceiveAll` | src/server/handler_transfer.c:272-341 | the receiving loop takes in the packets one by one, the end marker included, and stops exactly where the specification stops; each write fails exactly if its calls do not carry the chunk |
| `UploadHandlers.UploadServer.Open` | src/server/handler_transfer.c:231-279 | resuming: the offset is the size of the part, or zero after cutting off one that is too long; if it cannot be sent the upload ends there |
| `UploadHandlers.UploadServer.Publish` | src/server/handler_transfer.c:343-396 | verification and publication, the fall-back of a failed rename included |
| `UploadHandlers.SendFrom` | src/client/transfer.c:267-299 | however reads cut the file, what is sent continues it from the offset in chunks of 1 to 4096 bytes, as far as the reads give it; all of it and the end marker exactly if they give all |
| `FileStream.WriteN` | src/common/utils.c:477-497 | all of the data is appended exactly if the calls let as much through; otherwise as much of it as they do, and the call fails |
| `FileStream.StreamCarries` | src/client/transfer.c:272-299 | a stream of chunks that continues a file carries exactly that range of it |
| `Downloads.TargetIsSafe` | src/client/transfer.c:331-462 | for every sender, interruption and failing system call: the target keeps its old content or has the declared size and digest, and it has them whenever the client acknowledges |
| `DownloadRuns.DownloadIsExact` | src/client/transfer.c:331-462 | the same at every point of every run with any number of attempts; success gives the stored bytes when the metadata describes them and digests do not collide; a part that is a prefix stays one and then an attempt without failure succeeds |
| `DownloadRuns.FaultlessSucceeds` | src/client/transfer.c:331-462 | an attempt none of whose steps is a fault succeeds, if the part was a prefix and the metadata describes the object |
| `DownloadRuns.NeverBothWait` | src/client/transfer.c:396-455 | the two ends are never both waiting to receive with nothing on the way, whatever metadata and object are |
| `DownloadRuns.NextStep` | src/server/handler_transfer.c:505-583 | until both ends are done one of them can go on without any failure, in every branch |
| `DownloadRuns.AttemptsEnd` | src/server/handler_transfer.c:544-583 | every step of an attempt uses up some of a measure, so every attempt ends |
| `DownloadRuns.AttemptIsBounded` | src/server/handler_transfer.c:437-584 | an attempt takes at most three steps for each byte of the object and seventeen more |
| `DownloadRuns.StepKeepsInv` | src/server/handler_transfer.c:437-584 | each step of either end keeps the relation between the phases, the packets on the way and the local files |
| `Downloads.OnPacketFetches` | src/client/transfer.c:402-438 | only a data packet of the own session with 1 to 4096 bytes, and no more than are missing, changes the part, and only by growing it; the target is not touched |
| `Recovery.DownloadSucceedsIff` | src/client/transfer.c:367-455 | with two honest ends and no failure, a download succeeds exactly if what is kept of the part is a prefix of the file |
| `Recovery.CorruptDownloadStaysStuck` | src/client/transfer.c:439-444 | as a failed check keeps the part, a download with a corrupt part fails the same way again |
| `Recovery.InterruptedDownloadIsKept` | src/client/transfer.c:363-438 | a download that loses its connection after any number of packets keeps exactly what they brought |
| `Recovery.DownloadIsResumed` | src/client/transfer.c:331-462 | a download cut off anywhere and taken up again succeeds exactly if it would have in one go |
| `Recovery.PresentIsAcknowledged` | src/client/transfer.c:363-455 | a download of what the target holds already succeeds on the end marker alone and changes no file |
| `DownloadHandlers.Downloader.RunDownload` | src/client/transfer.c:348-461 | step by step, the attempt that its packets and the results of its system calls determine; success exactly if the acknowledgement goes out, and only with verified content in the target; with an honest sender and no failure exactly if what is kept of the part is a prefix of the file |
| `DownloadHandlers.Downloader.ReceiveAll` | src/client/transfer.c:402-438 | the receiving loop takes in the packets one by one, the end marker included, and stops exactly where the specification stops |
| `DownloadHandlers.Downloader.Open` | src/client/transfer.c:363-394 | which file is resumed from where: a target that matches, or the part, cut off if too long |
| `DownloadHandlers.Downloader.Settle` | src/client/transfer.c:439-455 | only a complete part that matches replaces the target |
| `DownloadHandlers.SendFrom` | src/server/handler_transfer.c:536-573 | the object from the offset on, in chunks of 1 to 4096 bytes, and the end marker, exactly if every chunk gets through; otherwise a prefix |
| `DownloadHandlers.SendFileExact` | src/server/handler_transfer.c:400-424 | the exact range, exactly if the calls move as much; otherwise as much as they do and a failure |
| `Tables.ReferencesAreConserved` | src/server/dao_transfer.c:9-143 | under any interleaving of transactions, with arguments from any older state, the count of every file is the number of path rows that name it, and at least one |
| `Tables.TransactionKeepsOk` | src/server/dao_basic.c:142-272 | each transaction keeps counts, unique keys and unused ids |
| `Tables.TransactionMovesNames` | src/server/dao_transfer.c:9-143 | a link or a creation at a free path adds exactly the new row to those that name its file, a removal takes exactly its row away, and no other transaction moves any |
| `Drive.DriveIsConsistent` | src/server/handler_basic.c:747-766 | with requests one at a time: counts are right and every path lies in its parent directory, always; every file path has a file row whose object is on disk with that size and digest if every upload fitted, which is so whenever digests do not collide |
| `Drive.RemovesOnlyUnnamed` | src/server/handler_basic.c:758-766 | rm unlinks an object only if no path leads to it any more |
| `Drive.CreateAgrees` | src/server/dao_transfer.c:100-105 | after an acknowledged upload, paths and objects agree exactly if the row of the digest has the size of its object: the upsert does not compare sizes |
| `Drive.UnrecordedAgrees` | src/server/handler_transfer.c:372-396 | after an upload that was published but whose rows could not be written, they agree exactly if the row of the digest, when there is one, has the new size: nothing undoes the rename |
| `Drive.UploadAgrees` | src/server/handler_transfer.c:343-397 | for every upload, whatever digests collide: paths and objects agree afterwards exactly if nothing was published or the sizes fit |
| `Drive.RunAgreesIff` | src/server/handler_transfer.c:148-397 | for every run of requests, whatever digests collide: paths and objects agree in all its states exactly if every upload fitted the state it came in |
| `Drive.DigestsFit` | src/server/handler_transfer.c:199-229 | without collisions the sizes always fit |
| `Collisions.CollisionBreaksAgreement` | src/server/dao_transfer.c:100-105 | a concrete drive and upload of the same digest and another size, acknowledged or not, after which a path has a size that its object does not have |
| `Drive.PutKeepsInv` | src/server/handler_transfer.c:148-229 | every upload, linked, created, refused or interrupted, keeps counts, tree and agreement |
| `Drive.RemoveKeepsInv` | src/server/handler_basic.c:697-779 | so does every rm, whether or not the unlink works; it never breaks agreement |
| `Drive.LinkWorks` | src/server/handler_transfer.c:209-229 | an instant upload adds one row and one reference, in an existing directory, and changes nothing else |
| `Drive.CreateWorks` | src/server/handler_transfer.c:383-393 | so does a created file, with a new file row or one more reference to the row of its digest |
| `Drive.RunLasts` | src/server/dao_basic.c:142-272 | rows do not change while they last, and their ids do not come back |
| `Drive.PathKeepsItsRow` | src/server/dao_basic.c:142-272 | a path that is in place all along is the same row all along |
| `PathTree.AncestorsAreStored` | src/server/handler_basic.c:505-585 | every proper prefix of a stored path is a stored directory of the same user |
| `PathTree.ParentsLeadToRoot` | src/server/handler_basic.c:551-572 | following parent ids from any row, each step reaches a directory of the same user with a shorter path, and the last is the user's root; so no row is above itself |
| `PathTree.MkdirKeepsTree` | src/server/handler_basic.c:505-585 | mkdir keeps every path canonical, named after its last component, and under the directory row of its parent path |
| `PathTree.RmdirKeepsTree` | src/server/handler_basic.c:611-691 | so does rmdir, as it only takes directories without children |
| `PathTree.MkdirMakes` | src/server/handler_basic.c:505-585 | for a payload that fits, a directory is there afterwards exactly if it was before, or if its parent is one and nothing was at its path; every other row is untouched |
| `PathTree.RmdirRemoves` | src/server/handler_basic.c:652-691 | a directory goes exactly if no stored path lies in it; every other row is untouched |
| `PathTree.MkdirMakesEntry` | src/server/handler_basic.c:505-585 | given a name in a directory, or a whole path anywhere, mkdir adds exactly the row of that entry below the directory's row if the directory is there and the entry is not; otherwise nothing changes |
| `PathTree.RmdirRemovesEntry` | src/server/handler_basic.c:611-691 | so given, rmdir takes exactly that row away if it is a directory in which no path lies |
| `Drive.RmRemoves` | src/server/handler_basic.c:727-766 | a file goes whenever it is there, a directory stays; every other row is untouched |
| `Drive.RmRemovesEntry` | src/server/handler_basic.c:715-778 | so given, rm takes the row of a file away; with the last row that names the file its file row goes, and its object if it can be unlinked; otherwise one reference |
| `Drive.RmOfNothing` | src/server/handler_basic.c:727-745 | rm of an entry that is not there changes nothing |
| `Drive.MkdirThenRmdir` | src/server/handler_basic.c:482-695 | mkdir and then rmdir of a new entry leads back to the same drive |
| `Drive.JoiningAddsUser` | src/server/dao_auth.c:7-55 | registration under a free name adds exactly the user and a root; under a taken name nothing changes |
| `Drive.DestinationIs` | src/server/handler_transfer.c:135-197 | an upload may go to an entry exactly if the name fits, the directory is there and the entry is not |
| `PathTree.RemoveFileKeepsTree` | src/server/handler_basic.c:715-766 | so does rm |
| `PathTree.RegisterKeepsTree` | src/server/dao_auth.c:16-55 | registration under a free name succeeds and gives the user a root |
| `MetadataDao.Database.LinkExistingFile` | src/server/dao_transfer.c:9-69 | statement by statement: the row and the reference, or a rollback of both |
| `MetadataDao.Database.CreateFileWithPath` | src/server/dao_transfer.c:71-143 | the upsert and the row, or a rollback of both |
| `MetadataDao.Database.RmFile` | src/server/dao_basic.c:142-272 | the row goes with its reference and, with the last one, the file row; every error rolls back |
| `MetadataDao.Database.Register` | src/server/dao_auth.c:7-55 | a user with a root directory, or neither |
| `MetadataDao.Database.GetNodeId` | src/server/dao_basic.c:21-59 | the row of a path exactly if there is one |
| `MetadataDao.Database.FindByHash` | src/server/dao_basic.c:275-309 | a file row of that digest and that size exactly if there is one |
| `MetadataDao.Database.InsertPath` | src/server/dao_basic.c:61-71 | the unique key refuses a path that is there |
| `BasicHandlers.Mkdir` | src/server/handler_basic.c:482-585 | the handler over these functions, with any statement failing: a payload of NAME_MAX bytes or more is refused; which reply it gives, exactly; acknowledged exactly if it made a directory |
| `BasicHandlers.Rmdir` | src/server/handler_basic.c:588-695 | the handler, with any statement failing: which reply it gives, exactly; acknowledged exactly if it removed a directory |
| `BasicHandlers.Rm` | src/server/handler_basic.c:697-779 | the handler, with any statement failing: acknowledged exactly if it removed a path, after an error reply exactly if that was the last reference and the unlink failed |
| `RoundTrip.GetsReturnsWhatPutsStored` | src/server/handler_transfer.c:437-584 | once an upload of some content to a path is acknowledged, a download of this user's path that succeeds yields exactly this content, after any further requests during which the path stays in place; digests must not collide |
| `RoundTrip.PutStores` | src/server/handler_transfer.c:199-397 | an acknowledged upload, linked or created, has put the content at its path |
| `RoundTrip.PutSucceedsIff` | src/server/handler_transfer.c:148-397 | with two honest ends and no failure, an upload is acknowledged exactly if its path is free in an existing directory, and the content is there already or what is kept of its part is a prefix of it |
| `RoundTrip.PutOfEntrySucceedsIff` | src/server/handler_transfer.c:135-397 | the same in terms of what is stored: directory there, entry not, name fits, and a file of that digest and size is there or what is kept of the part is a prefix |
| `RoundTrip.PutThenRm` | src/server/handler_basic.c:697-779 | an acknowledged upload and then rm of its entry lead back to the same paths and files with the same counts; the object goes exactly if no other path had its content |
| `RoundTrip.HeldStays` | src/server/handler_basic.c:697-779 | it stays there as long as the row does |
| `RoundTrip.TargetIsSettled` | src/client/transfer.c:710-767 | whatever session calls follow a submission, the server resolves the target to the path the client computed, for uploads and downloads |
| `ThreadPool.WakeupsAreNotLost` | src/server/thread_pool.c:42-74 | with any number of workers and producers and spurious wakeups: while a worker sleeps, woken workers are no fewer than queued tasks; while a producer waits, roused producers are no fewer than free places |
| `ThreadPool.PoolNeverSticks` | src/server/thread_pool.c:142-184 | so queued tasks and waiting producers never wait in vain |
| `ThreadPool.FirstComeFirstServed` | src/server/thread_pool.c:58-74 | tasks are handed out in the order they were accepted |
| `ThreadPool.ShutdownDrains` | src/server/thread_pool.c:186-208 | when all workers have exited, every accepted task has run, exactly once |
| `ThreadPool.AnswersAreTrue` | src/server/thread_pool.c:142-184 | over every run: a producer is told that its task was accepted exactly if it was queued, each once; it is refused only after a shutdown began |
| `ThreadPool.OfferIsAnswered` | src/server/thread_pool.c:142-184 | a task is refused exactly after a shutdown, waits exactly while there is no room, and is queued last otherwise, waking a sleeping worker if there is one |
| `ThreadPool.WorkerGoesOn` | src/server/thread_pool.c:42-74 | a worker leaves exactly after a shutdown with nothing queued, sleeps exactly with nothing queued before, and otherwise takes the head and rouses a waiting producer if there is one |
| `ThreadPool.ShutdownWakesAll` | src/server/thread_pool.c:186-208 | from a shutdown on nobody sleeps or waits |
| `ThreadPool.StepKeepsInv` | src/server/thread_pool.c:42-208 | every critical section of worker, producer and shutdown keeps this |
| `TaskQueue.TaskQueue.Enqueue` | src/server/thread_pool.c:169-177 | the linked queue grows at its tail by what is added |
| `TaskQueue.TaskQueue.Dequeue` | src/server/thread_pool.c:58-63 | the linked queue gives up what is at its head |
| `TransferManager.TransfersAreLimited` | src/client/transfer.c:631-679 | at any time active_count is the length of the active list and within the limit, download targets are distinct, and a published socket is open and its own task's, over reuse of socket numbers |
| `TransferManager.OneEventPerTask` | src/client/transfer.c:464-494 | every started task is active or has reported exactly one event |
| `TransferManager.ReportsAreTrue` | src/client/transfer.c:464-471 | success is reported only of a transfer that succeeded, failure only of one that did not |
| `TransferManager.ReportsAreExact` | src/client/transfer.c:464-494 | until a stop begins, a report says exactly how the transfer ended; only a stop cancels |
| `TransferManager.DrainShowsAll` | src/client/transfer.c:564-592 | over every run: draining shows every event reported so far, in order, and none is ever shown twice or taken back |
| `TransferManager.ResultIsKept` | src/client/transfer.c:464-471 | how a transfer ended is not changed afterwards |
| `TransferManager.StartsIff` | src/client/transfer.c:631-679 | over every run: a transfer starts exactly if no stop has begun, fewer than the limit are active, none of them loads the same file and its thread can be created; otherwise nothing changes |
| `TransferManager.TransfersRun` | src/client/transfer.c:175-187 | a transfer that is not canceled gets and publishes its socket, and nothing else is different |
| `TransferManager.TransfersClose` | src/client/transfer.c:189-201 | one that is over takes its socket back and closes it, and nothing else is different but the record of how it ended |
| `TransferManager.TransfersLeave` | src/client/transfer.c:464-494 | then it leaves list, count and table with exactly its event added, and wakes a stop that waits for the last |
| `TransferManager.StoppedReportCanceled` | src/client/transfer.c:464-471 | every transfer that had not come to its outcome when the stop began reports that it was canceled |
| `TransferManager.StopIsFinal` | src/client/transfer.c:543-562 | once stopping, every active task is canceled and its published socket shut down, and none can start; when stop returns, none is active and no socket is open |
| `TransferManager.StopReturns` | src/client/transfer.c:543-562 | a stop always gets to return: the threads have a bounded number of steps left, and until it returns some thread or the stop itself can go on |
| `TransferManager.StepKeepsInv` | src/client/transfer.c:175-201 | publishing, taking back and closing a socket, starting, finishing and stopping keep this |
| `ActiveTransfers.TransferManager.StartTask` | src/client/transfer.c:631-679 | over the linked list: which tasks start, exactly, and that a task whose thread cannot be created leaves no trace |
| `ActiveTransfers.TransferManager.FindTarget` | src/client/transfer.c:643-650 | the loop finds an active download to the same file exactly if there is one |
| `ActiveTransfers.TransferManager.FinishTask` | src/client/transfer.c:473-491 | the transfer leaves the list, the count and the table, and its event is the last |
| `ActiveTransfers.TransferManager.Unlink` | src/client/transfer.c:474-481 | the link-pointer loop takes out the transfer, or nothing if it is not there |
| `ActiveTransfers.TransferManager.CancelAll` | src/client/transfer.c:551-557 | the loop cancels every active task and shuts down exactly the published sockets |
| `Paths.NormalizeCdPath` | src/common/utils.c:351-405 | the strtok and stack loop over its buffers equals a fold over the components, for every buffer size; it stays within the array of parts; the result and its terminator fit the buffer exactly if that is not a single byte |
| `Paths.FitsIff` | src/common/utils.c:389-402 | the only result that does not fit is the root, in a buffer of one byte, because it is written without a check |
| `Paths.OneByteIsTooSmall` | src/common/utils.c:389-392 | the empty argument in the root with such a buffer is a case of it |
| `Paths.KeepsWhatStands` | src/common/utils.c:375-387 | without a stack: resolving keeps exactly the names that nothing after them goes up past, in their order |
| `Paths.NameGoesDown` | src/common/utils.c:364-402 | a name resolves, in a canonical directory, to the path below it, exactly if that fits |
| `Paths.UpGoesToParent` | src/common/utils.c:379-382 | '..' resolves to the parent, from the root to the root |
| `Paths.DotStays` | src/common/utils.c:377-378 | '.' and the empty argument resolve to the directory itself |
| `Paths.DownAndUp` | src/common/utils.c:375-387 | from any directory, going into a name and up again leads nowhere |
| `Paths.CanonicalIsFixed` | src/common/utils.c:351-405 | a canonical path resolves to itself, from any directory |
| `Paths.NormIsCanonical` | src/common/utils.c:351-405 | the result is absolute and has no empty, "." or ".." component; with a full-size buffer and an absolute directory the call fails exactly if the joined text reaches PATH_MAX |
| `Paths.Idempotent` | src/common/utils.c:351-405 | resolving a resolved path again, from anywhere, gives the same path |
| `Paths.Composes` | src/common/utils.c:351-405 | resolving a and then b is resolving a/b, when the joined text fits |
| `Paths.ComposesOnlyIfItFits` | src/common/utils.c:351-405 | and the converse fails on length alone, for every such argument |
| `Paths.TokensOfRendered` | src/common/utils.c:351-405 | cutting a rendered path gives its parts back |
| `Paths.ParentOfRendered` | src/server/handler_transfer.c:156-170 | cutting a canonical path at its last slash gives its parent and its name |
| `Paths.ParentIsCanonical` | src/server/handler_basic.c:526-549 | the parent of a canonical path other than the root is canonical and shorter, and its name is not empty |
| `Framing.RoundTripAll` | src/common/protocol.c:117-234 | decoding an encoded sequence of packets gives back the sequence, in order |
| `Framing.Exchange` | src/common/protocol.c:47-234 | from one end to the other, for every sequence of packets and every way in which sends and receives cut it up or break off: what arrives is what was sent first, in order, and all of it exactly if both schedules last; as many moves as bytes suffice |
| `Framing.SendAll` | src/common/protocol.c:167-183 | for every sequence of packets and every schedule of short sends: the wire holds a prefix of the encoded sequence, and all of it exactly if every send succeeds |
| `Framing.RecvAll` | src/common/protocol.c:185-234 | for every stream and every schedule of short receives: the packets received are the first of those the stream holds, and all of them exactly if the schedule lasts |
| `Framing.RoundTrip` | src/common/protocol.c:117-234 | a packet with up to 64 KiB of payload comes back with type, status, session and payload, whatever follows |
| `Framing.WireLayout` | src/common/protocol.c:117-131 | the bytes on the wire: the magic, the version, then type, status and length as big-endian numbers, the session id and the payload |
| `Framing.ReceivedIsEncoded` | src/common/protocol.c:185-234 | only an encoded packet is received: what is taken off the stream is its encoding, byte for byte |
| `Framing.PrefixDecodesToPrefix` | src/common/protocol.c:185-234 | however far the stream has come, what can be received is what was sent first, and not all of it until the whole stream is there |
| `Framing.PrefixIsIncomplete` | src/common/protocol.c:185-234 | a packet that is cut short is never taken for another |
| `Framing.SendPacket` | src/common/protocol.c:167-183 | over any schedule of short sends, the bytes on the wire are a prefix of the packet, and all of it exactly on success; exactly when it succeeds and what is left of the schedule; a payload over 64 KiB sends nothing |
| `Framing.RecvPacket` | src/common/protocol.c:185-234 | over any schedule of short receives, what is received is what the stream holds; exactly when it succeeds and what is left of the schedule |
| `Framing.SendN` | src/common/protocol.c:47-67 | short sends and interruptions: as many bytes as the schedule lets through, success exactly if that is all, and what is left of the schedule |
| `Framing.RecvN` | src/common/protocol.c:69-93 | short receives and interruptions: success exactly if stream and schedule suffice, with exactly the next bytes, and what is left of the schedule |
| `ByteOrder.RoundTrip` | src/common/protocol.c:31-44 | the two 64-bit conversions undo each other on either host |
| `ByteOrder.StoredBigEndian` | src/common/protocol.c:31-44 | the bytes are big-endian exactly if the host is little-endian or the two words are equal |

## Left out

- Overlapping uploads of one digest: they share a part by name without a lock. At most one upload per digest is under way in the model; uploads of other digests go on next to it.
- Interleaving of the separate database calls of one handler: the claims of `Drive` and `PathTree` are for requests run one at a time; those of `Tables` hold for any interleaving of transactions.
- Drive.DriveIsConsistent: that paths lead to their objects needs that every upload fitted or that digests do not collide, because the size in a file row is not compared when a digest is uploaded again; `Drive.RunAgreesIff` gives the exact condition and `Collisions.CollisionBreaksAgreement` a case.
- DownloadRuns.DownloadIsExact: success of an attempt without failures is claimed only if the part is a prefix of the object, because a part of full size that fails its check is kept; `Recovery.DownloadSucceedsIff` gives the exact condition.
- ByteOrder.StoredBigEndian: on a big-endian host the conversions swap the two words, so the bytes are not big-endian unless the words are equal.
- Paths.Composes: is stated where the joined text fits the buffer; `Paths.ComposesOnlyIfItFits` shows that the other direction fails on length alone.
- Paths.NormalizeCdPath: with a buffer of one byte and no component left, as for the empty argument in the root, the source writes two bytes; every caller passes PATH_MAX bytes. `Paths.FitsIff` shows that nothing else fails to fit.
- RoundTrip.GetsReturnsWhatPutsStored: assumes that digests do not collide, because an object is replaced by any content with its digest.
- FdOwnership.StepKeepsInv: sockets and epoll are sets of numbers; the payloads of events and partial reads are not part of it.
- UploadRuns.NextStep: packets move whole; a connection is a queue with a limit on whole packets, not on bytes.
- UploadRuns.UploadIsExact: a file that the user changes while it is being sent is not covered; nor is an rm of the same digest during the upload.
- SQL text, escaping, query buffers, collation, column lengths and the connection pool: tables are maps with exact keys and ids that are never used again.
- The session table's write-only total and its timestamps, and the table's destruction.
- `cd`, `ls`, `pwd`, login and password hashing, beyond what they do to sessions: easy members.
- Configuration, logging, menus, terminal input, command parsing and the client's runtime snapshots.
- Times are unbounded integers; only the slot index wraps around at 64 bits.
- `src/server/event_handler.c`, an older version that is not built.
