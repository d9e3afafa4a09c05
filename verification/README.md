# Remote backup: a verified model

A client keeps a directory tree in step with a server. The server stores the tree twice: as files under
the user's directory, and as rows of one SQL table that also keeps the hashes. The client finds out what changed
in one of two ways, by comparing with the server's table at startup or by scanning its disk periodically, and sends
each change as a push. Up to four workers carry the pushes at once; they reach the server in any order, and a flag
in the session lets one of them through at a time. Before the first change of a new scan is sent, all earlier ones
must have been answered. A restore asks for every stored path and rebuilds the tree.

The project models this path end to end and proves, for all trees, all orders and all runs:

- **Confluence.** The pushes of one batch, in any order and mixed with any pushes of other users, turn a replica of
  the old tree into a replica of the new one, disk and rows, if and only if no path changed kind and no changed
  content kept its hash (`Confluence.AnyInterleavingReachesNewTree`). Every step on the way is safe
  (`EveryMomentIsSafe`), and the other users' trees and schemas stay as they were (`OthersLeaveSchema`).
- **Whole runs.** The watcher, its workers, the server's flag and the other users are a state machine in which
  pushes may also fail or get lost. In every run the server's history is the batches one after another
  (`Delivery.HistoryIsBatchesInOrder`); a barrier lets the watcher on if and only if every result since the barrier
  before is true and no wait ran out, and then the replica equals the last snapshot (`Barrier.BarrierDecides`); a
  failure stops the watcher at the next barrier (`FailStop`), the pool never exceeds four (`PoolAlways`) and the flag
  admits one (`OneInsideAlways`). Conversely, from every state of every run in which nothing has failed the run can be
  finished with each batch executed whole (`Completion.EveryRunCanFinish`), and no state is stuck (`NeverStuck`).
- **The session's lock.** A push raises the flag before it touches the store and keeps it up until it is done: every
  call inside requires it, and whatever other threads do to the store they do before it or after it
  (`Server.Server.Push`).
- **Scan.** The two erase loops and the visit loop of the watcher, with their iterators, emit exactly one event for
  each path that differs, children before their directories, if and only if no tracked path changed kind and no
  content changed under a still clock (`Watcher.ScanIsBatch`); under the same condition the tracked state becomes
  the snapshot, and a second scan is silent (`QuietScan`).
- **Startup probe.** From any starting store, with any interleaving of its workers and of other users, a probe whose
  drain returns true leaves the server with the client's map as schema if and only if the kinds agreed
  (`Draining.ProbeThroughPool`), and the next probe sends nothing (`ClientApi.Client_API.Probe`). The drain returns true
  if and only if nothing went wrong (`Draining.DrainDecides`).
- **Backup, then restore** gives the tree back, contents and empty directories included, in any order of the restore
  workers, after a probe (`Restoring.BackupThenRestore`) and at every barrier of every run of every watch
  (`EndToEnd.WatchThenRestore`); a restore through the pool that returns true has rebuilt the tree whatever was lost
  or late on the way (`Draining.RestoreThroughPool`). It returns true if and only if the list and all replies were okay
  and no wait ran out, and otherwise the disk holds exactly what was okay (`ClientApi.Client_API.Restore`).
- **Wire.** For every code and every length the 12-byte header reads back if and only if the length is below 16^7,
  or fills its eight columns and starts with a letter (`Header.HeaderRoundTrip`); a stream of framed messages is
  taken apart at the frame boundaries whether or not each is the one expected (`Framing.StreamReceived`), and a message
  is accepted if and only if it is readable and of the expected type or an error (`AcceptedExactly`).
- **Sessions.** Any number of connections interleave inside their rounds. In every run a handler has passed the gate
  under a granted login and acts for the user of the latest granted one; that login is also the latest attempt if and
  only if the last attempt since the gate, if any, was granted (`Rounds.HandlersActForLatestLogin`). The readings of
  one push agree if and only if no login under another name is granted in between (`ReadingsAgree`). A removed
  session is never looked up again (`RemovedStaysRemoved`), nor is its id until 2^32 sessions have been created. The
  cookie of any reply leads back to the session that served the request if and only if that one is live and its id is
  not negative (`CookiesLeadBack`), and a session is live until a thread with an end request removes it (`LiveUntilEnd`).
- **Load.** Clients with their retries and the accepting server run in one machine. Each request is handed to a handler
  once, or never when keep-alive makes the retry use the connection the server has just discarded, and the client ends
  where `send_and_receive` says (`Admission.HandledExactlyOnce`, `VisitsAreExchanges`); at most 32 connections are
  served at once (`NeverMoreThan32`), who knocks is let in if and only if fewer are (`AdmittedIfFree`), and every request
  can be brought to its end from every state (`EveryVisitCanEnd`).

## How it is built

`Paths` and `Disk` model path strings and the file system calls; `PathTable` the SQL table; `Server` the push and
the get. `Diff` says what the client's tree calls for. `Confluence`, `Reconcile` and `Restoring` are about
orders of atomic pushes and saves, `Delivery` and `Draining` about interleavings of workers, `Barrier` and `Completion`
about what the barriers of `Delivery` decide and which runs there are. `Sessions` is one
connection at a time, `Rounds` any number of them at once, and one connection left alone is shown to be a run of
`Rounds`. `Exchange` is one request with its retries, `Admission` all of them against the accepting thread.
`ClientApi`, `ClientSocket`, `Watcher`, `Server`, `Sessions`, `Framing` and `Header` hold the classes of the program,
whose methods are proved against the specification functions that the theorems are about. `Ordering` is the order of
`std::string` and the sorted sequences that stand for `std::map` and `std::set` under iteration. `EndToEnd` joins the
parts.

What a method cannot decide itself is a parameter that its contract names: which results the workers return and which
waits run out (`fates`, `late`, `barrier`, `okay`), what the watcher's action answers (`accepts`), what other threads make
of the store and of the session's user (`others`, `keyUser`, `rowUser`), which archives deserialize and which lengths
there is memory for (`Host`).

Assumptions shared by several modules:

- A path is a non-empty relative string without `.`, `..` or doubled separators. A tree is a finite map from such
  paths to directories and files in which every ancestor of a member is a directory.
- SHA-256 is a function `h` from contents to non-empty strings. Where injectivity matters it appears as the
  condition `NoCollision` on the two trees in question.
- The table's primary key is the path, as in the schema stored in `database/remote_backup.db`; a statement that names
  an existing table does not fail otherwise.
- User names are not empty and contain no separator, because a name is the first component of every stored path.
- In `Confluence` and `Delivery` nobody logs in under another name on the session while it pushes;
  `Rounds.UndisturbedPush` says that its pushes are then one user's.
- A push carries the content its file had in the snapshot that made the event.

Where the code differs from what its comments or the intent suggest, the model follows the code:

- A path that changes kind is missed by both diffs: `find_erased` only asks whether it exists, and the probe sends a
  modification or nothing. `Reconcile.KindChangeIsMissed` is the counterexample, and the conditions above are exact.
- The header's length field has eight columns, and a length of 16^7 or more leaves no blank after the code. If its
  first digit is decimal, the digits join the code; if it is a letter, reading the code stops in time and the header
  is still right.
- `pause_session` looks the session up again, so after an end request it creates a fresh one.
- The reply to an end request goes out before the session is removed. `Rounds.ServedAfterEnd` is a run in which a request
  that shows the cookie in between still gets past the login gate.
- A push that fails on its row has changed the disk like one that succeeds (`Reconcile.PushSucceeds`), and a push whose
  file cannot be written succeeds all the same, since the output stream reports nothing (`Reconcile.WrittenIfPossible`).
- After a busy answer `send_and_receive` does not close its connection; it opens a new one only without keep-alive.
  An end request that met a busy answer loses the client's keep-alive flag for good (`Exchange.KeepAliveSurvives`).
- `get_and_save_` would keep the client's flag if `save_file_` failed; `save_file_` always returns true.
- A cookie whose leading number is no `int` makes `std::stoi` throw out of `Server_API::run` in a bare thread, which
  ends the whole server: in `Rounds` nothing happens after it.
- The session is not locked against a login while another request of its is behind the gate or inside its handler.
  `Rounds.RefusedLoginMeanwhile` is a run in which a push acts although the latest attempt was refused, and
  `Rounds.EndedMeanwhile` one in which it acts on a session already removed. A push reads the session's user three
  times, once before it waits for the flag.
- After two or more asynchronous requests the drain does not restore the keep-alive flag: each request saves the flag
  that the one before has cleared (`Exchange.DrainRestoresOne`).

## Model

| member | source | states |
|---|---|---|
| Paths.StripJoin | server/Database_API.cpp:91 | stripping to the first separator inverts the user prefix on every relative path |
| Paths.UsersDisjoint | server/Server.cpp:106-117 | keys and directories of two users never meet, and neither lies above the other's |
| Disk.MakeDirsExactly | server/Server.cpp:229-238 | create_dirs throws if and only if an ancestor is missing right below something that is no directory; otherwise it adds exactly the missing ancestors, and it never changes what existed |
| Disk.MakeDirsEffect | server/Server.cpp:229-238 | on a clear way it throws nothing and leaves every ancestor a directory |
| Disk.RemoveAllEffect | server/Server.cpp:164 | remove_all takes exactly the subtree, seen from the user's root |
| Disk.Volume.CreateDirs | comm/Client_API.cpp:252-261 | the loop over the components reaches the specified disk, also when a directory cannot be made |
| PathTable.UserSelectsPrefix | server/Database_API.cpp:228 | on the rows pushes leave, selecting by user is selecting by prefix |
| PathTable.Database_API.InsertPath | server/Database_API.cpp:107-157 | inserts unless the key is taken, which is reported |
| PathTable.Database_API.DeletePath | server/Database_API.cpp:159-186 | deletes the row if there is one; succeeds either way |
| PathTable.Database_API.UpdatePath | server/Database_API.cpp:188-221 | replaces the hash if there is a row; succeeds either way |
| PathTable.Database_API.GetSchema | server/Database_API.cpp:223-262 | the result is exactly the user's part of the table, prefix stripped, directories with the empty hash |
| PathTable.Database_API.GetPathSchema | server/Database_API.cpp:70-105 | the user's stored paths, each once, and no other |
| Server.Server.Login | server/Server.cpp:63-78 | only a granted login changes the session and makes the user's directory |
| Server.Server.Enter | server/Server.cpp:108-111 | the wait ends with the session's flag raised, on the store other threads have left |
| Server.Server.PushInside | server/Server.cpp:112-177 | with the flag up at every call on disk and table, and other threads running between any two of them: disk, table and result are those of the specification for the users read |
| Server.Server.Push | server/Server.cpp:103-188 | from the reading of the user before the wait: one specified effect on the store the others left, for all five kinds, unknown kinds, refusals and throws; the flag is down on every way out |
| Server.Server.Get | server/Server.cpp:87-101 | the content of exactly the regular files; anything else is answered as a directory |
| Diff.AnyOrder | comm/Client_API.cpp:99-155 | a batch delivered in another order is still that batch |
| Diff.KnownIsSilent | comm/Client_API.cpp:99-155 | against its own map a tree calls for no event |
| Confluence.CreatedFileDisk | server/Server.cpp:113-123 | a created file lands in an existing directory whatever part of the batch came before, and the disk is the closed form with its path added |
| Confluence.CreatedDirDisk | server/Server.cpp:151-154 | the same for a created directory, which an earlier event below it may have made already |
| Confluence.ModifiedFileDisk | server/Server.cpp:131-138 | a modified file still has its directory; only its content changes |
| Confluence.ErasedFileDisk | server/Server.cpp:140-143 | an erased file is removed, or went with a directory above it |
| Confluence.ErasedDirDisk | server/Server.cpp:162-165 | removing a subtree takes only paths that the new tree lacks |
| Confluence.PushStep | server/Server.cpp:103-188 | any outstanding event of a batch may come next: it is accepted, safe, and adds its own path to the closed form of disk and rows |
| Confluence.PushLocal | server/Server.cpp:112-171 | a push, accepted or not, changes the user's subtree and one row only |
| Confluence.OtherUserUntouched | server/Database_API.cpp:162-191 | no push shows in another user's tree or rows, although DELETE and UPDATE match on the path alone |
| Confluence.PushKeepsKeys | server/Server.cpp:116-124 | every stored key remains its own user's name joined with a path |
| Confluence.OthersLeaveSchema | server/Database_API.cpp:223-262 | no sequence of other users' pushes changes a user's schema or disk tree |
| Confluence.EveryPrefix | server/Server.cpp:103-188 | after every prefix of any interleaving the store is the closed form of the delivered paths |
| Confluence.AllDelivered | comm/Client_API.cpp:99-155 | the closed form of the whole batch is the new tree, exactly when no changed content kept its hash |
| Confluence.KindChangeSticks | comm/Client_API.cpp:132-154 | a path that changed kind keeps the kind of its row under the whole batch |
| Confluence.AnyInterleavingReachesNewTree | server/Server.cpp:103-188 | in any order, among any other users' pushes, the replica ends as the new tree if and only if no path changed kind and no changed content kept its hash |
| Confluence.EveryMomentIsSafe | server/Server.cpp:112-171 | every INSERT finds its key free, every UPDATE and DELETE its row, every write its directory, and paths without an event keep content and row throughout |
| Reconcile.SplitPush | server/Server.cpp:106-117 | a push whose session changes hands: the disk is the first user's affair, the row lies under the second one's name and says it is the third one's |
| Reconcile.PushSucceeds | server/Server.cpp:112-177 | which pushes succeed, on any store, kind by kind; a failed one leaves every row, and the disk does not depend on the table |
| Reconcile.WrittenIfPossible | server/Server.cpp:122-138 | an accepted push has its content on disk if and only if the name was writable or the content was there already |
| Reconcile.RowsDependOnOwnEvent | comm/Client_API.cpp:99-155 | from any table and any disk, each row of the user ends as its own accepted event makes it |
| Reconcile.ProbeReconciles | comm/Client_API.cpp:85-165 | with all pushes accepted the schema becomes the client's map if and only if the kinds agreed |
| Draining.TrueMeansClean | comm/Client_socket_API.cpp:85-137 | when a drain returns true every request of it was carried out exactly once and well, in every interleaving with lost requests, lost replies and late workers |
| Draining.DrainDecides | comm/Client_socket_API.cpp:118-137 | in every run the drain returns true if and only if no request was lost or answered badly and no wait ran out, and by then every request has been sent and erased |
| Draining.CleanDrainExists | comm/Client_socket_API.cpp:85-137 | for any number of requests there is a run that carries them out in order and returns true |
| Draining.AnythingMayHappen | comm/Client_socket_API.cpp:99-110 | the runs leave nothing out: requests and answers may get lost, requests may fail, others may act at any moment |
| Draining.ProbeThroughPool | comm/Client_API.cpp:85-165 | when a probe's drain returns true, from any starting store, the schema is the client's map if and only if the kinds agreed |
| Draining.RestoreThroughPool | comm/Client_API.cpp:220-240 | when a restore's drain returns true, in any interleaving of its workers, the emptied directory has become the tree the server holds |
| Reconcile.KindChangeIsMissed | comm/Client_API.cpp:132-154 | the input on which it fails: a stored file where the client has a directory |
| Restoring.SaveStep | comm/Client_API.cpp:26-40 | saving any outstanding reply succeeds and adds its path to the closed form |
| Restoring.SaveSucceeds | comm/Client_API.cpp:26-47 | which saves succeed, on any disk, and what a failed one leaves |
| Restoring.SaveElsewhere | comm/Client_API.cpp:26-40 | a saved reply changes nothing outside the restored root |
| Restoring.RestoreRebuildsTree | comm/Client_API.cpp:220-240 | in any order of the workers the emptied directory becomes the tree the server holds |
| Restoring.BackupThenRestore | comm/Client_API.cpp:85-240 | backup in any order, then restore in any order, is the identity on trees |
| ClientApi.Client_API.Push | comm/Client_API.cpp:167-218 | a push goes out if and only if its cycle is the last one or the drain before it was clean; what has been drained and what is out is said exactly |
| ClientApi.Client_API.PushAll | comm/Client_API.cpp:99-155 | one loop sends the events its paths call for, each once, and fails if and only if there is one and the drain before it was not clean |
| ClientApi.Client_API.Probe | comm/Client_API.cpp:85-165 | what is sent is exactly the batch for the server's map; the result is true if and only if the drain was clean, or the closing message was okay when nothing was sent; a matching map sends nothing |
| ClientApi.Client_API.GetAndSave | comm/Client_API.cpp:22-52 | with the flag up at every call on the disk and other workers running in between, the disk becomes the specified one; the flag is down on both ways out |
| ClientApi.Client_API.FetchAndSave | comm/Client_API.cpp:9-53 | succeeds if and only if the reply is okay, and then exactly this path has been saved |
| ClientApi.Client_API.FetchAll | comm/Client_API.cpp:230-239 | true if and only if every reply is okay and no wait runs out; exactly the okay paths have been saved |
| ClientApi.Client_API.Restore | comm/Client_API.cpp:220-240 | against a server that mirrors a tree: true if and only if the list and every reply are okay and no wait runs out, and then the local directory is the tree; otherwise it holds exactly the okay paths; nothing outside the root changes |
| ClientSocket.Client_socket_API.WorkerReturns | comm/Client_socket_API.cpp:107-109 | the counter goes on counting the running workers |
| ClientSocket.Client_socket_API.WaitForPlace | comm/Client_socket_API.cpp:88-89 | with four at work one returns, with fewer nothing happens |
| ClientSocket.Client_socket_API.Launch | comm/Client_socket_API.cpp:97-110 | one future under a free key, holding the worker's result; keys stay 0..n-1 and at most four workers run |
| ClientSocket.Client_socket_API.SaveKeepAlive | comm/Client_socket_API.cpp:91-95 | the saved flag, the cleared flag and what the okay message leaves are those of the specification |
| ClientSocket.Client_socket_API.AsyncSendAndReceive | comm/Client_socket_API.cpp:85-116 | waits for a place, saves and clears the keep-alive flag, tells the server if it was set, and launches one worker |
| ClientSocket.Client_socket_API.AwaitAndErase | comm/Client_socket_API.cpp:125-130 | one future awaited and erased, its worker counted down; its result, or false if the wait ran out |
| ClientSocket.Client_socket_API.EraseAll | comm/Client_socket_API.cpp:123-131 | the loop over the futures in key order empties the table; true if and only if all results were true and no wait ran out |
| ClientSocket.Client_socket_API.WaitAllAsync | comm/Client_socket_API.cpp:118-137 | table and counter end empty, the result is true if and only if all results since the last drain were true and no wait ran out, and the flag is the one last saved |
| Delivery.PoolStep | comm/Client_socket_API.cpp:85-137 | every step keeps the counter equal to the running workers, at most four, under consecutive keys |
| Delivery.FlagStep | server/Server.cpp:108-111 | every step keeps the flag up exactly while one worker is inside |
| Delivery.LabelsStep | comm/Client_API.cpp:170-178 | every step keeps the workers on events of the one batch that is out |
| Delivery.HistoryStep | server/Server.cpp:103-188 | every step keeps the server's history a concatenation of parts of the batches in order |
| Delivery.FailStep | comm/Client_socket_API.cpp:127-129 | every step keeps a failure visible to the barrier of its own cycle |
| Delivery.DataStep | server/Server.cpp:103-188 | every step keeps the store the closed form of what has been executed, until something fails |
| Delivery.AlwaysInv | comm/Client_API.cpp:167-178 | the invariant holds at every moment of every run |
| Delivery.PoolAlways | comm/Client_socket_API.cpp:85-137 | in every run the counter equals the running workers, is at most four, and the next key is free |
| Delivery.OneInsideAlways | server/Server.cpp:108-185 | in every run the flag is up if and only if exactly one push is being executed |
| Delivery.HistoryIsBatchesInOrder | comm/Client_API.cpp:167-178 | in every run finished cycles are permutations of their batches, in order, and no later batch has begun |
| Barrier.BarrierDecides | comm/Client_API.cpp:170-176 | in every run a barrier has heard of every request since the one before; it lets the watcher on to its next batch if and only if all results were true, which is if and only if nothing has failed and no wait ran out, and then disk and rows are the last snapshot; otherwise it stops the watcher |
| Delivery.BarrierMeansReplica | comm/Client_API.cpp:170-176 | a barrier that lets the watcher on finds disk and rows equal to the last snapshot |
| Barrier.SentWhile | comm/Client_socket_API.cpp:88-110 | in every run a further event goes out if and only if the barrier of its batch has passed and fewer than four workers run, and it is the next one of its batch |
| Completion.EveryRunCanFinish | comm/Client_API.cpp:167-218 | from every state of every run in which nothing has failed, whatever is in flight, clean steps lead to the end of the last batch with every batch executed whole and the replica equal to the last snapshot |
| Completion.CleanRunExists | comm/Client_API.cpp:167-218 | from every initial state of every configuration there is a run without a fault to that end |
| Completion.FourAtOnce | comm/Client_socket_API.cpp:88-110 | four workers do run at once, and then the fifth event waits |
| Completion.AnythingMayHappen | server/Server.cpp:103-188 | the runs leave nothing out: any push may fail with any store left behind or get lost, and another user's push has its whole effect at any moment |
| Completion.NeverStuck | comm/Client_socket_API.cpp:85-137 | in every state of every run, failures or not, something can go on until the watcher has stopped or sent everything and all workers are home |
| Delivery.NoPushFailsByItself | server/Server.cpp:103-188 | without a fault no push of a batch is ever refused |
| Delivery.FailStop | client/FileWatcher.cpp:15-27 | after a failed push no later batch is sent and the next barrier stops the watcher for good |
| Ordering.AncestorSortsFirst | client/FileWatcher.cpp:46-57 | a directory sorts before everything below it |
| Ordering.LessJoin | client/FileWatcher.cpp:123-125 | full and relative paths sort alike |
| Ordering.InsertKeepsSorted | client/FileWatcher.cpp:103-105 | insertion keeps the keys in order and adds one at most |
| Ordering.ErasePosition | client/FileWatcher.cpp:41-53 | erasing at an iterator removes that key only and keeps the order |
| Watcher.StepKey | client/FileWatcher.cpp:36-44 | one round of the forward erase loop: the next key is looked at, dropped or kept |
| Watcher.StepBase | client/FileWatcher.cpp:47-56 | one round of the reverse erase loop, whose iterator is rebuilt from its base |
| Watcher.FirstVisit | client/FileWatcher.cpp:63-93 | an entry is reported as it would have been before the loop, whatever was visited in between |
| Watcher.VerdictAt | client/FSElement.cpp:12-29 | at one path the two-stage test decides as the tree calls for, exactly when kind and clock are honest |
| Watcher.ScanReports | client/FileWatcher.cpp:34-95 | a scan reports each path that was tracked or is seen once, or finds nothing to report on it |
| Watcher.ScanIsBatch | client/FileWatcher.cpp:34-95 | the events are exactly those the snapshot calls for, each once, if and only if no kind changed and no content changed under a still clock |
| Watcher.SweptTracks | client/FileWatcher.cpp:34-95 | the tracked files, times, hashes and directories become the snapshot's under the same condition, and only then |
| Watcher.QuietScan | client/FileWatcher.cpp:34-95 | a second scan of a tracked snapshot emits nothing |
| Watcher.ChildrenGoFirst | client/FileWatcher.cpp:34-59 | no directory's erase event precedes that of anything tracked below it |
| Watcher.SteadyScan | client/FSElement.cpp:12-29 | the condition read off two successive snapshots |
| Watcher.AnswersDecide | client/FileWatcher.cpp:17-22 | the action's answers alone decide whether everything is emitted, and how much of it: all up to the first event refused |
| Watcher.FileWatcher.EraseLoop | client/FileWatcher.cpp:35-45 | ends, looks at each file once and in order, drops exactly the missing ones with their events, and stops if and only if an event is refused |
| Watcher.FileWatcher.EraseDirs | client/FileWatcher.cpp:46-57 | the same for the directories, last first |
| Watcher.FileWatcher.FindErased | client/FileWatcher.cpp:34-59 | both loops together, each event with the cycle number |
| Watcher.FileWatcher.Visit | client/FileWatcher.cpp:64-92 | one entry: tracked before it is reported, time and hash recorded before the change is |
| Watcher.FileWatcher.FindCreatedOrModified | client/FileWatcher.cpp:61-95 | all entries in the iterator's order with the cycle number, or their events up to the one refused |
| Watcher.FileWatcher.Scan | client/FileWatcher.cpp:17-22 | one cycle: the events of a scan under the old number, the swept containers, the next cycle number; on a refused event exactly the events before it and the old number |
| Watcher.FileWatcher.Start | client/FileWatcher.cpp:15-27 | over steady snapshots each completed cycle emits the exact batch under its own number, a refused one its exact batch up to the event refused, and without a refusal every cycle until the stop is completed |
| Watcher.FileWatcher.Init | client/FileWatcher.cpp:97-110 | the snapshot is tracked and the cycle number is 0 |
| Watcher.FileWatcher.GetElements | client/FileWatcher.cpp:112-121 | the map of hashes, empty for directories |
| Header.DigitsValue | comm/Message.cpp:43-45 | a printed number reads back and has no leading zero |
| Header.LengthDigits | comm/Message.cpp:45 | how many digits a length takes and when the first is a letter |
| Header.ReadCode | comm/Message.cpp:146 | a printed code reads back when no decimal digit follows, unless it is no int |
| Header.ReadAnyCode | comm/Message.cpp:146 | whatever blanks and sign come first, a number is taken for the code if and only if it is an int |
| Header.ReadNoCode | comm/Message.cpp:146-147 | without a digit there is no code |
| Header.ReadAnyLength | comm/Message.cpp:148 | whatever blanks, sign and prefix come first, in small letters or capitals, a length is read, modulo 2^64 behind a minus sign |
| Header.ReadNoLength | comm/Message.cpp:148-149 | without a hexadecimal digit there is no length |
| Header.ReadJoined | comm/Message.cpp:146 | when one does, another code is read or none |
| Header.FieldCarries | comm/Message.cpp:148 | the length field survives behind a code exactly for the lengths named |
| Header.NarrowRoundTrip | comm/Message.cpp:42-53 | for every code that fits its four columns and every length the header reads back exactly under that condition |
| Header.HeaderRoundTrip | comm/Message.cpp:42-53 | for every code of the protocol and every length the header reads back if and only if the length is below 16^7 or starts its full field with a letter; otherwise, when digits join, the code is lost |
| Header.Message.Send | comm/Message.cpp:24-58 | header and content, the header cut to 12 bytes |
| Header.Message.BuildHeader | comm/Message.cpp:139-158 | code and room for the content, or the exception of a number that cannot be read or of memory that cannot be had |
| Framing.FrameReceived | comm/Socket_API.cpp:149-185 | one frame is taken whole and seen as sent exactly when its header can carry its length and there is room for it |
| Framing.AcceptedExactly | comm/Socket_API.cpp:164-184 | a whole message is accepted if and only if its archive is readable and any type will do, or it is the one expected, or an error; it is refused for its type exactly when that fails |
| Framing.StopsBehindHeader | comm/Socket_API.cpp:156-163 | without memory for the content, or behind twelve bytes that are no header, the rest is left unread |
| Framing.CutFrame | comm/Socket_API.cpp:152-172 | a message cut off by the end of the stream is never accepted |
| Framing.StreamReceived | comm/Socket_API.cpp:149-185 | any list of messages comes back in order, including the calls that refuse an unexpected type |
| Framing.Socket_API.ReadInto | comm/Socket_API.cpp:56-76 | fills the buffer from the stream or fails at its end |
| Framing.Socket_API.Receive | comm/Socket_API.cpp:149-185 | result, message and bytes left unread are those of the specification, for all seven endings |
| Rounds.AccountsTellLogins | comm/Server_API.cpp:9-13 | in every run a session is logged in if and only if the latest attempt on it succeeded, and its user is the name of the latest granted one |
| Rounds.HandlersActForLatestLogin | comm/Server_API.cpp:107-151 | in every run a handler acts behind the gate for the user of the latest granted login, which is the latest attempt if and only if the last attempt since the gate, if any, was granted |
| Rounds.ReadingsAgree | server/Server.cpp:106-116 | two readings of the user by one push agree if and only if the latest login granted in between, if any, names the same user |
| Rounds.UndisturbedPush | server/Server.cpp:106-124 | a push without a login granted on its session meanwhile has one user on disk, in the key and in the row |
| Rounds.RefusedLoginMeanwhile | comm/Server_API.cpp:10-11 | the run in which a push acts although the latest attempt was refused |
| Rounds.EndedMeanwhile | comm/Server_API.cpp:149-150 | the run in which a push acts on a session already removed |
| Rounds.ServedAfterEnd | comm/Server_API.cpp:146-150 | the run in which a request passes the gate between the reply to an end and the removal |
| Rounds.CookiesLeadBack | comm/Server_API.cpp:146 | in every run a reply of any code carries the cookie of the session that served it, and a later request of any connection that shows it is served by that session if and only if it is live and its id is not negative |
| Rounds.LiveUntilEnd | comm/Server_API.cpp:149-150 | up to 2^32 sessions, a session is live exactly until it is removed, and only a thread that has had an end request removes one |
| Rounds.LargeCookieEndsServer | server/Session_manager.cpp:12-14 | in every run a cookie whose number is no int, and no other number, ends the server |
| Rounds.IdsRepeatEvery32Bits | server/Session_manager.cpp:22 | two sessions share an id exactly when a multiple of 2^32 creations lies between them |
| Rounds.RemovedStaysRemoved | server/Session_manager.cpp:32-46 | in every run, however long, a removed session is never looked up again, the look-up inside pause_session included |
| Rounds.RemovedIsNeverRetrieved | server/Session_manager.cpp:32-46 | up to 2^32 sessions, retrieve_session never returns a removed id |
| Sessions.NumberNames | server/Session_manager.cpp:10-19 | whom a number names, whatever follows it; a cookie without one gets a new session |
| Sessions.NumberTooLarge | server/Session_manager.cpp:12-14 | a number that is no int ends the round and the connection and changes nothing |
| Sessions.CookieFindsSession | server/Session_manager.cpp:10-19 | a live session's cookie finds it exactly when its id is not negative |
| Rounds.LiveIdsUntilWrap | server/Session_manager.cpp:10-24 | until the counter wraps every live id is below it, every key is its session's id, and every live session answers to its cookie |
| Sessions.LoginDecides | comm/Server_API.cpp:110-114 | with no other connection in between, the next request showing the cookie of a login is refused if and only if that login failed, and otherwise acts for the user it named |
| Sessions.CookieLeadsBack | comm/Server_API.cpp:146 | with no other connection in between, the next request with the cookie of any reply is served by the same session if and only if its id is not negative and no end request has closed it |
| Sessions.ConnectionRunsAll | comm/Server_API.cpp:90-157 | a kept connection on a logged-in session has every request carried out, in order, for its user |
| Sessions.NothingAfter | comm/Server_API.cpp:111-151 | nothing after a refused request, or one that does not keep the connection, is looked at |
| Sessions.EndCloses | comm/Server_API.cpp:138-150 | with no other connection in between, after an end request the cookie is refused for everything but a new login |
| Rounds.RoundAlone | comm/Server_API.cpp:107-150 | a round that nobody disturbs is a run of the interleaved machine and does what the sequential account says: the accounts, the work and for whom, the cookie of the reply, and where the connection stands |
| Rounds.ConnectionAlone | comm/Server_API.cpp:83-160 | the same for a whole connection with its pause |
| Rounds.AlwaysInv | comm/Server_API.cpp:83-160 | every step of every interleaving keeps ids, accounts, gates, acts and removals consistent |
| Sessions.Session_manager.RetrieveSession | server/Session_manager.cpp:7-30 | finds, creates or throws as specified; every key is its session's id |
| Sessions.Session_manager.PauseSession | server/Session_manager.cpp:32-36 | creates a session when the cookie names none, and otherwise changes nothing modelled |
| Sessions.Session_manager.RemoveSession | server/Session_manager.cpp:38-46 | removes that session's key only |
| Sessions.Server_API.DoLogin | comm/Server_API.cpp:9-13 | the status becomes the result, the user only on success |
| Sessions.Server_API.ServeRequest | comm/Server_API.cpp:107-150 | one round: what it does, the state it leaves and its reply are those of the specification |
| Sessions.Server_API.Run | comm/Server_API.cpp:83-160 | the whole loop and the pause after it |
| Exchange.ExactlyOnce | comm/Client_socket_API.cpp:30-83 | dispatched once if the request gets through and never otherwise; result and cookie are those of that one answer |
| Exchange.WorkersAlwaysGetThrough | comm/Client_socket_API.cpp:18-25 | the pool's workers, which do not keep connections, always get through |
| Exchange.KeepAliveSurvives | comm/Client_socket_API.cpp:38-77 | exactly when the client's keep-alive flag is what it was before |
| Exchange.SocketAfter | comm/Client_socket_API.cpp:55-82 | exactly when the connection is still served, closed, or open on this side only after a request |
| Exchange.SavedFlags | comm/Client_socket_API.cpp:91-95 | an asynchronous request saves the old flag, clears it, and tells the server exactly once if it was set |
| Exchange.DrainRestoresOne | comm/Client_socket_API.cpp:91-133 | after a drain the flag is the old one exactly when one request was sent, and lost after more |
| ClientSocket.Client_socket_API.TryOnce | comm/Client_socket_API.cpp:33-49 | one try: which connection is used and what is heard on it |
| ClientSocket.Client_socket_API.SendAndReceive | comm/Client_socket_API.cpp:30-83 | the recursive method does what the specification says, for any number of busy answers |
| EndToEnd.ConfigOf | client/FileWatcher.cpp:15-27 | the batches of a watch meet every hypothesis of the delivery theorems |
| EndToEnd.WatchThenRestore | client/Client.cpp:33-70 | at any barrier of any run of any watch that let the watcher on, a restore gives back the snapshot the barrier stands for |
| Admission.AdmittedIfFree | server/Server.cpp:42-53 | in every run who knocks gets the place if and only if fewer than 32 connections are served, and is told to come back otherwise; who has the place is served next |
| Admission.FullHouse | server/Server.cpp:40-61 | 32 are served at once in some run, and the next to knock is discarded |
| Admission.EveryVisitCanEnd | comm/Client_socket_API.cpp:30-83 | from every state of every run every request can be brought to its end |
| Admission.NeverMoreThan32 | server/Server.cpp:40-61 | in every run the counter is the number of connections served and never exceeds 32 |
| Admission.ExchangedUnrolled | comm/Client_socket_API.cpp:60-66 | send_and_receive is its retries, its last try and the way back through them |
| Admission.VisitsAreExchanges | comm/Client_socket_API.cpp:30-83 | a client that is done is where send_and_receive leaves it, against the busy answers and the answer the server gave it, with as many dispatches as the server made |
| Admission.HandledExactlyOnce | server/Server.cpp:40-61 | a request that is done was handled once, or never if a retry had to use a discarded connection, and its result is true exactly when it was handled and answered as expected |

## Left out

- Boost.Asio, timeouts, retries on a broken socket, Boost serialization, SQLite error codes, OpenSSL, the logger, the
  menus, the configuration and both main programs: input and output or libraries that cannot be seen. Archives and
  hashes are opaque values, and which archives deserialize is a parameter.
- The reconnect branch of `send_and_receive`: no error that `receive` sets is in its list of connection errors.
- Failed pushes with a partial effect: a push that was refused leaves an arbitrary store in `Delivery`, and the replica
  is claimed only while nothing has failed.
- Paths with `.`, `..`, doubled separators or an absolute form, symbolic links and special files.
- Changes of the file system during a scan or between a scan and the reading of a file for its push.
- Fairness: that a waiting thread is woken up. The flag and the counter are changed outside the mutex before
  `notify_one`; beside safety it is only claimed that something can always go on.
- `Session::thread_count` and `latest_usage`: nothing reads them, and the count does not return to zero because
  `pause_session` looks the session up, which counts, before it counts down.
- Data races on the sessions map and on the fields of a session, and `Client::close` racing the watcher: every manager
  call, every reading of a session's user, and the writes of one login together are one step.
- The handlers' own answers in `Sessions`: what a probe, get, push or restore replies is the affair of the other
  modules.
- Watcher.FileWatcher.Start: each scan finds the one snapshot it is given, the stop comes after as many scans as there
  are snapshots, and the cycle number does not overflow.
- Server.Server.Push: pushes of other sessions are not made while this one's flag is up, though only pushes of the same
  session wait for it; those of other users do not meet it (`Confluence.OtherUserUntouched`).
- Watcher.FileWatcher.Visit: `FSElement` is a value kept in the map, as `std::map` keeps it, so its two updating tests
  return the new value instead of changing it in place.
- ClientSocket.Client_socket_API.Launch: a thread's work is the result it will return, a parameter; what the results of
  the real requests mean is in `Draining` and `Delivery`.
- ClientApi.Client_API.Restore: the workers are taken one at a time, from the moment they get the flag, and the server
  mirrors a tree throughout; how they interleave is in `Draining`.
- ClientApi.Client_API.Probe: a failed request for the schema is an absent reply; the message that closes an empty
  probe is answered by a parameter.
- Server.Server.Login: which names and passwords are registered is the parameter `granted`.
- Delivery.AlwaysInv: the server's session is one user's; pushes of other users are single steps of their own.
- Rounds.AlwaysInv: every push reads its user a third time, for the row, though only an insertion does.
