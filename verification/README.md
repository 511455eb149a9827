# Verified models of four distributed-systems programs

This project models four programs of the repository in Dafny and proves what
they promise. Each program has its own modules; methods that update state are
classes with `modifies` clauses, proved against functions on values, and the
main results are lemmas about those functions.

`dafny verify dfyconfig.toml` verifies everything.

## The programs and their main results

**Two-phase commit for collages** (`15440-p4/final`). A coordinator asks the
owners of a collage's images to vote, logs and distributes a decision, resends
it until everyone has acknowledged, and recovers from its log; participants lock
images on a yes vote, delete them on commit and release them on abort.

- `CommitTypes`, `Coordinator` (class `Collage`), `Participant` (class
  `UserNode`), `ServerLog`, `CommitServer` (class `Server`) and `LogText` model
  the objects, the log and its text. A handler is a function from a state to a
  new state and its ordered effects (log record, file, message); the classes
  perform the same effects one by one.
- `CommitProtocol` is the whole system as a transition relation: messages once
  sent stay in a set for ever, so loss, delay, repetition and reordering are all
  included, and a crash may fall between any two effects of any handler.
- Main results in `CommitTheorems`, over every reachable state:
  `AtomicCommitment`, `NoImageCommittedTwice`, `ServerCrashSafety`,
  `CompletionSoundness`, `ConservativeRecovery`; `ServerLog.ReplayInvertsLogging`
  for the log; `CommitApproval.DecidedExactly` for the outcome of the votes in any
  run; `CommitProgress.CompletesExactly` and `CompletesWithinRounds` for progress;
  `CommitSuccess.CanApprove`, `CanCommit` and `CommitPossibility.CanFinish` for what
  can still happen from any state; `LockRelease.LocksReleased` and `LateRequests.StrandedExactly` for locks
  over FIFO links.
- `CommitDepartures`, `CompositeFiles`, `TruncatedLog` and `TruncatedRuns` say
  where the code does not do what is wanted of it, and exactly when.

**Caching file proxy** (`15440-p2/final`). A whole-file LRU cache bounded in
bytes with reference counts, chunked transfer, and versions that keep copies in
step with the server.

- `Files`, `LruCache` (classes `CacheFile`, `Cache`), `ChunkTransfer` (class
  `FileServer` and the transfer loops), `PathNames`, `Decimal`, `ProxyModel` (the
  client operations as functions) and `ProxyHandler` (class `FileHandler`, which
  carries them out in place). `ProxyLinkage` and `ProxySafety` say what holds of
  one proxy, `ProxyOpens` and `ProxyDescriptors` that its operations keep it;
  `ProxyContents`, `ProxyRecency` and `ProxyErrors` say where bytes go, which files
  come first and which opens fail.
- Main results: `LruTheorems.AddNewExact` (exact eviction),
  `ProxyCoherence.CacheInvariant`, `ProxyCoherence.CacheCoherence` and
  `ProxySessions.SessionExact` over every interleaving of successful calls at any
  number of proxies, `ProxySessions.OpenSeesServer` (close-to-open), and the
  contracts of the transfer methods. Each condition of the first two is shown to be
  needed:
  `ProxyCoherence.SoundExactly`, `ProxyCollisions.ApartExactly`,
  `ProxySpellings.OneSpellingExactly` and the runs in `ProxyDepartures`.

**File RPC** (`p1/final/submissions/mysolution11`). Calls are marshalled into
byte messages, cut up by a stream socket, reassembled, decoded and executed, and
the replies come back the same way.

- `RpcWire` (byte layouts), `RpcMarshal`, `RpcFraming`, `RpcServer` (class
  `Server`), `RpcClient` (class `Client`).
- Main results: the contracts of the client's methods (the forwarded call has the
  result, errno, output buffer and effect of the direct call) and
  `RpcFraming.Receiving`.

**Autoscaler** (`15440-p3/final/mysolution7`). `Autoscaler` has the counters that
two threads and remote removals share; `VmCap`, `ScaleDownStops`,
`ScaleUpReaches`, `FirstMiddleExact` and `SplitDecisionExact` are the main results.

## Assumptions

- Collage file names are never reused. A delivered message carries its sender,
  as the coordinator reads it. User and file names hold no `;`, `:` or white
  space; `LogText` shows that this is what makes the log text readable again.
- The log appends. The program's `Helper.write` truncates instead; what that
  costs is the subject of `TruncatedLog`.
- A handler or timer body is atomic except for a crash between two effects.
- Proxy operations are atomic, files are regular, the cache folder starts empty,
  files are at most 2147400000 bytes long (where int offsets do not wrap), strings
  are compared by value, and no file is unlinked. Client paths have no doubled or
  trailing slash, which the file names made from them would lose. The system-wide
  results take the refresh loop's arguments in the declared order;
  `ChunkTransfer.UpdateFromServer` and `ProxyHandler` have both orders.
- Different path strings name different files. `ProxySpellings` drops this for the
  server's files and shows what it is needed for; for the names in a cache folder
  it is taken for granted.
- `CacheInvariant` asks of one proxy's calls that none of its paths is another one
  with `@` and a descriptor number behind it (`PathNames.Apart`), and that every
  write's entries are kept (`ProxyDescriptors.Kept`). `CacheCoherence` also asks
  that the path of a file closed after writing does not contain the cache folder's
  name (`ProxyDescriptors.Clear`), and, for equality, that the file is not shorter
  than the server's (`LongEnough`).
- A scalar RPC reply arrives whole and is followed by a zero in the client's
  buffer; results other than file positions are within int range; messages are
  little-endian.
- Each update of a VM counter, `midNum++` and `midNum--` included, is atomic. In
  the program two threads make them without a lock, so an update could be lost.
- New VM ids are fresh. The two reads of the scale decision's second test are
  taken together.

## Where the code departs from its intent

Each is kept as the code has it, with a lemma.

- The log is truncated at every write. `TruncatedLog.TruncatedLogExact` says
  exactly when the server still has the same duties after that, and
  `TruncatedPromisesExact` exactly when a participant forgets no promised image;
  `TruncationLoses` has reachable logs that fail, and `StartForgets`,
  `AbortForgets` and `PromiseForgets` the ways there from any state. With
  truncating logs in every step, two collages over one image are both committed
  after one crash of its owner (`TruncatedRuns.ImageCommittedTwice`).
- A participant logs a decision as `true`/`false` but looks for `yes`/`no`:
  `Participant.AsWrittenIgnoresDecisions`, `CommitDepartures.ReleasedLockReturns`,
  and the second half of `CommitTheorems.ConservativeRecovery`.
- The composite file is written before the decision record, so it can be there
  without a commit (`CommitDepartures.CompositeWithoutCommit`): exactly in the
  runs where the server crashed between the two
  (`CompositeFiles.CompositeWithoutCommitExact`). `CommittedHasComposite` is the
  other direction.
- An abort record names no sources: `TruncatedLog.TruncatedLogExact` counts it
  (`NamelessAbort`).
- Votes are requested on a thread of their own that does not look at the
  decision. Locks are released in every run that asks nobody late
  (`LockRelease.LocksReleased`); where a request is still unsent at the decision,
  the collage can finish in a state from which no run releases its lock
  (`LateRequests.LateRequestLocks`, `StrandedExactly`, `LateRequestKeepsLock`).
- `addCache` links a present path a second time (contract of
  `LruCache.Cache.AddCache`); opening a current file touches the wrong path
  (`ProxyCoherence.HitDoesNotTouch`); the refresh loop swaps two arguments
  (contract of `ChunkTransfer.UpdateFromServer`, `declared` being false); int
  offsets wrap near the end of the largest files
  (`ChunkTransfer.PieceLengthExact`), which are then not copied (`DownloadExact`).
- `updateCache` loses a file that no longer fits and reports success: a proxy's
  bookkeeping is sound throughout a run exactly if that never happens
  (`ProxyCoherence.SoundExactly`, `WriteKeptExact`), and two calls are enough for
  it to happen (`ProxyDepartures.InvariantNeedsRoom`).
- A private copy is named by `@` and the descriptor, and another path can have that
  name: `ProxyCollisions.ApartExactly`, with the runs `CopyOpenedByName` and
  `CachedFileOverwritten`.
- Versions are kept by the path as written, so a write through one spelling of a
  file leaves copies under another one current: `ProxySpellings.OneSpellingExactly`.
- The server's EEXIST is only for files that a proxy has not cached
  (`ProxyErrors.CachedCreateNew`).
- The server path is cut out of the cached name by replacing every occurrence of
  the folder: `PathNames.ServerPathExact`, `ProxyDescriptors.UploadTargetExact`,
  and `ProxyDepartures.CoherenceNeedsClearPaths` for what follows, whatever the
  path.
- Nothing truncates a shorter upload: `ProxyCoherence.CloseAgreesExactly`, and
  `ProxyDepartures.CoherenceNeedsLength` for two writers of one file.
- The client reads a scalar reply without ending it: `RpcClient.StaleDigit`. The
  server keeps a file position in an int: contract of `RpcClient.Client.Lseek`.
- The average queue length is a quotient by `midNum`, which stays above 0 exactly
  if the first middle machine is one of those that never retire:
  `Autoscaler.FirstMiddleExact`. The scale decision reads that counter again after
  its tests: `SplitDecisionExact`, and `SplitDecisionOverflows` for a run of the
  program to thirteen machines. A decision in the middle of a start overwrites its
  need, and leads to one machine too few (`ScaleUpReaches`).

## Model

| member | source | states |
|---|---|---|
| Coordinator.SourcePartition | 15440-p4/final/Collage.java:38-58 | the vote requests cover exactly the distinct user:image pairs, each image in its own user's request and once, and their keys are the user set |
| Coordinator.RequestImages | 15440-p4/final/Collage.java:44-57 | a user's request names exactly the images of that user |
| Coordinator.Collage.constructor | 15440-p4/final/Collage.java:38-58 | the loop over the sources builds exactly the user set and requests that SourcePartition is about |
| Coordinator.Collage.Vote | 15440-p4/final/Collage.java:63-68 | every user gets its own request once, and none is left to send again |
| Coordinator.RequestTargets | 15440-p4/final/Collage.java:63-68 | with the requests the constructor made, every user is asked once, for exactly its own images |
| Coordinator.Collage.DistributeDecision | 15440-p4/final/Collage.java:75-89 | the decision goes, in set order, to the users that have not acknowledged; the collage is decided afterwards |
| Coordinator.BroadcastTargets | 15440-p4/final/Collage.java:77-86 | a broadcast reaches each outstanding user and no one else, with this decision |
| Coordinator.Collage.CountAck | 15440-p4/final/Collage.java:97-110 | counts a known user once, answers true exactly when all are counted, and then clears the set |
| Coordinator.AckProgress | 15440-p4/final/Collage.java:97-110 | countAck answers true exactly when this user was the last one outstanding; otherwise the outstanding set loses just this user |
| Coordinator.CompletesWhenAllHeard | 15440-p4/final/Collage.java:97-110 | with duplicates, strangers and any order, a collage completes exactly when every outstanding user has been heard |
| CommitProgress.EventProgress | 15440-p4/final/Collage.java:152-204 | while the server is up, no event of the system but a missing acknowledgement changes who is missing, and the last one writes the final record |
| CommitProgress.CompletesExactly | 15440-p4/final/Collage.java:157-166 | over any run without a server crash, with resends, late votes, timeouts and participant crashes, a decided collage is finished exactly when everyone missing was heard |
| CommitProgress.CompletesWithinRounds | 15440-p4/final/Collage.java:243-250 | a run cut into stretches that each bring one missing acknowledgement finishes it within as many stretches as users were missing |
| CommitProgress.DecidedCollects | 15440-p4/final/Collage.java:97-110 | in every reachable state a decided, active collage with participants is in the state these start from |
| CommitPossibility.CanFinish | 15440-p4/final/Server.java:48-140 | from every reachable state, crashed or not, a started and unfinished collage whose participants exist is finished by some run |
| Coordinator.Collage.CountVote | 15440-p4/final/Collage.java:118-131 | counts a known voter once and answers true exactly when all have voted |
| Coordinator.VoteProgress | 15440-p4/final/Collage.java:118-131 | countVote answers true exactly when this user's yes was the last one missing; otherwise the missing votes lose just this user |
| Coordinator.ApprovedWhenAllHeard | 15440-p4/final/Collage.java:173-192 | with duplicates, strangers, late votes and any order, yes votes lead to one composite, one record and one broadcast exactly when everybody missing is among them; otherwise they are remembered and nothing is done |
| CommitApproval.PollEvent | 15440-p4/final/Collage.java:152-204 | while the server is up, each yes vote is kept, the last one approves, a no vote or the timer aborts, each with record and decision to everyone; no other event decides |
| CommitApproval.DecidedExactly | 15440-p4/final/Collage.java:173-204 | over any run without a server crash an open collage is approved exactly if its missing yes votes came before anything against it, aborted exactly if something came against it first, and otherwise misses the votes that did not come |
| CommitApproval.ApprovedExactly | 15440-p4/final/Collage.java:118-131 | without a no vote or a timeout it is approved exactly when every missing yes vote was taken in |
| CommitApproval.UndecidedOpen | 15440-p4/final/Collage.java:118-131 | in every reachable state an undecided, active collage with participants is in the state these start from |
| CommitApproval.StartOpens | 15440-p4/final/Server.java:26-29 | a collage just started waits for every user's vote and has a request for each |
| CommitSuccess.CanApprove | 15440-p4/final/Collage.java:173-192 | from every reachable state in which the missing yes votes of an undecided collage are in the network, some run logs its approval, writes the composite and tells everyone |
| CommitSuccess.CanCommit | 15440-p4/final/Server.java:18-40 | from every reachable state in which a new collage's images are free at running participants, some run commits and finishes it, with every image deleted at its owner |
| Coordinator.Collage.GetMessage | 15440-p4/final/Collage.java:152-204 | ack, late vote, yes vote and no vote: the new collage and the file, log and message effects in their order |
| Coordinator.Collage.VoteTimeout | 15440-p4/final/Collage.java:227-236 | an undecided collage is aborted: record first, then the decision to everyone |
| Coordinator.Collage.AckTimeout | 15440-p4/final/Collage.java:246-249 | the decision is sent again to the users still outstanding |
| Participant.UserNode.VoteResult | 15440-p4/final/UserNode.java:27-61 | yes exactly when no lock exists for this collage, the user agrees, and no image is used or locked |
| CommitSuccess.PromiseExactly | 15440-p4/final/UserNode.java:27-103 | an asked participant logs and sends yes exactly if its user agrees, it has no lock for the collage and holds none of the images, and then it holds them; otherwise it logs and sends no |
| Participant.UserNode.AskVote | 15440-p4/final/UserNode.java:81-103 | logs the vote, locks the images on yes, then sends the vote |
| Participant.UserNode.Decide | 15440-p4/final/UserNode.java:109-129 | a locked collage is logged, on approval its images become used and are deleted, the lock goes; an ack is always sent |
| Participant.UserNode.DeliverMessage | 15440-p4/final/UserNode.java:136-149 | a vote request and a decision go to their handlers |
| Participant.UserNode.DoFailure | 15440-p4/final/UserNode.java:155-194 | replays the log into locks and used images and deletes the images of replayed commits |
| Participant.MatchedStepsReplayExactly | 15440-p4/final/UserNode.java:81-129 | with matching tokens one replayed record does what the handler that wrote it did |
| Participant.AsWrittenIgnoresDecisions | 15440-p4/final/UserNode.java:155-192 | a whole log whose decisions are written as the code writes them replays to what its votes alone replay to |
| ServerLog.ReplayInvertsLogging | 15440-p4/final/Server.java:70-113 | folding doFailure over any log the server can write gives exactly the collages whose latest record is not Committed, each with its participants, status and decision |
| ServerLog.ReplayVerdict | 15440-p4/final/Server.java:90-106 | a replayed collage's decision is that of its latest record |
| ServerLog.VerdictIsLatest | 15440-p4/final/Collage.java:180-199 | the verdict last logged for an unfinished collage is that of its latest record, and there is none without a record |
| CommitServer.Server.StartCommit | 15440-p4/final/Server.java:18-33 | a fresh collage is entered and its sources are logged |
| CommitServer.Server.Dispatch | 15440-p4/final/Server.java:128-140 | a message for an unknown collage is dropped; a finished collage leaves the map |
| CommitServer.Server.DoFailure | 15440-p4/final/Server.java:70-115 | the table becomes the replay of the log, and then every collage's decision is redistributed |
| CommitServer.Server.ReplayLine | 15440-p4/final/Server.java:75-113 | one line: rebuild, redecide or forget a collage |
| CommitServer.Server.RecommitCollage | 15440-p4/final/Server.java:48-64 | each replayed collage's decision goes to its users, undecided ones being aborted |
| CommitServer.RecommitSends | 15440-p4/final/Server.java:48-64 | recovery sends nothing but the replayed decisions |
| CommitTheorems.StepKeepsInv | 15440-p4/final/Server.java:128-140 | every event of the system keeps the protocol invariant |
| CommitTheorems.AtomicCommitment | 15440-p4/final/Collage.java:152-204 | in every reachable state no two decisions on a collage differ, and a deleted image belongs to a collage that everyone voted for and the log committed |
| CommitTheorems.NoImageCommittedTwice | 15440-p4/final/UserNode.java:27-61 | two committed collages share no source |
| CommitTheorems.ServerCrashSafety | 15440-p4/final/Server.java:70-115 | at any moment, after any crashes and recoveries, what replay rebuilds agrees with every decision ever sent and reaches the same users |
| CommitTheorems.ServerLogReplays | 15440-p4/final/Collage.java:162-199 | the log of every reachable state has the shape that ReplayInvertsLogging needs |
| CommitTheorems.CommittedHasComposite | 15440-p4/final/Collage.java:175-190 | a decision record of approval implies the composite file |
| CommitTheorems.CompletionSoundness | 15440-p4/final/Collage.java:157-166 | when a committed collage is logged finished, all of its images have been deleted at their owners |
| CommitTheorems.AsWrittenKeepsPromises | 15440-p4/final/UserNode.java:155-194 | with the tokens as written, replay locks every promise ever logged and marks nothing used |
| CommitTheorems.ConservativeRecovery | 15440-p4/final/UserNode.java:81-194 | replay never frees a held image; it is exact with matching tokens, and as written exactly when every promise ever made is still locked and nothing is used |
| CommitDepartures.CompositeWithoutCommit | 15440-p4/final/Collage.java:176-189 | a reachable state with the composite file and a decision to abort |
| CompositeFiles.CompositeStepExact | 15440-p4/final/Collage.java:176-189 | if every composite is approved in the log, one event leaves an unapproved one exactly when it is the vote that completes an undecided collage and the server crashes after the file |
| CompositeFiles.CompositeWithoutCommitExact | 15440-p4/final/Collage.java:176-189 | a run ends with a composite that the log does not approve exactly when it contains such a crash |
| CommitDepartures.ReleasedLockReturns | 15440-p4/final/UserNode.java:114-192 | a reachable state where a released image is locked again by replay |
| TruncatedLog.TruncatedLogExact | 15440-p4/final/Helper.java:63-74 | with the truncated log the server has the same duties exactly when all other collages were finished and the last record is no abort without names |
| TruncatedLog.HeldExact | 15440-p4/final/UserNode.java:155-192 | replay of any participant log holds exactly the images of the promises that no record called off |
| TruncatedLog.TruncatedPromisesExact | 15440-p4/final/Helper.java:63-74 | a truncated participant log frees no promised image exactly when its last record is a yes vote for all of them, or nothing is promised |
| TruncatedLog.TruncatedPromisesForgotten | 15440-p4/final/Helper.java:63-74 | with a truncated log a participant can promise a promised image again |
| TruncatedLog.StartForgets | 15440-p4/final/Helper.java:63-74 | from any reachable state with an unfinished collage, starting another leads to a log that truncation breaks |
| TruncatedLog.AbortForgets | 15440-p4/final/Helper.java:63-74 | so does any vote timeout that aborts a collage with participants |
| TruncatedLog.PromiseForgets | 15440-p4/final/Helper.java:63-74 | from any reachable state, one more promise by a participant frees, after truncation, every other image it holds |
| TruncatedLog.TruncationLoses | 15440-p4/final/Helper.java:63-74 | three reachable logs: two live collages, an abort without names, two promises |
| TruncatedRuns.ImageCommittedTwice | 15440-p4/final/Helper.java:63-74 | a run with truncating logs that commits two collages over one image |
| LogText.RecordRoundTrip | 15440-p4/final/Server.java:75-105 | printing a record and splitting it at `;` and `:` gives the record back |
| LogText.LogRoundTrip | 15440-p4/final/Helper.java:80-96 | writing a log and scanning its words gives the records back in order |
| LogText.UserRecordRoundTrip | 15440-p4/final/UserNode.java:160-192 | the same for a participant's records |
| LogText.RecordTexts | 15440-p4/final/Collage.java:178-203 | the text of each kind of record, with two sources or images |
| LockRelease.LocksReleased | 15440-p4/final/UserNode.java:109-129 | over FIFO at-most-once links, in every run of the code: a user not asked about a collage after its decision holds no lock for it once it is logged finished |
| LateRequests.LateRequestLocks | 15440-p4/final/Server.java:35-41 | a decided collage with an unsent request to a user whose images are free can go on to be logged finished with that user's lock held in every continuation |
| LateRequests.StrandedExactly | 15440-p4/final/Server.java:35-41 | after any run without a late request, that can happen to a user with free images exactly if its request is still unsent |
| LateRequests.TurnKeepsStranded | 15440-p4/final/UserNode.java:81-129 | no turn releases the lock of a finished collage when no decision about it is on its way |
| LateRequests.LateRequestKeepsLock | 15440-p4/final/Server.java:35-41 | a whole run with a late vote request after which a finished collage's image stays locked, however it goes on |
| LruCache.CacheFile.TurnOn | 15440-p2/final/CacheFile.java:69-71 | one reference more, nothing else |
| LruCache.CacheFile.TurnOff | 15440-p2/final/CacheFile.java:64-66 | one reference less, nothing else |
| LruCache.Cache.LeastRecentClosed | 15440-p2/final/Cache.java:67-73 | the inner scan finds the last entry that is not open, or none |
| LruCache.VictimInRange | 15440-p2/final/Cache.java:66-73 | the entry found is closed and every entry behind it is open |
| LruCache.Cache.MakeRoom | 15440-p2/final/Cache.java:65-82 | the eviction loop ends with room, or with no closed entry left and the evictions standing |
| LruCache.Cache.AddCache | 15440-p2/final/Cache.java:42-91 | a present path is counted and its object linked twice; a new one is inserted at the head after eviction, or -1 |
| LruCache.Cache.UpdateCache | 15440-p2/final/Cache.java:96-111 | unlink and insert again; -1 only for an unknown path |
| LruCache.Cache.DeleteCache | 15440-p2/final/Cache.java:116-141 | the first entry of that path leaves the list, the size and the disk |
| LruCache.Cache.FindCacheFile | 15440-p2/final/Cache.java:146-158 | the first object of that path, or null |
| LruTheorems.NeededIsLeast | 15440-p2/final/Cache.java:65-82 | the number of evictions is the least that makes room |
| LruTheorems.EvictExact | 15440-p2/final/Cache.java:65-82 | the loop's result is the list without exactly that many least recent closed entries |
| LruTheorems.AddNewExact | 15440-p2/final/Cache.java:42-91 | evicts the shortest run of least recent closed entries, keeps the others in order, new entry at the head; fails exactly when the file and the open entries exceed the capacity |
| LruTheorems.AddNewConsistent | 15440-p2/final/Cache.java:58-86 | afterwards paths are unique and the size is the sum of the lengths, within capacity |
| LruTheorems.DeleteConsistent | 15440-p2/final/Cache.java:116-141 | deleteCache keeps unique paths and the exact size |
| LruTheorems.TouchExact | 15440-p2/final/Cache.java:96-111 | the touched entry survives exactly when it fits beside the open entries; while all fit it only moves to the head |
| ChunkTransfer.PieceLengthExact | 15440-p2/final/Proxy.java:438 | a piece is 200000 bytes or the rest, exactly until the int addition wraps |
| ChunkTransfer.FileServer.Open | 15440-p2/final/Server.java:107-156 | the option errors, the piece at an offset with the total length, and a first version |
| ChunkTransfer.FileServer.GetVersion | 15440-p2/final/Server.java:161-170 | the file's version, 1 if it had none |
| ChunkTransfer.FileServer.Close | 15440-p2/final/Server.java:177-203 | writes at the offset and raises the version by one; -1 for a missing file |
| ChunkTransfer.FileServer.Update | 15440-p2/final/Server.java:210-253 | the piece at an offset, or an empty new file, or ENOENT |
| ChunkTransfer.Retrieve | 15440-p2/final/Proxy.java:167-213 | the loop ends, having written the first piece over the file and appended the others, or with an exception when the int offset wraps |
| ChunkTransfer.DownloadExact | 15440-p2/final/Proxy.java:188-197 | a file whose length is an int is copied whole, and the loop ends well, exactly up to 2147400000 bytes |
| ChunkTransfer.FetchedExact | 15440-p2/final/Proxy.java:181-196 | that equals the server's file exactly when the old file was no longer than the first piece |
| ChunkTransfer.UpdateFromServer | 15440-p2/final/Proxy.java:220-267 | with declared argument order a faithful copy; as written it fails with one piece written exactly for files over 200000 bytes |
| ChunkTransfer.UpdateOnServer | 15440-p2/final/Proxy.java:420-452 | all bytes arrive at their offsets and the version rises by max(1, ceil(length/200000)); missing file EIO |
| ChunkTransfer.UploadKeepsTail | 15440-p2/final/Server.java:185-190 | the server's file is the upload followed by any longer old tail, equal to the upload exactly when the old file was no longer |
| ChunkTransfer.UpdateOnCache | 15440-p2/final/Proxy.java:459-493 | the cached file gets the same bytes over its old content |
| PathNames.CutLocalPath | 15440-p2/final/Proxy.java:405-413 | from a private copy's name the cached file's name is always found again |
| PathNames.ServerPathExact | 15440-p2/final/Proxy.java:524 | the server path is recovered exactly when the folder's name does not occur in the client's path |
| PathNames.NamesDistinct | 15440-p2/final/Proxy.java:131 | names of cached files, and of private copies, are those of different paths; a cached file is named like a private copy exactly when its path is that of the copy with `@` and the descriptor |
| ProxyHandler.FileHandler.Open | 15440-p2/final/Proxy.java:348-400 | the descriptor, maps, cache, disk and server after an open are those of ProxyModel.OpenFile, and an uncached file that is missing or, for CREATE_NEW, there gives ENOENT or EEXIST |
| ProxyHandler.FileHandler.AddToCacheWhenFileOnCache | 15440-p2/final/Proxy.java:300-335 | a cached file is counted, and refreshed if its version is not the server's |
| ProxyHandler.FileHandler.AddToCacheWhenFileNotOnCache | 15440-p2/final/Proxy.java:274-294 | fetches the file and enters it with one reference and the server's version |
| ProxyHandler.FileHandler.GetLocal | 15440-p2/final/Proxy.java:128-162 | copies the cached file and enters the copy with one reference |
| ProxyHandler.FileHandler.Close | 15440-p2/final/Proxy.java:498-547 | READ: one reference less; otherwise delete the copy, upload, rebuild the cached file under the new version |
| ProxyHandler.FileHandler.Write | 15440-p2/final/Proxy.java:552-587 | writes at the pointer of the private copy and touches both entries |
| ProxyHandler.FileHandler.Lseek | 15440-p2/final/Proxy.java:643-682 | touches the entries and moves the pointer to a position from the start of the file |
| ProxyOpens.OpenCachedGood | 15440-p2/final/Proxy.java:274-335 | a successful fetch keeps every bookkeeping fact and a copy that agrees with the server |
| ProxyDescriptors.UploadAdvances | 15440-p2/final/Proxy.java:420-452 | an upload raises the version; the bytes sent agree with the server's exactly when they are no fewer than it had |
| ProxyDescriptors.UploadTargetExact | 15440-p2/final/Proxy.java:524 | a closing writer's bytes go to the file it opened exactly when the folder's name does not occur in its path |
| ProxyDescriptors.CloseWriteKeeps | 15440-p2/final/Proxy.java:520-543 | a successful close of a writer keeps the bookkeeping, and the agreement of copies if its path is clear of the folder's name |
| ProxyDescriptors.UseKeeps | 15440-p2/final/Proxy.java:592-682 | read and lseek by a live descriptor always succeed and keep the invariant |
| ProxyCoherence.CacheInvariant | 15440-p2/final/Proxy.java:348-400 | after any interleaving of successful calls in which no path of this proxy is another one with `@` and a descriptor behind it and every write's entries are kept, taking different paths for different files: unique paths, exact size within capacity, counts equal live descriptors, no file with a live descriptor evicted |
| ProxyCoherence.SoundExactly | 15440-p2/final/Proxy.java:563-577 | with such paths, a proxy is sound before and after every call of a successful run exactly when each of its writes keeps its entries |
| ProxyCollisions.ApartExactly | 15440-p2/final/Proxy.java:128-162 | over a set of paths, all such runs leave a proxy sound exactly when none of the paths is another one with `@` and a descriptor behind it |
| ProxyCollisions.CopyOpenedByName | 15440-p2/final/Proxy.java:300-335 | a successful run of an open, an open of the private copy by its name, and a close that deletes it under a live descriptor |
| ProxyCollisions.CachedFileOverwritten | 15440-p2/final/Proxy.java:128-162 | a successful run in which a private copy overwrites a cached file of that name and links it twice |
| ProxyDepartures.InvariantNeedsRoom | 15440-p2/final/Cache.java:96-111 | a successful open and a successful write of more bytes than the cache holds lose the entry of a live descriptor |
| ProxyCoherence.CacheCoherence | 15440-p2/final/Proxy.java:300-335 | under the same conditions on one proxy's calls, and if its closing writers' paths are clear of the folder's name, its copy of the server's version is a prefix of the server's file whatever other proxies do, and equal if no closing writer of its own was shorter |
| ProxySpellings.SpelledCoherence | 15440-p2/final/Server.java:34-48 | the same when path strings may resolve to one file, if no two that the run works on do |
| ProxySpellings.CoherenceNeedsOneSpelling | 15440-p2/final/Server.java:161-199 | for any two spellings of one file, a successful run of two careful proxies after which a copy of the current version is not the file |
| ProxySpellings.OneSpellingExactly | 15440-p2/final/Server.java:161-199 | over a set of paths, careful proxies agree with the server in all runs exactly when no two paths resolve to one file |
| ProxyDepartures.CoherenceNeedsClearPaths | 15440-p2/final/Proxy.java:520-543 | for every path that contains the folder's name, a run of one open and one close leaves a copy newer than its file |
| ProxyDepartures.CoherenceNeedsLength | 15440-p2/final/Proxy.java:420-452 | for every other path, a run of two writers after which a copy of the server's version is not the server's file |
| ProxyErrors.OpenReplyExact | 15440-p2/final/Server.java:48-134 | READ and WRITE of a missing file are answered ENOENT, CREATE_NEW of an existing one EEXIST, nothing else is an error; an error changes nothing, and otherwise the file is there with its bytes and a version |
| ProxyErrors.UpdateReplyExact | 15440-p2/final/Server.java:210-253 | a refresh is refused exactly for a missing file, unless CREATE_NEW makes it; the first piece and the length come back |
| ProxyErrors.OpenRefused | 15440-p2/final/Proxy.java:274-294 | an open of an uncached file with an option that does not go with the server's file fails and changes neither server nor cache |
| ProxyErrors.FirstOpenExact | 15440-p2/final/Proxy.java:348-400 | the first open of a path succeeds exactly when the option goes with the server's file and the file, twice for a writer, fits beside the open files |
| ProxyErrors.OpenReadExact | 15440-p2/final/Proxy.java:274-294 | a first READ succeeds exactly when the file exists and fits beside the open files |
| ProxyErrors.CachedCreateNew | 15440-p2/final/Proxy.java:300-335 | for a cached file CREATE_NEW does what CREATE does |
| ProxyCoherence.CloseAgreesExactly | 15440-p2/final/Proxy.java:520-543 | after a close the copy has the new version of the file the bytes went to, which is the file opened exactly when its path is clear, and the bytes agree exactly when they are no fewer than that file had |
| ProxyCoherence.WriteKeptExact | 15440-p2/final/Proxy.java:563-577 | a write reports success, and keeps both entries exactly when all open files, as grown, fit |
| ProxyCoherence.HitDoesNotTouch | 15440-p2/final/Proxy.java:309-311 | opening a current cached file leaves the recency order as it was |
| ProxyRecency.UseMovesFirst | 15440-p2/final/Proxy.java:607-622 | a read or lseek puts the reader's file first, or the private copy and then the cached file; nothing is evicted and the others keep their order |
| ProxyRecency.WriteMovesFirst | 15440-p2/final/Proxy.java:567-577 | a write that keeps its entries puts the private copy first and the cached file second |
| Files.OverlayExact | 15440-p2/final/Proxy.java:564-565 | writing at a position puts the bytes there, keeps all others, and fills a gap with zeros |
| ProxyContents.WriteLands | 15440-p2/final/Proxy.java:552-587 | a kept write puts its bytes at the pointer of the private copy and moves the pointer behind them; its other bytes, and every other file that stays, are as before |
| ProxyContents.WriteTwice | 15440-p2/final/Proxy.java:564-565 | two writes leave the copy and the pointer that one write of both leaves |
| ProxyContents.SeekThenWrite | 15440-p2/final/Proxy.java:668-675 | a write after lseek lands at the position sought, in the copy as it was |
| ProxySessions.CopyExact | 15440-p2/final/Proxy.java:128-162 | whatever other descriptors and proxies do, a private copy is what its own descriptor's writes and seeks make of the bytes it began with |
| ProxySessions.OpenSeesServer | 15440-p2/final/Proxy.java:300-335 | after a successful open the cached file has the server's version and begins with, and in careful runs is, the server's file; a writer's copy is the same |
| ProxySessions.CloseSends | 15440-p2/final/Proxy.java:420-452 | a writer's close writes its whole copy over one file of the server and changes no other |
| ProxySessions.SessionExact | 15440-p2/final/Proxy.java:498-547 | from open to close, the one server file changed begins with what the session's own writes made of the cached file; it is the file opened if the path is clear, and exactly these bytes if and only if they are no fewer than it had |
| RpcWire.IntRoundTrip | p1/final/submissions/mysolution11/RPC.h:44-53 | an int field read back from its four bytes is the int |
| RpcWire.LongRoundTrip | p1/final/submissions/mysolution11/RPC.h:56-66 | a size_t or off_t field read back from its eight bytes is the number |
| RpcMarshal.MarshallOpen | p1/final/submissions/mysolution11/mylib.c:51-74 | the server decodes the path, flags and mode that were marshalled, whatever the padding |
| RpcMarshal.MarshallClose | p1/final/submissions/mysolution11/mylib.c:116-125 | the same for close |
| RpcMarshal.MarshallWrite | p1/final/submissions/mysolution11/mylib.c:237-248 | the same for write and its bytes |
| RpcMarshal.MarshallLseek | p1/final/submissions/mysolution11/mylib.c:289-298 | the same for lseek |
| RpcMarshal.MarshallUnlink | p1/final/submissions/mysolution11/mylib.c:406-416 | the same for unlink |
| RpcMarshal.MarshallRead | p1/final/submissions/mysolution11/mylib.c:166-177 | the same for read |
| RpcMarshal.MarshallEntries | p1/final/submissions/mysolution11/mylib.c:458-468 | the same for getdirentries |
| RpcFraming.ReceiveOne | p1/final/submissions/mysolution11/server.c:291-310 | the copies stay within the allocated bytes and the loop stops exactly at the end of the message |
| RpcFraming.Receiving | p1/final/submissions/mysolution11/server.c:280-328 | for every list of messages and every delivery in pieces that cross no message end, exactly those messages are dispatched in order |
| RpcFraming.ChunkedPieces | p1/final/submissions/mysolution11/server.c:291 | every message can be delivered so: 100 bytes at a time |
| RpcServer.TextFits | p1/final/submissions/mysolution11/server.c:47-49 | the decimal text of an int and its zero fit the reply buffer |
| RpcWire.Creates | p1/final/submissions/mysolution11/mylib.c:53-58 | the mode is read exactly if the binary digit of O_CREAT is set in the flags |
| RpcServer.Server.SendOpen | p1/final/submissions/mysolution11/server.c:22-50 | the descriptor plus the offset, or the negated errno, as decimal text |
| RpcServer.Server.SendScalar | p1/final/submissions/mysolution11/server.c:52-93 | close, write, lseek, unlink: the call without the offset, its value kept in an int, or negated errno, as text |
| RpcServer.Server.SendRead | p1/final/submissions/mysolution11/server.c:95-138 | a framed reply with the count or negated errno and the bytes read |
| RpcServer.Server.SendEntries | p1/final/submissions/mysolution11/server.c:219-258 | the same with the new position |
| RpcServer.Server.SendRPC | p1/final/submissions/mysolution11/server.c:260-278 | the opcode picks the handler of the decoded call |
| RpcClient.AtoiReply | p1/final/submissions/mysolution11/mylib.c:93-102 | atoi of a terminated reply is the number the server sent |
| RpcClient.StaleDigit | p1/final/submissions/mysolution11/mylib.c:85-94 | without the zero the number is right exactly when no digit follows it in the buffer, or, for 0, when the digits that follow are zeros |
| RpcClient.Client.Open | p1/final/submissions/mysolution11/mylib.c:51-105 | result, errno and server files are those of the direct open with the caller's own mode, for a kernel that looks at it only if bit 0100 of the flags is set; the descriptor is shifted by the offset |
| RpcClient.Client.Close | p1/final/submissions/mysolution11/mylib.c:107-155 | negative: EBADF; below the offset: the local call; otherwise the direct close on the server |
| RpcClient.Client.Read | p1/final/submissions/mysolution11/mylib.c:157-226 | the same for read, with the caller's buffer filled as the direct call fills it |
| RpcClient.Client.Write | p1/final/submissions/mysolution11/mylib.c:228-278 | the same for write |
| RpcClient.Client.Lseek | p1/final/submissions/mysolution11/mylib.c:280-330 | the same for lseek as long as the position fits an int; otherwise the position is wrong, and a failure with an old errno if the int is negative |
| RpcClient.Client.Unlink | p1/final/submissions/mysolution11/mylib.c:404-446 | result, errno and server files are those of the direct unlink |
| RpcClient.Client.Getdirentries | p1/final/submissions/mysolution11/mylib.c:448-531 | the same for getdirentries, with buffer and position |
| Autoscaler.BootedSafe | 15440-p3/final/mysolution7/Server.java:244-256 | the state main sets up satisfies the invariant |
| Autoscaler.StepKeepsSafe | 15440-p3/final/mysolution7/Server.java:69-157 | a decision, each statement of the starting loop, and a removal keep the invariant |
| Autoscaler.VmCap | 15440-p3/final/mysolution7/Server.java:128-157 | over every interleaving, whatever the first ids, at most 12 machines are recorded and between starts the counters are exact and fit both caps; midNum is never 0 while one middle machine never retires |
| Autoscaler.ScaleDownStops | 15440-p3/final/mysolution7/Server.java:69-78 | with fewer than 12 machines and an average below 2, no machine is launched up to the next decision but one whose start is under way |
| Autoscaler.ScaleUpReaches | 15440-p3/final/mysolution7/Server.java:79-91 | with room for them, the middle machines counted once everything needed has started are 2, 3, 6 or 10 by the average, less those removed, and one less if the decision fell into a start |
| Autoscaler.FirstMiddleExact | 15440-p3/final/mysolution7/Server.java:244-256 | midNum stays above 0 in every run exactly when the first middle machine's id is one that never retires |
| Autoscaler.SplitDecisionExact | 15440-p3/final/mysolution7/Server.java:79-91 | whatever starts and removals fall between the test and the last read of midNum, no run up to the next decision records more than 12 machines exactly when the machines recorded or on their way, the tested need and these removals fit |
| Autoscaler.SplitDecisionOverflows | 15440-p3/final/mysolution7/Server.java:79-91 | a run from the start of the program through such a decision to thirteen recorded machines |
| Autoscaler.Master.constructor | 15440-p3/final/mysolution7/Server.java:244-256 | the three first machines and their counters, whatever their ids |
| Autoscaler.Master.ScaleOut | 15440-p3/final/mysolution7/Server.java:69-93 | the thresholds and targets of one decision; keeps the invariant |
| Autoscaler.Master.StartMiddles | 15440-p3/final/mysolution7/Server.java:152-157 | starts exactly as many machines as are needed, records each, keeps the invariant |
| Autoscaler.Master.RemoveVM | 15440-p3/final/mysolution7/Server.java:319-324 | the machine's tier is discounted and its entry becomes NONE; a retirement keeps the invariant |
| Autoscaler.RemovalExact | 15440-p3/final/mysolution7/Server.java:319-324 | removing any id takes it off its tier and keeps both counters as far from the recorded machines as they were |

## Left out

- Sockets, RMI, ProjectLib, the cloud library and serialization: a send, a call or a prompt is a step or a parameter.
- Wall-clock time: a timeout may fire whenever its timer is armed.
- Lock and unlock pairing of the proxy and the file server: operations are atomic.
- The proxy's `unlink`, directories, permission errors and canonical-path checks: branches without further state.
- The bytes a proxy `read` returns, and lseek from the current position or the end: only the cache effects of read and lseek are modelled, in `ProxyModel.UseFile`.
- `stat`, `getdirtree` and `freedirtree`, and the drafts that marshal a directory tree.
- The front tier, the request queues and the dropping of requests in the autoscaler; `Autoscaler` takes the average queue length as given.
- LruCache.Cache.UpdateCache: says what happens only while paths are unique, because the duplicate branch of addCache, the only one that makes them not unique, is never reached by the proxy (`PathNames.NamesDistinct`).
- Coordinator.Collage.GetMessage: the timers it cancels and arms are not fields; which timeouts can fire shows in `CommitProtocol.Enabled`.
- Coordinator.Collage.VoteTimeout: the same for the ack timer it arms.
- CommitServer.Server.StartCommit: the vote thread it starts is not part of the contract; its sends are the event `SendRequest`.
- CommitServer.Server.Dispatch: the same for the timers a handler arms or cancels.
- ChunkTransfer.Retrieve: takes a server file whose length is an int.
- ChunkTransfer.UpdateOnServer: takes a local file of at most 2147400000 bytes, past which int offsets wrap (`PieceLengthExact`).
- ChunkTransfer.UpdateOnCache: the same bound on the local file.
- ChunkTransfer.UpdateFromServer: with the arguments in the source's order it takes no server file to bear the name of an open option, nor a path to be an option's name, since the loop would then fetch another file and may not end.
- ProxyHandler.FileHandler.Open: the same bound on the server's file.
- ProxyHandler.FileHandler.AddToCacheWhenFileOnCache: the same bound, and with the source's argument order no server file named like an option.
- ProxyHandler.FileHandler.AddToCacheWhenFileNotOnCache: the same bound on the server's file.
- ProxyHandler.FileHandler.Close: the same bound on the private copy.
- ProxyHandler.FileHandler.Lseek: moves from the start of the file only; from the current position or the end the cache sees no difference.
- ProxyDescriptors.UseKeeps: the bytes a read returns are not part of it, because a reader keeps the file it opened even when the cached file is rebuilt under the same name.
- RpcMarshal.MarshallWrite: a write must leave the int total of the message within range.
- RpcClient.Client.Write: the same bound on the bytes written.
- RpcServer.Server.SendRPC: the opcodes of stat and of the directory tree, and unknown ones, are not decoded.
- Autoscaler.Master.StartMiddles: runs the loop with nothing in between; `StepKeepsSafe` and `VmCap` have every interleaving of its statements.
