# A verified model of git-lfs

git-lfs keeps large files out of Git. Git stores small pointer files; the contents
live in a content-addressed local store and on a server. This project models the
parts of git-lfs where correctness is hard to see from the code and proves what they
are for, in Dafny 4.11. `dafny verify dfyconfig.toml` checks everything.

What is modelled, by component:

- **Prune** (`Prune`, `PruneSafety`, `PruneLiveness`): a concurrent mark and sweep. Tasks that spawn
  tasks report objects to keep over channels; WaitGroups and channel closes decide
  when deleting is safe.
- **Transfer worker pool** (`WorkerPool`, `WorkerPoolSafety`, `WorkerPoolLiveness`):
  workers behind an authentication gate share a job channel and one in-flight
  counter. `AdapterAuth` proves the once-only callback that the gate rests on.
- **Resumable download** (`Download`): a partial file, a running hash and a byte
  offset that must stay in step through every fallback. Status 206, Content-Range
  and status 416 are those of sections 4.1, 4.2 and 4.4 of RFC 7233.
- **Pointer files** (`Text`, `Sorting`, `Pointer`, `PointerCut`): encoding, decoding,
  and what the read buffer makes of a text that is too long for it.
- **Clean and smudge** (`Extensions`, `ExtensionPipe`, `Filters`, `FilterRoundTrip`,
  `ObjectStore`): user-supplied extension commands, the pointer in between, the way
  back, and the local store under any sequence of adds and checkouts.
- **Delayed checkout** (`TransferBuffer`, `FilterProcess`, `DelayProtocol`,
  `DelayExact`): the
  long-running filter process against a Git that follows the delay protocol of
  gitattributes(5).
- **Pull** (`Pull`, `PullSafety`): the tree scanner and the download watcher that
  share a map of waiting pointers.
- **Parsers, indexes and selectors**: the `git log` scanner (`LogScanner`), the URL
  configuration (`UrlConfig`), the SSH framing and lock list (`SshProtocol`,
  `LockList`), the lock cache and search (`Locks`, `LockCache`, `LockSearch`), the
  credential helpers (`Creds`, `CredsHistory`) and shell quoting (`ShellQuote`).

How it is modelled:

- Goroutines, channels, WaitGroups and semaphores become a step function over a
  state; a run is any list of actions (`GoSync` holds the shared parts). A theorem
  over all lists of actions holds in every interleaving.
- Objects that the code updates become classes, and its loops become methods. Each
  method is proved equal to a specification function, and the lemmas are about that
  function.
- A Go map that is walked in no fixed order is walked in an arbitrary order.
- SHA-256 is an unknown function. Where equal hashes must mean equal contents, that
  is required of the contents that occur and of no others.
- Servers, Git, extension commands, disk faults, other credential helpers and
  clocks are parameters, so theorems hold whatever they do unless a `requires` says
  otherwise.

Results where the code does not do what one might expect. Each comes with the exact
condition and a lemma that exhibits the failure:

- A delayed pointer is kept decoded and written out again for the retry. When the
  read buffer cuts that text before the size, the path is listed for ever
  (`DelayExact.ListsAreExactIff`, `DelayExact.RetrievalEndsIff`,
  `DelayExact.OverlongPointerIsListedForEver`); when it cuts within the size, the
  retry uses a wrong size (`PointerCut.DigitsLeft`).
- A longer configured path does not always beat a shorter one
  (`UrlConfig.RanksHigherIff`, `UrlConfig.LongerPathCanLose`).
- Equally good configuration keys are told apart only by Go's map order
  (`UrlConfig.AnswerIsOneIff`, `UrlConfig.TieDependsOnTheOrder`).
- The lock cache is consistent after adding a lock only if no live lock shares just
  its path or just its id (`LockCache.AddRepresentsIff`,
  `LockCache.RelockedPathBreaksTheCache`).
- An approval that no credential helper takes is reported as an error and yet stays
  cached (`CredsHistory.FailedApprovalLeavesAnEntryIff`,
  `CredsHistory.UntakenApprovalIsServed`).
- A file whose cleaned form is empty is not restored unless it was empty
  (`FilterRoundTrip.CheckoutRestores`, `FilterRoundTrip.EmptiedContentIsLost`).
- A pointer file of exactly 1024 bytes is cleaned again instead of passed through
  (`FilterRoundTrip.CleanLeavesPointersAloneIff`,
  `FilterRoundTrip.FullPointerIsCleanedAgain`).

## Model

| member | source | states |
|---|---|---|
| `PruneSafety.NoRunPanics` | commands/command_prune.go:65-221 | In no interleaving of prune's goroutines is a closed channel sent on or closed again, or a WaitGroup driven below zero |
| `PruneSafety.RemovedObjectsAreSafe` | commands/command_prune.go:65-221 | In every state of every run a removed object is local, was reported by no retention task, no task had failed, it is no dry run, and with remote verification it is on the remote or unreachable |
| `PruneSafety.NothingInFlight` | commands/command_prune.go:286-297 | Once the main goroutine has passed its waits, the retained set is exactly everything ever reported: no report is lost in a channel or a task |
| `PruneSafety.NothingOwed` | commands/command_prune.go:246-253 | Past the error check no task has an unreported error |
| `PruneSafety.ReturnedPruneIsComplete` | commands/command_prune.go:162-221 | A prune that returns and is no dry run has dealt with exactly the local objects that no task reported |
| `PruneSafety.NoDeadlock` | commands/command_prune.go:350-541 | Every reachable state before the end has a goroutine that can move without anything more being found, semaphores and nested tasks included |
| `PruneLiveness.PruneEnds` | commands/command_prune.go:65-221 | A run in which n things are found or reported has at most 49 + 5n steps, and a run that cannot go on without more being found has ended |
| `Prune.Prunable` | commands/command_prune.go:163-182 | An object is listed exactly when it is local and not retained |
| `Prune.Unsafe` | commands/command_prune.go:223-244 | An object is reported exactly when it would be pruned, is reachable and was not verified |
| `Prune.ListPrunable` | commands/command_prune.go:163-182 | The loop over the local objects computes the prunable list |
| `Prune.FindUnverified` | commands/command_prune.go:223-244 | The verification loop reports exactly the unsafe objects |
| `WorkerPoolSafety.NoRunPanics` | tq/adapterbase.go:78-198 | In no interleaving is a closed channel sent on or closed again, or a WaitGroup driven below zero |
| `WorkerPoolSafety.ResultsAreExact` | tq/adapterbase.go:109-129 | A job yields at most one result, on the channel of its own Add; a results channel closes only once each of its jobs has yielded exactly one; what is unread is the end of what was delivered |
| `WorkerPoolSafety.DeliveryNeverBlocks` | tq/adapterbase.go:109-129 | A worker delivering a result is never blocked, whether or not results are read |
| `WorkerPoolSafety.JobChannelClosesLast` | tq/adapterbase.go:131-141 | When the job channel is closed, every Add has sent all its jobs, none is queued, and all are done |
| `WorkerPoolSafety.OthersWaitForAuth` | tq/adapterbase.go:151-198 | A worker other than worker 0 holds or receives a job only after worker 0 reported an authentication |
| `WorkerPoolSafety.GateOpensOnce` | tq/adapterbase.go:89-97 | The gate opens at most once, and exactly once by the time End returns, with no worker left waiting, whether or not a transfer succeeded |
| `WorkerPoolSafety.SecondCallbackPanics` | tq/adapterbase.go:166-190 | A second auth callback for the same job would panic: the pool relies on adapters calling it at most once |
| `WorkerPoolLiveness.StepShrinks` | tq/adapterbase.go:109-198 | Every step but a new Add makes a measure of the remaining work smaller |
| `WorkerPoolLiveness.RunsAfterEndAreBounded` | tq/adapterbase.go:131-141 | After End is called no run has more steps than the measure |
| `WorkerPoolLiveness.SomeoneCanMove` | tq/adapterbase.go:131-198 | After End is called some goroutine can move until End has returned and every results channel is closed |
| `WorkerPoolLiveness.EndReturns` | tq/adapterbase.go:131-141 | Once End is called every run ends, and it ends with End returned and every results channel closed |
| `AdapterAuth.AwaitCompletion` | tq/custom.go:285-335 | The reply loop succeeds exactly on a good completion after progress reports for the object only, and calls auth exactly once if bytes moved or it completed, otherwise never |
| `AdapterAuth.StartCallbackReader.Read` | tq/basic_upload.go:190-203 | A read runs the callback first unless it has run, and reads nothing if it fails |
| `AdapterAuth.StartCallbackReader.ReadMany` | tq/basic_upload.go:190-203 | The number of callback runs over any series of reads |
| `AdapterAuth.CallbackRunsOnce` | tq/basic_upload.go:190-210 | A callback that does not fail runs exactly once however often the body is read |
| `Download.CopyBody` | tools/iotools.go:48-76 | Copying through the hashing reader appends the body to the file up to the byte where a write fails; it succeeds exactly when the body is complete and fits, and then the hash absorbed all of it |
| `Download.FetchInto` | tq/basic_download.go:114-262 | The download of one request, with its restart from zero, leaves the file and result of the specification |
| `Download.Transfer` | tq/basic_download.go:39-106 | One attempt, from the leftover partial file to the rename, computes the specification's outcome |
| `Download.FetchIsSound` | tq/basic_download.go:114-262 | Whatever the server answers, a file that passes the check hashes to the OID; at most two requests and one auth callback are made |
| `Download.StoreHoldsOnlyTheOid` | tq/basic_download.go:63-106 | An attempt changes the stored object only to content that hashes to the OID, and succeeds only with an object in place |
| `Download.FreshFetchSucceeds` | tq/basic_download.go:128-217 | From an empty file an uninterrupted truthful answer yields the object |
| `Download.ResumeFetches` | tq/basic_download.go:128-217 | A resumed answer completes the partial file and succeeds exactly if the result hashes to the OID; any other answer yields the object |
| `Download.FirstAttempt` | tq/basic_download.go:63-106 | An uninterrupted attempt fails exactly when the server resumes a partial file whose completion does not hash to the OID |
| `Download.TwoAttemptsSuffice` | tq/basic_download.go:63-106 | From any leftover partial file, even garbage, the object is in place after at most two uninterrupted attempts |
| `Download.PrefixStaysPrefix` | tq/basic_download.go:39-262 | A partial file that is a true prefix stays one however the transfer is interrupted, whichever file operation fails and after however many bytes a write does; what gets stored is the object |
| `Pointer.Encode` | lfs/pointer.go:69-82 | The buffer-building loop writes the encoded text |
| `Pointer.ScanData` | lfs/pointer.go:260-309 | The line loop computes the entries of the specification, errors included |
| `Pointer.ParseOid` | lfs/pointer.go:213-226 | A parsed OID is 64 lower-case hexadecimal digits |
| `Pointer.DecodedIsWellFormed` | lfs/pointer.go:166-258 | Whatever decodes is well formed: OIDs, size range, extension names, strictly ascending priorities |
| `Pointer.EncodeThenDecode` | lfs/pointer.go:69-150 | Decoding the text of a well-formed pointer gives the pointer back, marked canonical |
| `Pointer.AliasTextDecodes` | lfs/pointer.go:20-26 | The text of a well-formed pointer under any version alias decodes to it, and is canonical exactly when it is the text that encoding writes |
| `Pointer.RoundTripIffWellFormed` | lfs/pointer.go:69-150 | A pointer whose text fits the read buffer survives encoding and decoding exactly when it is well formed |
| `Pointer.ReencodingIsCanonical` | lfs/pointer.go:127-150 | Whatever alias, extension order or size spelling an input used, re-encoding what it decodes to gives canonical text for the same pointer |
| `Pointer.ExtensionOrderIsIrrelevant` | lfs/pointer.go:195-208 | Neither the decoded extensions nor whether they are accepted depend on the order in which the entries are walked |
| `Pointer.ScannedKeysAreDistinct` | lfs/pointer.go:260-309 | The scanned extension entries have distinct keys, so they list a map |
| `Pointer.DecodingIsOrderIndependent` | lfs/pointer.go:166-211 | Whatever order the scanned extension map is walked in, decoding gives the same pointer or fails all the same |
| `PointerCut.CutTextDecodesIff` | lfs/pointer.go:127-150 | The text of a well-formed pointer decodes through the 1024-byte read buffer exactly when the buffer holds some digit of the size |
| `PointerCut.CutTextIsWholeIff` | lfs/pointer.go:127-150 | It decodes to the same pointer exactly when the buffer holds the whole size |
| `PointerCut.DigitsLeft` | lfs/pointer.go:127-150 | When some digits are cut off, it decodes to the pointer with the remaining digits as its size |
| `PointerCut.OverlongDecodes` | lfs/pointer.go:20-26 | A pointer file of 1024 bytes under the oldest alias decodes, and the text written for that pointer does not |
| `Extensions.SortExtensions` | config/extension.go:20-41 | Fails exactly when two extensions share a priority; otherwise lists all of them in ascending order, whatever order the map is walked in |
| `Extensions.IndexByPriority` | config/extension.go:20-31 | The first loop succeeds exactly when the priorities differ and then files each extension under its priority |
| `Extensions.ListingIsUnique` | config/extension.go:20-41 | A registry has only one ascending listing |
| `ExtensionPipe.RunCommands` | lfs/extension.go:129-153 | The commands succeed exactly when the composition does, with its output and each stage's hash |
| `ExtensionPipe.PipeExtensions` | lfs/extension.go:44-163 | The output and the results with the object ID threaded through every stage |
| `ExtensionPipe.PipedResults` | lfs/extension.go:155-161 | Stages are named in order, the first takes the input's hash, the last gives the output's, and each takes what the one before gave |
| `ExtensionPipe.Unwind` | lfs/gitfilter_smudge.go:151-168 | Smudging only the extensions that changed something, in reverse, restores the content through the recorded object IDs |
| `Filters.CleanContent` | lfs/gitfilter_clean.go:19-60 | Clean computes the specification for the registry's listing and fails if priorities clash |
| `Filters.RecordChanges` | lfs/gitfilter_clean.go:45-50 | Exactly the stages that changed the hash are recorded, numbered from zero, with the hash before them |
| `Filters.CopyToTemp` | lfs/gitfilter_clean.go:62-103 | Passes a pointer through, and otherwise stores the content or just its first read |
| `Filters.Configured` | lfs/gitfilter_smudge.go:139-150 | The lookup succeeds exactly when every extension named in the file is registered |
| `Filters.Configure` | lfs/gitfilter_smudge.go:139-150 | The lookup loop computes the extension map under the pointer's priorities |
| `Filters.VerifyStages` | lfs/gitfilter_smudge.go:170-192 | The check passes exactly when every recorded extension's stage produced the recorded object ID, and looking a name up never misses |
| `Filters.ReadLocalFile` | lfs/gitfilter_smudge.go:126-208 | Reading an object back computes the specification: lookup, order, reversal, pipe and all checks |
| `Filters.SmudgePointer` | lfs/gitfilter_smudge.go:55-92 | Smudge computes the specification, and leaves exactly the object that was there with the right size or that arrived |
| `FilterRoundTrip.ExtensionsUndone` | lfs/gitfilter_smudge.go:139-200 | With extensions, reading back what clean stored returns the original content and every object ID check passes |
| `FilterRoundTrip.WholeCopyIff` | lfs/gitfilter_clean.go:87-95 | Without extensions the whole content is stored exactly when the announced size is unknown or exceeds the first read, or the first read was everything |
| `FilterRoundTrip.CleanThenRead` | lfs/gitfilter_smudge.go:126-208 | Reading back what clean stored restores the content, with or without extensions |
| `FilterRoundTrip.CleanedWellFormedIff` | lfs/gitfilter_clean.go:45-58 | A cleaned pointer is well formed exactly when at most ten extensions changed something, their names fit the line format and the size fits 63 bits |
| `FilterRoundTrip.PointerSurvivesIff` | lfs/pointer.go:69-150 | A cleaned pointer decodes from its own text exactly when it is well formed and the text fits the read buffer |
| `FilterRoundTrip.CheckoutRestores` | lfs/gitfilter_smudge.go:55-92 | Clean, encode, decode and smudge give the original bytes back exactly when the cleaned object is not empty or the content was empty |
| `FilterRoundTrip.EmptiedContentIsLost` | lfs/gitfilter_smudge.go:73-75 | A clean command that empties a file, a smudge command that fills it again, and a checkout that leaves it empty |
| `FilterRoundTrip.CleanLeavesPointersAloneIff` | lfs/gitfilter_clean.go:77-86 | Text that decodes as a pointer, canonical or not and however it is read, passes through clean unchanged exactly when it is read in one piece and shorter than the read buffer |
| `FilterRoundTrip.FullPointerIsCleanedAgain` | lfs/gitfilter_clean.go:77-86 | A well-formed pointer whose text has exactly 1024 bytes is cleaned again |
| `FilterRoundTrip.NoByteIsLostIff` | lfs/gitfilter_clean.go:77-103 | Without extensions clean keeps every byte exactly when the first read was everything, or does not look like a pointer and the announced size is unknown or exceeds it |
| `FilterRoundTrip.SmudgeVouches` | lfs/gitfilter_smudge.go:170-192 | With extensions, whatever smudge writes came from an object with the pointer's OID and hashes to the OID recorded by the first extension |
| `ObjectStore.CheckoutsAreVouchedIff` | lfs/gitfilter_smudge.go:63-92 | Over every sequence of adds and checkouts each content written comes from an object with the OID in its pointer exactly when every non-empty object in the store to begin with hashes to its name |
| `ObjectStore.AddedContentComesBack` | commands/command_clean.go:68-89 | A file that was added is restored by checking out what Git stored for it, any adds and checkouts later, unless a pointer with its OID and another size was checked out meanwhile |
| `TransferBuffer.BatchesArePrefix` | commands/command_filter_process.go:242-293 | In every run the batches returned so far, put together, are a prefix of what the watch delivered |
| `TransferBuffer.EmptyBatchMeansDone` | commands/command_filter_process.go:332-354 | An empty batch is returned only after the watch closed and everything it delivered was in earlier batches |
| `TransferBuffer.CallWaitsOnlyForTheWatch` | commands/command_filter_process.go:332-354 | A call that cannot go on has returned everything so far and waits for an open watch |
| `TransferBuffer.RunsAreBounded` | commands/command_filter_process.go:242-354 | Without new items or calls the two goroutines take a bounded number of steps |
| `FilterProcess.Process.Smudge` | commands/command_filter_process.go:93-127 | A smudge that may not be delayed leaves the state and reply of the specification |
| `FilterProcess.Process.SmudgeDelayable` | commands/command_smudge.go:32-84 | A smudge that may be delayed leaves the state and reply of the specification |
| `FilterProcess.Process.List` | commands/command_filter_process.go:128-173 | A list request leaves the state and reply of the specification, fallback list and dropped queue included |
| `DelayProtocol.NeverCrashes` | commands/command_filter_process.go:74-206 | Over every run of a protocol-abiding Git a live queue exists whenever a list is asked for or a path is delayed |
| `DelayProtocol.EmptyListMeansDone` | commands/command_filter_process.go:128-173 | In every run a list request is answered with a list, and the empty list is sent only when nothing is outstanding |
| `DelayExact.ListsAreExactIff` | commands/command_filter_process.go:128-173 | Lists name only outstanding paths, in every run that lets contents of a given set be delayed, exactly when the text of every pointer among them decodes again |
| `DelayExact.RetrievalEndsIff` | commands/command_filter_process.go:128-173 | Retrievals end, in every such run, under exactly the same condition, and then within two requests for each outstanding path and three more |
| `DelayExact.RetryAnswersTheFirstContentIff` | commands/command_filter_process.go:302-324 | A retried path smudges what the content first sent for it would smudge now, in every such run, exactly when the read buffer holds the whole size of every pointer among them |
| `DelayExact.RetryIsTheDelayedSmudgeIff` | commands/command_filter_process.go:302-324 | The same for one path, whatever the state of its object |
| `DelayExact.RetryHandsOver` | commands/command_smudge.go:101-150 | A retry hands over the smudged object exactly when smudging succeeds; otherwise it hands over the pointer text and forgets the path if download errors are skipped, and ends the process if not |
| `DelayExact.CanonicalIsWhole` | lfs/pointer.go:127-150 | Pointer text as git-lfs writes it meets both conditions |
| `DelayExact.OverlongPointerIsListedForEver` | commands/command_filter_process.go:116-173 | A delayed pointer file of 1024 bytes under the oldest alias is listed although nothing is outstanding, and Git can be kept asking for any number of requests |
| `Pull.PointerMap.Seen` | commands/command_pull.go:130-138 | Reports whether the object is waited for, and then adds the pointer to its list |
| `Pull.PointerMap.Add` | commands/command_pull.go:140-144 | Adds the pointer to its object's list |
| `Pull.PointerMap.All` | commands/command_pull.go:146-152 | Returns and forgets an object's list |
| `PullSafety.NeverTwice` | commands/command_pull.go:51-87 | At no moment of any interleaving has a pointer been checked out twice |
| `PullSafety.PullChecksOutOnce` | commands/command_pull.go:51-103 | When the watcher stops, every reported pointer was checked out exactly once, except those left waiting for a failed download |
| `PullSafety.EnqueuedOnceAfterParking` | commands/command_pull.go:57-73 | An object is queued at most once, and only after its pointer is in the map |
| `PullSafety.NoDeadlock` | commands/command_pull.go:78-103 | Until the watcher stops, the scanner, the queue or the watcher can move |
| `LogScanner.StreamedIsCut` | lfs/gitscanner_log.go:285-353 | Streaming with buffered data finds what cutting the log into sections finds |
| `LogScanner.Fresh` | lfs/gitscanner_log.go:285-353 | With nothing buffered the streaming form finds exactly the pointers of the sections |
| `LogScanner.Scanner.constructor` | lfs/gitscanner_log.go:221-235 | A new scanner has the pointers of the whole log ahead of it |
| `LogScanner.Scanner.FinishLastPointer` | lfs/gitscanner_log.go:253-267 | Yields what the buffer decodes to under the current name, and empties the buffer |
| `LogScanner.Scanner.SetFilename` | lfs/gitscanner_log.go:355-358 | The name and whether it is included; nothing is buffered for an excluded file |
| `LogScanner.Scanner.Scan` | lfs/gitscanner_log.go:245-353 | Each call yields the next pointer still to come, and false only when none is left; data is buffered only for an included file |
| `LogScanner.ScanAll` | lfs/gitscanner_log.go:184-197 | The pointers found are exactly those of the log's sections, in order and under the right names |
| `UrlConfig.SplitThenJoin` | config/url_config.go:188-190 | Splitting a host loses nothing |
| `UrlConfig.CompareHosts` | config/url_config.go:188-210 | The loop computes the host score |
| `UrlConfig.HostScore` | config/url_config.go:188-210 | The score is positive exactly when every label is equal or a wildcard |
| `UrlConfig.ComparePaths` | config/url_config.go:215-251 | The loop computes the path score |
| `UrlConfig.PathScore` | config/url_config.go:215-251 | The score is positive exactly when the configured path is a prefix, up to a `.git` before `info/lfs` |
| `UrlConfig.LongerPathCanLose` | config/url_config.go:215-251 | A URL for which a longer matching path scores less than a shorter one |
| `UrlConfig.RanksHigherIff` | config/url_config.go:141-160 | Which of two matching keys ranks higher, in closed form: fewer wildcards, then the heavier path, then a user name; a longer path with at most one element matched without `.git` wins |
| `UrlConfig.ChooseKey` | config/url_config.go:59-166 | For any order of the keys, the loop finds the first key with the greatest (host, path, user) score, or none if none matches |
| `UrlConfig.TieDependsOnTheOrder` | config/url_config.go:59-166 | Each key with the greatest score is the answer of some order |
| `UrlConfig.AnswerIsOneIff` | config/url_config.go:59-166 | All orders give the same answer exactly when no two keys share the greatest score |
| `UrlConfig.DefaultPortChangesNothing` | config/url_config.go:168-183 | Writing the default port out in a URL changes no answer |
| `SshProtocol.Connection.SendMessage` | ssh/protocol.go:78-90 | The packets of a message without lines are appended to the stream |
| `SshProtocol.Connection.SendMessageWithLines` | ssh/protocol.go:92-114 | The packets of a message with lines are appended to the stream |
| `SshProtocol.Connection.ReadStatusWithLines` | ssh/protocol.go:214-252 | The loop reads one message as the specification does and leaves the rest |
| `SshProtocol.SendThenRead` | ssh/protocol.go:92-252 | A message with lines is read back as sent, and what follows it is left alone |
| `SshProtocol.SendPlainThenRead` | ssh/protocol.go:78-252 | A message without lines is read back with no lines |
| `SshProtocol.ConversationIsReadBack` | ssh/protocol.go:92-252 | Any stream of messages is read back message by message |
| `SshProtocol.ReadIs` | ssh/protocol.go:214-252 | The reading loop in closed form: rejected exactly when no flush packet comes or the first packet is no status line; otherwise the arguments are the packets up to the first delimiter and the lines all after it |
| `SshProtocol.GroupsReadAsLines` | ssh/protocol.go:225-250 | A message with any number of delimiters is read as its groups of lines joined by empty lines, exactly as if those had been sent |
| `LockList.ParseEntries` | locking/ssh.go:88-128 | The line loop computes the lock map of the specification, errors included |
| `LockList.ParseCursor` | locking/ssh.go:80-87 | The argument loop computes the cursor, or the error for a second one |
| `LockList.Collect` | locking/ssh.go:129-136 | All, ours and theirs list exactly the matching locks, each once, whatever order the map is walked in; ours and theirs are disjoint parts of all |
| `LockList.ParseListLockResponse` | locking/ssh.go:77-141 | When the response is accepted, and what it then lists |
| `LockList.OneLockParses` | locking/ssh.go:88-124 | The lines of one printed lock add exactly that lock |
| `LockList.ListRoundTrip` | locking/ssh.go:77-141 | Printing any complete locks with distinct, space-free ids and parsing the lines gives the same locks, each in the list its owner line names |
| `LockCache.Cache.Add` | locking/cache.go:29-36 | The store with the lock under its path and its encoded id |
| `LockCache.Cache.RemoveByPath` | locking/cache.go:39-47 | The store without both keys of the lock found under the path |
| `LockCache.Cache.RemoveById` | locking/cache.go:50-59 | The store without both keys of the lock found under the id |
| `LockCache.Cache.Locks` | locking/cache.go:62-73 | Lists the lock under each path key, once for each key |
| `LockCache.EncodeIsInjective` | locking/cache.go:85-103 | Encoding keeps apart ids that do not look encoded |
| `LockCache.AddRepresentsIff` | locking/cache.go:29-36 | After adding a lock the store is the image of some lock set exactly when no live lock shares only one of path and id with it |
| `LockCache.RelockedPathBreaksTheCache` | locking/cache.go:29-36 | Locking one path under two ids leaves a store that represents no lock set |
| `LockCache.StoreIsTheLiveLocks` | locking/cache.go:29-79 | After any proper sequence of operations the store is exactly the path image and id image of the live locks |
| `LockCache.ListingIsTheLiveLocks` | locking/cache.go:62-73 | What is listed from such a store is each live lock, once |
| `LockSearch.TakeAll` | locking/locks.go:292-306 | The inner loops cache and keep locks up to the limit and report reaching it |
| `LockSearch.SearchLocksVerifiable` | locking/locks.go:245-323 | The paging loop returns and caches exactly what the specification collects |
| `LockSearch.SearchIsCut` | locking/locks.go:270-313 | A search without refusals returns all the server's locks cut at the limit, whatever pages they come in |
| `LockSearch.SearchFailsIff` | locking/locks.go:272-306 | A search fails exactly when a page is refused before the limit is reached |
| `LockSearch.CacheListsTheReturnedLocks` | locking/locks.go:270-306 | After a search the cache lists exactly the returned locks, ours and theirs together, each once |
| `LockSearch.SearchLocalLocks` | locking/locks.go:325-344 | The matching cached locks in order, cut at the limit |
| `Creds.CredentialHelpers.FillCredentials` | creds/creds.go:443-470 | The loop leaves the state and result of the specification |
| `Creds.CredentialHelpers.RejectCredentials` | creds/creds.go:474-486 | The loop leaves the state and result of the specification |
| `Creds.CredentialHelpers.ApproveCredentials` | creds/creds.go:493-514 | The loop leaves the state and result of the specification |
| `Creds.CredentialHelpers.UndoApproval` | creds/creds.go:502-508 | Every helper that took part before the failing one is told to reject |
| `CredsHistory.FailedHelperIsNeverCalledAgain` | creds/creds.go:434-514 | Over every sequence of requests a helper that failed in Fill is never called again |
| `CredsHistory.CacheHoldsTheFirstApproved` | creds/creds.go:371-406 | The cache has an entry for a key exactly when it was approved since its last rejection, namely the first credentials so approved |
| `CredsHistory.FailedApprovalLeavesAnEntryIff` | creds/creds.go:488-514 | An approval ends in an error and yet leaves an entry exactly when none was there and every helper in use besides the cache passes it on, or one was there and the first helper that does not pass it on stands before the cache and fails |
| `CredsHistory.UntakenApprovalIsServed` | creds/creds.go:488-514 | With the cache and one helper that passes, approving is reported as an error and the next fill finds the credentials |
| `CredsHistory.FillFromCache` | creds/creds.go:371-384 | A cached key is filled from the cache when no helper before it answers |
| `ShellQuote.Quote` | subprocess/subprocess.go:92-99 | The loop quotes each argument |
| `ShellQuote.QuoteSplits` | subprocess/subprocess.go:82-88 | A quoted argument is one shell word with the argument as its text |
| `ShellQuote.ShellSeesTheArguments` | subprocess/subprocess.go:79-114 | The shell splits the quoted, space-joined arguments into exactly the original list and expands nothing |
| `ShellQuote.ShellSeesTheCommand` | subprocess/subprocess.go:105-114 | After any command text that splits into words the shell sees those words followed by exactly the arguments |

## Left out

- Transfer queue, batching and retries (tq/transfer_queue.go): an environment that reports finished transfers; in pull and in the delay protocol it may finish, fail and report in any order.
- ExtensionPipe.RunCommands: takes the pipe between the commands as the composition of functions; how three or more processes are connected by operating system pipes (lfs/extension.go:84-153) is not modelled.
- ExtensionPipe.PipeExtensions: the same.
- Filters.CleanContent: the %f placeholder and the splitting of command lines are part of the unknown command function; I/O errors of temporary files are not modelled.
- Filters.SmudgePointer: copying from a reference repository and the progress callbacks are not modelled.
- FilterProcess.Process.Smudge: failures to read the request or to write the reply are not modelled, nor are clean requests, whose effect is that of Filters.CleanContent.
- PullSafety.PullChecksOutOnce: an object is local or not, so pointers with equal OIDs have equal sizes; a notification follows the object's arrival, and local objects are not removed meanwhile.
- LogScanner.Scanner.Scan: the regular expressions that class lines are not modelled; a log is a sequence of classed lines.
- UrlConfig.ChooseKey: URL parsing and the regular expression for keys are not modelled; a key comes with its parsed URL, if any.
- SshProtocol.Connection.ReadStatusWithLines: the byte format of packets and their size limit are not modelled; a stream is a sequence of packets.
- LockList.ParseListLockResponse: time parsing is a parameter.
- LockSearch.SearchLocksVerifiable: the cache file and the different error kinds are not modelled; every refused page is one error.
- Creds.CredentialHelpers.FillCredentials: the helpers other than the cache are parameters, and the texts of errors are not modelled.
- WorkerPoolSafety.NoRunPanics: a WaitGroup that is reused while waiters wake up may panic in Go; that is not modelled. Workers that fail to start are not modelled.
- Download.Transfer: HTTP authentication retries and redirects are inside the unknown server; a failed seek counts as a failed truncation; byte counts and progress are not modelled.
- ObjectStore.CheckoutsAreVouchedIff: transfers bring only content that hashes to the requested OID, which Download.StoreHoldsOnlyTheOid shows of the download.
- Prune: how the scanners find objects, and which refs are recent, is left to the environment; totals and log output are not modelled.
- Storage of the ordered set, progress meters, translations, certificates, proxies, cookies, hooks and command-line handling would only add easy members or I/O.
