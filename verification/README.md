# Ratash core protocols in Dafny

This project models the stateful core of Ratash, a supervisor for a Mihomo proxy core, and
proves what its protocols keep over every run. Code that works by changing state is modelled
by classes and loops, each proved against a specification; what the system is for is then
proved about the specification.

| module | models |
|---|---|
| `ServiceProtocol`, `Service` | the privileged Core service: owner sessions, apply, stop, restart policy, cancellation |
| `Generations` | durable owner and Core generations shared by service instances |
| `CancellationEpochs` | cancellation across service, process controller and HTTP adapter |
| `ConfigSchema`, `ConfigValidity`, `ConfigStrip`, `ConfigCompile`, `ConfigPreservation`, `ConfigAgreement`, `ConfigPrivileged`, `ConfigBundled`, `ConfigLoops` | the configuration compiler and the privileged checker |
| `LogPipeline`, `LogReading`, `LogNumbering`, `Utf8`, `LineSplitter` | a log line's path from the Core's output to a paged reader |
| `ChunkedBody`, `ChunkedLines`, `ChunkedEncoding` | the chunked HTTP body reader (section 7.1 of RFC 9112) |
| `ProbeScheduler`, `ProbeFairness`, `ProbeLastInstant` | the delay-probe scheduler |
| `StoreProtocol`, `Store` | the crash-safe transaction store and its pruning |
| `StatusStream`, `LogStream` | the bounded stream subscribers |
| `RuleText`, `Rule`, `RuleRoundTrip` | the rule grammar |
| `CancellationProtocol`, `CancellationTokens` | the cancellation token |
| `Common`, `Strings` | shared definitions |

How the world is modelled:

- A platform call is a nondeterministic outcome: it may fail anywhere, and other threads and
  dying processes may move between any two steps. A class constant `reliable` says that
  nothing fails and nothing else moves; contracts use it to say when an operation succeeds.
- A run is a sequence of atomic steps. The service, the store and the cancellation token keep
  a ghost history of their steps, so a theorem about every run applies to every object; the
  other classes are proved equal to the functions the run theorems are about.
- Digests are injective on stored content; YAML and JSON printing and parsing are inverse.
- Sets and maps are visited in any order, which covers the order the code uses.
- A supervisor process that has exited never runs again, and one that has not is taken to run:
  the state holds those that are gone.
- A section under a lock is one step where nothing outside the lock can interfere with it,
  and several where something can.

Some promises hold only under a condition. Each condition is proved exact and has an example:

- The checker accepts a compiled configuration if and only if the slash form of each local
  provider path is a listed file (`CompilerAndCheckerAgree`). A file name with a backslash
  breaks this under the shipped policy (`BackslashFileIsRefused`).
- Every log line that is numbered gets its own number if and only if each drain takes only lines
  that came after the last line over 4 MiB (`NumbersFollowLinesExactly`,
  `OversizedLineShiftsNumbers`). It suffices that such lines arrive on an empty queue
  (`OversizedOnEmptySuffices`); that is not necessary (`EvictionRestoresNumbers`).
- A paged read with something newer moves its cursor if and only if the first newer record fits
  a page of 512 KiB (`ReadProgresses`, `LongLineStalls`).
- A regex rule with a comma in its payload survives printing only if its target is not a
  parameter word (`RoundTrip`, `WordTargetIsMisread`).
- A due probe is overtaken at most once by each node if and only if its deadline is before the
  largest instant, or there are at most 16 active nodes, or no active id is smaller
  (`OvertakingBoundIsExact`, `LastInstantCanOvertakeTwice`).
- A chunk size line is accepted under every fragmentation of the reads if and only if it has at
  most 126 bytes (`AcceptedLinesAreExact`, `LongLineDependsOnReads`).

## Model

| member | source | states |
|---|---|---|
| `ServiceProtocol.InvariantStep` | src/service.rs:657-932 | every step of the service, under arbitrary platform failures, keeps the invariant: a Core implies an owner, Active implies the bundle's generation, no pending restart and not degraded, a pending restart implies a bundle and no Active Core, and every live process is the recorded or the uncommitted one |
| `ServiceProtocol.InvariantOverRuns` | src/service.rs:248-305 | that invariant holds in every state of every run |
| `ServiceProtocol.AtMostOneCore` | src/service.rs:852-932 | over every run at most one Core process is alive, and a Core is started only when none is recorded and none is alive |
| `ServiceProtocol.CancelledIsRemembered` | src/service.rs:1423-1448 | a returned cancellation is never forgotten later in the run |
| `ServiceProtocol.CancelledApplyNeverCommits` | src/service.rs:503-573 | once a cancellation for a proof has returned, no apply for that proof commits in the rest of the run |
| `ServiceProtocol.BackoffIsCappedDoubling` | src/service.rs:1016-1023 | the delay after failure k is min(2^k, 30) seconds for every k, through the u32 conversions and checked arithmetic |
| `ServiceProtocol.RestartBudget` | src/service.rs:725-788 | after an unexpected exit, while attempts fail in the ordinary way, attempts and failures are counted exactly and the service degrades after exactly the limit |
| `ServiceProtocol.DelayAfterFailure` | src/service.rs:780-787 | the next attempt is due min(2^k, 30) seconds after failure k |
| `ServiceProtocol.DegradedStaysQuiet` | src/service.rs:348-435 | a service that has degraded makes no restart attempt and starts no Core of its own accord until an apply commits or the owner changes, also across a stop |
| `ServiceProtocol.LivingOwnerIsKept` | src/service.rs:1143-1174 | over every run, an owner whose supervisor lives keeps its session until it closes it or the service is shut down: neither another supervisor nor maintenance takes it |
| `Service.PrivilegedCoreRuntimeService.OpenOwnerSession` | src/service.rs:1113-1228 | its own session is given back unchanged to the supervisor that has it; while another owner's supervisor lives the request is refused and nothing changes; otherwise a session is opened afresh with no Core alive, a larger generation and cleared cancellation; a wrong version or an incomplete identity changes nothing; on a reliable platform exactly a living other owner blocks, while generations are left |
| `Service.PrivilegedCoreRuntimeService.OpenFresh` | src/service.rs:1175-1228 | the new session's state, or no owner; on a reliable platform it is opened while generations are left |
| `Service.PrivilegedCoreRuntimeService.PrepareApply` | src/service.rs:1235-1252 | before a start the old Core is gone, or nothing that matters has changed |
| `Service.PrivilegedCoreRuntimeService.RetireActive` | src/service.rs:1247-1252 | the Active Core is demoted while its process is alive, so before it is stopped, and never comes back as Active |
| `Service.PrivilegedCoreRuntimeService.ApplyCandidate` | src/service.rs:1230-1270 | a successful apply ends with a commit of exactly this candidate by this proof; a failed one leaves owner, bundle and restart state as they were; a wrong proof changes nothing; on a reliable platform an uncancelled apply over a live or absent Core succeeds |
| `Service.PrivilegedCoreRuntimeService.SpawnVerified` | src/service.rs:852-932 | a start is confirmed and uncommitted, or undone, or left for cleanup; never Active |
| `Service.PrivilegedCoreRuntimeService.FailAfterUncommittedSpawn` | src/service.rs:709-723 | a started process that cannot be stopped is recorded for cleanup, never lost |
| `Service.PrivilegedCoreRuntimeService.StopOwnedRecord` | src/service.rs:676-698 | success means the recorded process is not alive |
| `Service.PrivilegedCoreRuntimeService.CleanupPendingCore` | src/service.rs:700-707 | success leaves no Core pending cleanup |
| `Service.PrivilegedCoreRuntimeService.CleanupOwner` | src/service.rs:657-674 | for a close, a supervisor that is gone or a shutdown: success leaves no owner, Core or live process and a set cancellation flag; failure keeps them |
| `Service.PrivilegedCoreRuntimeService.EnsureApplyActive` | src/service.rs:545-573 | success means the owner's cancellation flag was down at that step |
| `Service.PrivilegedCoreRuntimeService.CancelPendingApply` | src/service.rs:1423-1448 | success records the cancellation of the authenticated owner's proof |
| `Service.PrivilegedCoreRuntimeService.ReserveGeneration` | src/service.rs:575-616 | an issued generation exceeds every counter this instance knew |
| `Service.PrivilegedCoreRuntimeService.Stop` | src/service.rs:1392-1415 | what a stop returns and leaves, in its outcomes; a wrong proof or no Core changes nothing; on a reliable platform it fails only if the Active process is gone |
| `Service.PrivilegedCoreRuntimeService.CloseOwnerSession` | src/service.rs:1417-1421 | a closed session leaves no owner and no process; a wrong proof changes nothing |
| `Service.PrivilegedCoreRuntimeService.ShutdownService` | src/service.rs:437-440 | success leaves no owner, Core, process or cancellation; on a reliable platform it succeeds |
| `Service.PrivilegedCoreRuntimeService.ForgetExitedCore` | src/service.rs:488-491 | an observed exit clears the Core and schedules the first restart |
| `Service.PrivilegedCoreRuntimeService.HandleUnexpectedExit` | src/service.rs:450-492 | only the exact Active process, and only once dead, is reported as exited, with the error of each refusal (also without a Core); on a reliable platform exactly then |
| `Service.PrivilegedCoreRuntimeService.AttemptOwnedCoreRestart` | src/service.rs:725-788 | each of the four results of an attempt with the state it leaves; an attempt begun after a cancellation never restarts the Core; on a reliable platform an uncancelled one does |
| `Service.PrivilegedCoreRuntimeService.RecordFailure` | src/service.rs:768-787 | an ordinary failure degrades the service at the limit and otherwise schedules the next attempt |
| `Service.PrivilegedCoreRuntimeService.MaintenanceStep` | src/service.rs:348-435 | a step with something due revokes the owner if and only if its supervisor has exited, and otherwise the owner, its bundle and its running Core stay, also when the step fails; every successful step asks to be called again strictly after now; an exited Core is reported once liveness is due; on a reliable platform a step always succeeds, and a due restart that is not cancelled restarts the Core |
| `Service.PrivilegedCoreRuntimeService.RevokeDeadOwner` | src/service.rs:368-387 | the owner is cleared with its Core if and only if its supervisor has exited; a living one changes nothing; on a reliable platform it always succeeds |
| `Service.PrivilegedCoreRuntimeService.MaintainOwned` | src/service.rs:389-434 | the rest of a step keeps the owner, its bundle and its running Core; on a reliable platform it succeeds, and restarts a Core whose restart is due and not cancelled |
| `Service.PrivilegedCoreRuntimeService.MaintainRestart` | src/service.rs:402-408 | a due restart is attempted once and reported; on a reliable platform without error |
| `Service.PrivilegedCoreRuntimeService.MaintainLiveness` | src/service.rs:410-434 | when liveness is due an exited Core is forgotten, its restart scheduled and reported; on a reliable platform the step never fails |
| `Generations.SafeStep` | src/service/generation_state.rs:631-724 | issued generations are durable before they are returned, for every outcome of rename and sync |
| `Generations.IssuedGenerationsIncrease` | src/service.rs:575-634 | over every interleaving of instances, crashes, power losses and persist failures, issued owner and Core generations strictly increase |
| `Generations.IssuedIsNeverReissued` | src/service.rs:575-634 | what was issued stays issued, and later ones come after it |
| `CancellationEpochs.ApplyCancellation.Reset` | src/process_controller.rs:1003-1021 | a reset moves the controller's epoch only forward |
| `CancellationEpochs.ApplyCancellation.Cancel` | src/process_controller.rs:1023-1039 | only the current owner's cancellation raises the flag |
| `CancellationEpochs.ActiveOperations.Register` | src/mihomo.rs:99-124 | an operation is refused once its owner is cancelled |
| `CancellationEpochs.ActiveOperations.CancelFor` | src/mihomo.rs:130-155 | cancellation of the current owner closes every registered socket |
| `CancellationEpochs.ActiveOperations.ResetFor` | src/mihomo.rs:164-177 | a reset for an older owner changes nothing |
| `CancellationEpochs.GoodOverRuns` | src/service.rs:503-543 | in every interleaving the three cancellation domains stay ordered |
| `CancellationEpochs.ReturnedCancellationReachesEveryDomain` | src/service.rs:1423-1448 | once a cancellation has returned, and while its generation owns the service, all three domains are cancelled and no operation is left |
| `CancellationEpochs.CancellationShutsOperations` | src/mihomo.rs:99-155 | once a cancellation of the current owner has returned, every operation ever registered has been shut; an operation is shut only by a cancellation for the adapter's owner or by registering after one |
| `CancellationEpochs.GenerationsMoveForward` | src/process_controller.rs:1003-1021 | controller and adapter generations never go back |
| `CancellationEpochs.OlderGenerationsAreInert` | src/mihomo.rs:134-177 | a late cancellation or reset of an older generation changes neither controller nor adapter |
| `CancellationEpochs.EarlyCancellationIsLostAtTheAdapter` | src/service.rs:1209-1228 | why a session is returned only after both resets: a cancellation between them would be lost |
| `ConfigStrip.StripNodeKeepsValid` | src/config.rs:1063-1109 | stripping keeps a valid node valid under a well-formed schema |
| `ConfigStrip.StripMappingKeepsValid` | src/config.rs:1053-1061 | the same for the document mapping |
| `ConfigStrip.StripNodePassesAbsent` | src/config.rs:1133-1195 | a stripped node passes the managed-absent check |
| `ConfigStrip.StripMappingPassesAbsent` | src/config.rs:1111-1131 | a stripped document passes the managed-absent check |
| `ConfigStrip.StripNodeIdempotent` | src/config.rs:1063-1109 | stripping a node again changes nothing |
| `ConfigStrip.StripMappingIdempotent` | src/config.rs:1053-1061 | stripping a mapping again changes nothing |
| `ConfigStrip.StripRemovesExactlyManagedPaths` | src/config.rs:1053-1109 | a path survives stripping, with the same value or kind, if and only if it crosses no managed field; unknown keys are untouched |
| `ConfigStrip.AbsentIffNoDropReached` | src/config.rs:1111-1195 | the managed-absent check accepts a valid document if and only if no path crosses a managed-drop field at any depth |
| `ConfigValidity.ValidExactly` | src/config.rs:923-1051 | a document is valid if and only if every node the policy governs has the kind, the required fields, the variant and the field names its schema asks for: each refusal is of one node for one of these reasons |
| `ConfigAgreement.CompiledAgrees` | src/config.rs:395-471 | for any overrides a policy supports: compilation does not panic, and its result is valid, free of dropped fields and carries every override |
| `ConfigPreservation.CompiledByPath` | src/config.rs:395-471 | for every compiled document and every path: inside a dictated value it has that value; any other path, except dns itself and the path entry of a provider, is in the output if and only if it is in the user's document and crosses no managed field, with the same scalar or kind of container; so no setting is lost and no key appears |
| `ConfigPreservation.UserFieldsSurvive` | src/config.rs:406-438 | a top-level field that is none of the nine written ones, dns or a provider section survives whole, and no other appears |
| `ConfigPreservation.CompiledRules` | src/config.rs:410-413 | the compiled rules are the given rules, one by one |
| `ConfigPreservation.CompiledProvidersMatch` | src/config.rs:440-459 | the provider records are exactly those of the remote and local providers of the compiled document, with their names, URLs and paths |
| `ConfigPreservation.ClassifiedByKind` | src/config.rs:1252-1312 | a remote provider compiles if and only if its URL is an HTTP URL and is recorded with name and URL; a local one is a regular file below the root, recorded at its place there; an inline one has no path and no record |
| `ConfigPreservation.RemoteProvidersDoNotCollide` | src/config.rs:1351-1362 | no two remote providers share a file, unless the hash collides or a name holds a NUL |
| `ConfigPrivileged.PrivilegedExactly` | src/config.rs:555-598 | for every document: the privileged check accepts if and only if the endpoint is valid, the document is valid, no path of it reaches a dropped field at any depth, every dictated value is at its place, and every provider path is normal, and listed for a local provider |
| `ConfigPrivileged.AllPlacedExactly` | src/config.rs:1197-1240 | the path check of one section, provider by provider |
| `ConfigAgreement.CompilerAndCheckerAgree` | src/config.rs:555-598 | a compiled configuration is accepted by the privileged check if and only if the slash form of every local provider path is a listed file |
| `ConfigAgreement.BackslashFreeConfigurationsPass` | src/config.rs:1197-1240 | with the manifest's own file list, configurations without backslashes in local paths always pass |
| `ConfigAgreement.BaselineCarriesAuthority` | src/config.rs:1420-1499 | what the compiler dictates is what the checker requires |
| `ConfigBundled.BundledIsCompilerPolicy` | fixtures/mihomo/v1.19.28/config-policy.yaml:1-129 | the shipped policy is well formed and supports everything the compiler dictates |
| `ConfigBundled.UnlistedSlashFormIsRefused` | src/config.rs:1547-1549 | a local path whose slash form is not listed makes the checker refuse what the compiler accepted |
| `ConfigBundled.BackslashFileIsRefused` | src/config.rs:1242-1349 | a concrete refusal under the shipped policy and a faithful host: one provider, stored in a file whose name holds a backslash, compiles and is then refused |
| `ConfigLoops.StripManagedMapping` | src/config.rs:1053-1061 | the in-place loop computes the stripped mapping, in any key order |
| `ConfigLoops.StripManagedNode` | src/config.rs:1063-1109 | the in-place recursion computes the stripped node |
| `ConfigLoops.ClassifyEntries` | src/config.rs:1252-1312 | for every order the loop succeeds exactly when every provider classifies, with the same rewriting and records; otherwise it reports the first failing provider in that order |
| `ConfigLoops.ClassifyProviderSection` | src/config.rs:1242-1312 | one section, with the first failing provider in document order as its error |
| `ConfigLoops.FinishConfiguration` | src/config.rs:440-461 | both sections and the final validation succeed on the same inputs as specified |
| `ConfigLoops.CompileConfiguration` | src/config.rs:395-471 | the whole compilation succeeds on the same inputs as its specification, with the same result; under a policy the compiler supports it equals the specification, errors included |
| `LogPipeline.PushFacts` | src/process_controller.rs:210-239 | a push keeps the newest lines in order, within count and bytes, and counts each line it gives up |
| `LogPipeline.PushKeepsWhatFits` | src/process_controller.rs:224-232 | a push evicts no more than it must: one more of the old lines would not fit |
| `LogPipeline.PushWithRoom` | src/process_controller.rs:210-239 | with room for the line nothing is evicted or counted as dropped |
| `LogPipeline.TakenFacts` | src/process_controller.rs:241-267 | a batch takes the newest lines, as many as there are up to the limit, reports every other one as lost and leaves the queue empty; a limit of zero changes nothing |
| `LogPipeline.LogQueue.BeginGeneration` | src/process_controller.rs:197-202 | a new generation starts empty |
| `LogPipeline.LogQueue.FinishGeneration` | src/process_controller.rs:204-208 | only the current generation is closed |
| `LogPipeline.LogQueue.PushLine` | src/process_controller.rs:210-239 | the eviction loop does what `Push` says |
| `LogPipeline.LogQueue.Take` | src/process_controller.rs:241-267 | taking returns the newest lines that fit and reports the rest as dropped |
| `LogPipeline.AdmitFacts` | src/service.rs:934-983 | a forwarded line gets the next sequence number; the ring stays within its record and byte bounds with an exact byte count |
| `LogPipeline.AdmitKeepsWhatFits` | src/service.rs:956-981 | the ring evicts no more than it must: one more of the old records would not fit |
| `LogPipeline.AdmitAllFacts` | src/service.rs:934-983 | a batch takes consecutive numbers |
| `LogPipeline.AdmitAllCarries` | src/service.rs:934-983 | each number carries its line, cut to the line limit |
| `LogPipeline.ForwardedLogs.AdmitLine` | src/service.rs:956-981 | the eviction loop of the ring does what `Admit` says |
| `LogPipeline.ForwardedLogs.DrainBatch` | src/service.rs:934-983 | a drained batch, losses first, does what `Drain` says |
| `LogReading.ReadLogs` | src/service.rs:1334-1390 | the paging loop returns the specified page, cursor and loss count |
| `LogReading.CollectPage` | src/service.rs:1346-1361 | the loop collects the newer records up to the count and byte budget |
| `LogReading.PageIsContiguous` | src/service.rs:1346-1361 | a page is a stretch of the ring starting at the first newer record |
| `LogReading.PageIsFull` | src/service.rs:1346-1361 | a page is within its count and byte limits, and ends only at the end of the ring, at the count, or before a record that does not fit |
| `LogReading.ReadAccounts` | src/service.rs:1334-1390 | every number between the old and new cursor is delivered or reported lost, nothing still held is reported lost |
| `LogReading.ReadProgresses` | src/service.rs:1334-1390 | with something newer and room for a record, the cursor moves if and only if the first newer record fits a page |
| `LogReading.LongLineStalls` | src/service.rs:1351-1358 | a line longer than a page, which a service with a larger line limit forwards, stalls its reader for any number of reads |
| `LogReading.EveryLineIsAccountedFor` | src/service.rs:934-983 | over every interleaving of lines, drains, draining reads and reads without a drain (any number of reads): delivered numbers strictly increase, and delivered plus lost equals the cursor |
| `LogReading.OversizedStep` | src/process_controller.rs:220-223 | a line over the queue's byte bound leaves what is queued the tail of the lines exactly when nothing was queued |
| `LogReading.NothingIsOutOfPlaceExactly` | src/service.rs:934-983 | throughout a run what is queued is the tail of the lines and number s carries line s if and only if every oversized line arrives on an empty queue |
| `LogNumbering.DrainIsExact` | src/service.rs:934-983 | a drain gives every line its own number if and only if it takes only lines that came after the last oversized one |
| `LogNumbering.NumbersFollowLinesExactly` | src/service.rs:934-983 | over a run every numbered line gets its own number if and only if every drain takes only lines that came after the last oversized one, and then number s carries line s throughout |
| `LogNumbering.OversizedOnEmptySuffices` | src/process_controller.rs:210-239 | for this it suffices that every oversized line arrives on an empty queue |
| `LogNumbering.EvictionRestoresNumbers` | src/process_controller.rs:224-232 | that is not necessary: an eviction before the drain gives the next line its own number all the same |
| `LogReading.ExhaustedReadAccountsForAllLines` | src/service.rs:1334-1390 | a draining read that leaves nothing newer has accounted for every line written |
| `LogReading.OversizedLineShiftsNumbers` | src/process_controller.rs:220-223 | the witness: an oversized line behind a queued one makes the first line number 2 |
| `Utf8.Truncate` | src/service.rs:1467-1477 | the longest prefix within the bound that ends between characters |
| `Utf8.BackUp` | src/service.rs:1467-1477 | the loop finds that boundary |
| `LineSplitter.Bound` | src/process_controller.rs:1233-1247 | a message is within the byte bound, unchanged or cut at the last boundary that leaves room for the marker, and marked |
| `LineSplitter.FeedChunk` | src/process_controller.rs:1169-1195 | one read of any size advances the splitter exactly by its bytes |
| `LineSplitter.CollectLogStream` | src/process_controller.rs:1153-1208 | for every fragmentation, exactly one record per physical line, equal to the whole-input specification |
| `LineSplitter.PublishedIsRecord` | src/process_controller.rs:1210-1231 | final CR removed, and truncation marked if and only if the content exceeds the bound |
| `LineSplitter.LinesRebuildTheStream` | src/process_controller.rs:1153-1208 | the specified lines, joined by newlines, are the stream |
| `ChunkedBody.DecodeIgnoresWhatFollows` | src/mihomo.rs:967-1032 | a decoding does not depend on bytes after its end |
| `ChunkedBody.ReadMore` | src/mihomo.rs:1050-1072 | a read appends what arrived, within the wire limit |
| `ChunkedBody.EnsureBytes` | src/mihomo.rs:1034-1048 | enough bytes are buffered, or the call fails |
| `ChunkedBody.ReadLine` | src/mihomo.rs:981-989 | the next size line is found as in the whole stream |
| `ChunkedLines.AcceptedLinesAreExact` | src/mihomo.rs:981-989 | a size line is accepted under every fragmentation if and only if it has at most 126 bytes |
| `ChunkedLines.LongLineDependsOnReads` | src/mihomo.rs:981-989 | a longer line is refused by one fragmentation and accepted when buffered whole |
| `ChunkedBody.ReadFrame` | src/mihomo.rs:981-1027 | the next chunk, size line and data, is buffered exactly as it stands in the stream, or is too large, too long or missing |
| `ChunkedBody.ReadChunk` | src/mihomo.rs:980-1031 | one chunk advances body and cursor as the decoding does |
| `ChunkedBody.ReadChunkedBody` | src/mihomo.rs:967-1032 | for every fragmentation a returned body is the decoding and within its limit; what decodes within the limits is returned unless a read fails |
| `ChunkedEncoding.EncodingDecodes` | src/mihomo.rs:967-1032 | decoding an encoding (RFC 9112 section 7.1) returns the body and consumes exactly the encoding |
| `ChunkedEncoding.DecodedIsAnEncoding` | src/mihomo.rs:967-1032 | the converse: nothing but encodings decode; what was consumed is the body in some chunks, each with a line that states its size |
| `ChunkedEncoding.ReadSizeRefusesLf` | src/mihomo.rs:990-996 | the hexadecimal reading of a size line meets the condition of that converse |
| `ChunkedEncoding.ProperPrefixDoesNotDecode` | src/mihomo.rs:967-1032 | no proper prefix of a complete encoding decodes |
| `ChunkedEncoding.SizeRoundTrip` | src/mihomo.rs:990-996 | a hexadecimal size with any printable extension is read back |
| `ChunkedEncoding.EveryBodyIsReadBack` | src/mihomo.rs:967-1032 | every body in every split is returned exactly within the limits |
| `ChunkedEncoding.OneChunkFitsTheWire` | src/mihomo.rs:974-979 | a body within the limit, sent as one chunk, is within the limit on the wire for every header limit |
| `ProbeScheduler.DispatchIsDetermined` | src/scheduler.rs:390-423 | the dispatch rule, the least due entries that fit in order, determines the result |
| `ProbeScheduler.DispatchedIsConsistent` | src/scheduler.rs:390-423 | moving an entry in flight keeps queue, index and table consistent |
| `ProbeScheduler.RescheduledIsConsistent` | src/scheduler.rs:425-455 | so does putting it back |
| `ProbeScheduler.Scheduler.Reset` | src/scheduler.rs:327-369 | a new generation queues exactly the distinct nodes; an older generation or too many nodes change nothing, the last generation included |
| `ProbeScheduler.Scheduler.TakeDue` | src/scheduler.rs:390-423 | returns exactly the least due entries that fit the free workers, and moves only them; the tasks take the next attempt ids, all different |
| `ProbeScheduler.Scheduler.TakeWhileDue` | src/scheduler.rs:397-421 | the loop, for an active generation |
| `ProbeScheduler.IdsDiffer` | src/scheduler.rs:551-556 | two attempt ids differ unless a whole cycle of ids lies between |
| `ProbeScheduler.Scheduler.Complete` | src/scheduler.rs:425-455 | a current completion reschedules its node; late and unknown ones change nothing |
| `ProbeScheduler.Scheduler.Deactivate` | src/scheduler.rs:371-379 | nothing is active afterwards |
| `ProbeScheduler.Scheduler.TakeAttemptId` | src/scheduler.rs:551-556 | attempt ids are nonzero and the next one differs |
| `ProbeFairness.TakeDueIsStep` | src/scheduler.rs:390-423 | the class's dispatch is a step of the fairness model |
| `ProbeFairness.CompleteIsStep` | src/scheduler.rs:425-455 | so is a rescheduling completion |
| `ProbeFairness.CallsAreSchedulerSteps` | src/scheduler.rs:390-398 | with the room that the workers in flight leave, as the scheduler computes it |
| `ProbeFairness.OvertakenAtMostOnce` | src/scheduler.rs:513-521 | after a queued node is due, every other node is dispatched at most once before it, except smaller ids at the largest instant |
| `ProbeFairness.EveryOpportunityIsUsed` | src/scheduler.rs:390-423 | while a node is due, every call with room dispatches something |
| `ProbeFairness.DueNodeIsNotStarved` | src/scheduler.rs:390-455 | a due node waits for fewer calls with a free worker than there are active nodes |
| `ProbeFairness.NobodyPasses` | src/scheduler.rs:390-423 | with no more active nodes than workers no due node is ever passed, at any instant |
| `ProbeLastInstant.ReachPacked` | src/scheduler.rs:327-455 | from a reset any fifteen nodes can come to be in flight with all others queued for the largest instant |
| `ProbeLastInstant.LastInstantCanOvertakeTwice` | src/scheduler.rs:513-521 | with more nodes than workers, a run of the scheduler from a reset in which a node due at the largest instant is passed twice by the least id |
| `ProbeLastInstant.OvertakingBoundIsExact` | src/scheduler.rs:390-455 | over all runs of the scheduler the bound holds if and only if the node is due before the largest instant, or there are no more nodes than workers, or no active id is smaller |
| `StoreProtocol.SafeStep` | src/persistence.rs:222-332 | each atomic file operation keeps every named transaction complete |
| `StoreProtocol.SafeOverRuns` | src/persistence.rs:222-332 | at every point of every run, so after a crash anywhere, manifest and journal name only complete transactions |
| `StoreProtocol.CompleteOverRuns` | src/persistence.rs:222-332 | the same on the files: at every point of every run each of the four transactions that manifest and journal can name is there with its four objects |
| `StoreProtocol.ReferencesAreMentions` | src/persistence.rs:455-487 | the references of a document are the objects it mentions at some path |
| `StoreProtocol.NeededIsRetained` | src/persistence.rs:382-426 | the retained objects are those that a transaction named by the manifest or the journal needs |
| `StoreProtocol.ManifestFollowsTheJournal` | src/persistence.rs:248-281 | the committed transaction changes only from the journal's previous to its candidate, a journal appears only for a present candidate over the committed transaction, and no operation takes an object that a named transaction needs |
| `Store.CollectReferences` | src/persistence.rs:455-487 | the work-stack loop finds exactly the references of a document, or stops over the limit or on a malformed one |
| `Store.ScanDirectory` | src/persistence.rs:489-523 | only unretained files become candidates; all of them unless more is reported; nothing found with more means the scan limit was used up |
| `Store.PersistenceStore.PutObject` | src/persistence.rs:195-199 | success means the object reads back; nothing else changes; fails only if a file operation does |
| `Store.PersistenceStore.Prepare` | src/persistence.rs:222-239 | a journal already present or a missing object refuses and changes nothing; success journals an intact candidate against the current transaction; fails otherwise only if a file operation does |
| `Store.PersistenceStore.CommitPrepared` | src/persistence.rs:248-269 | without file errors, commits if and only if the transaction is the journalled one and not stale; never anything else |
| `Store.PersistenceStore.ClearPrepared` | src/persistence.rs:271-281 | without file errors, removes the journal if and only if it matches |
| `Store.PersistenceStore.RetainedContent` | src/persistence.rs:382-426 | the retained set is exactly the objects that the transactions named by manifest and journal need |
| `Store.PersistenceStore.RemoveObjects` | src/persistence.rs:309-324 | removes the candidates, or on failure some of them and nothing else |
| `Store.PersistenceStore.RemoveTransactions` | src/persistence.rs:309-324 | the same for transactions |
| `Store.PersistenceStore.FindUnreachable` | src/persistence.rs:289-308 | with fewer than 4096 entries that must stay, something is found whenever there is more |
| `Store.PersistenceStore.PruneUnreachable` | src/persistence.rs:289-332 | every needed file stays, also when it fails half-way; without more work only needed files are left; with more work at least one file went; counts are exact, manifest and journal untouched |
| `Store.PersistenceStore.PruneOnce` | src/persistence.rs:289-332 | one pass, in terms of the retained sets |
| `Store.PersistenceStore.PruneLoop` | src/persistence.rs:289-332 | the repetition, in terms of the retained sets |
| `Store.PersistenceStore.RemovePlanned` | src/persistence.rs:309-331 | removes exactly the plan, or on failure part of it |
| `Store.PersistenceStore.PruneRepeatedly` | src/persistence.rs:289-332 | calling again while more is reported ends, by the file count, with the store complete and exactly the needed files left, given fewer than 4096 entries that must stay |
| `StatusStream.GoodStep` | src/ipc.rs:798-875 | publish, resync and pop keep the replay invariant |
| `StatusStream.ReplayEqualsPublisher` | src/ipc.rs:766-875 | over every run the replayed state is the publisher's at that number, an event always follows its predecessor, and a drained client is at the publisher's head |
| `StatusStream.ResyncExactly` | src/ipc.rs:798-823 | over every run without a resync, one comes to be required if and only if some event was out of order or found the queue full; until then each event is queued |
| `StatusStream.StatusSubscriber.New` | src/ipc.rs:775-796 | zero capacity is refused; otherwise the snapshot is queued |
| `StatusStream.StatusSubscriber.Publish` | src/ipc.rs:798-823 | the new subscriber and the returned status, in all four cases |
| `StatusStream.StatusSubscriber.Resync` | src/ipc.rs:825-834 | a resync starts over from a snapshot |
| `StatusStream.StatusSubscriber.PopFront` | src/ipc.rs:836-838 | the front item leaves |
| `LogStream.GoodStep` | src/ipc.rs:991-1087 | every operation keeps the delivery invariant |
| `LogStream.DeliveryIsGapFree` | src/ipc.rs:964-1087 | over every run: unless a gap is announced the queue holds exactly what was published and not delivered, numbers are consecutive, a marker names the last delivered and the largest heard number, counters are exact and bounded |
| `LogStream.GapExactly` | src/ipc.rs:991-1019 | over every run of publishing and popping, a gap is opened if and only if some record was out of order or found no room; until then each record is queued |
| `LogStream.PoppedLineIsSuccessor` | src/ipc.rs:1021-1028 | a popped record follows the last delivered one |
| `LogStream.LogSubscriber.New` | src/ipc.rs:976-989 | zero capacity is refused |
| `LogStream.LogSubscriber.Publish` | src/ipc.rs:991-1019 | the new subscriber and the returned status |
| `LogStream.LogSubscriber.PopFront` | src/ipc.rs:1021-1028 | the front item leaves and is accounted for |
| `LogStream.LogSubscriber.MarkTailSent` | src/ipc.rs:1030-1036 | a sent tail starts over after it |
| `LogStream.LogSubscriber.MarkGap` | src/ipc.rs:1038-1044 | a gap is opened, or its marker raised |
| `RuleText.EndDependsOnPrefix` | src/rule.rs:329-370 | a logical payload has one end, which depends only on the balanced prefix |
| `RuleText.LogicalPayloadEnd` | src/rule.rs:329-370 | the single pass finds the end of the balanced group, or that there is none |
| `RuleText.TrimExactly` | src/rule.rs:200-254 | trimming takes white space off both ends, all of it, and nothing else |
| `Rule.ParseRegexRule` | src/rule.rs:218-254 | the right-to-left loop splits payload, target and parameters as specified on the fields |
| `Rule.TakeParameters` | src/rule.rs:223-233 | the loop takes every trailing parameter word and no more |
| `Rule.ParseLogicalRule` | src/rule.rs:301-327 | a balanced payload, a target and parameters, or the three errors |
| `Rule.ParseRule` | src/rule.rs:200-216 | all four shapes by rule type |
| `RuleRoundTrip.NameParsesBack` | src/rule.rs:102-189 | each of the 37 type names is read back as its type |
| `RuleRoundTrip.RegexParsesBack` | src/rule.rs:218-254 | regex payloads may contain commas when the target is not a parameter word |
| `RuleRoundTrip.LogicalParsesBack` | src/rule.rs:301-327 | balanced payloads come back whole, commas included |
| `RuleRoundTrip.StandardParsesBack` | src/rule.rs:279-299 | comma-free payloads come back |
| `RuleRoundTrip.ParsedRegex` | src/rule.rs:218-254 | what the regex parser returns is well formed |
| `RuleRoundTrip.ParsedLogical` | src/rule.rs:301-327 | what the logical parser returns is well formed |
| `RuleRoundTrip.RoundTrip` | src/rule.rs:200-370 | for every rule of every shape, printing and parsing gives it back if and only if it is well formed |
| `RuleRoundTrip.WordTargetIsMisread` | src/rule.rs:225-233 | the witness: a regex payload with a comma before the target src does not come back |
| `RuleRoundTrip.PrintingIsCanonical` | src/rule.rs:200-216 | the printed text of any parsed rule parses to the same rule |
| `CancellationProtocol.GoodStep` | src/cancellation.rs:30-79 | every atomic step keeps lock, identifiers and run counts consistent |
| `CancellationProtocol.GoodOverRuns` | src/cancellation.rs:30-110 | so does every interleaving with fewer than 2^64 registrations |
| `CancellationProtocol.ExactlyOnce` | src/cancellation.rs:30-110 | no interrupt runs twice; when all calls have finished, exactly those not dropped before the map was taken have run, once each, if the token was cancelled |
| `CancellationTokens.CancellationToken.Cancel` | src/cancellation.rs:30-46 | the first call returns after running everything it took; later calls return at once |
| `CancellationTokens.CancellationToken.RegisterInterrupt` | src/cancellation.rs:53-79 | the interrupt is registered, or has run in this call |
| `CancellationTokens.CancellationToken.DropRegistration` | src/cancellation.rs:97-110 | the registration is dropped, before or after the map was taken |

## Left out

- Authentication secrets, endpoint socket identity, `status` and `snapshot` of the service: views of the modelled state.
- A spawn that reports process id 0 is taken to have left no process behind.
- ServiceProtocol.CancelledApplyNeverCommits: a service restart commits without holding the cancellation lock, as in the code; a restart attempt begun after a cancellation never commits (`AttemptOwnedCoreRestart`), one that a cancellation overtakes is not covered.
- `validate_references` of the compiler is a yes-or-no parameter of `Compile`; its own rules are not modelled.
- ConfigLoops.FinishConfiguration: which of several failures of one document is reported: values do not carry the order of a mapping's keys, and an error says rejected or panicked, without its message.
- ChunkedEncoding.SizeRoundTrip: non-ASCII white space around a chunk size is not modelled; `ReadChunkedBody` is proved for any way to read a size line.
- ChunkedBody.ReadChunkedBody: completeness is stated for size lines of up to 126 bytes, the ones `AcceptedLinesAreExact` shows to be accepted under every fragmentation.
- Lossy UTF-8 decoding of log lines, a parameter of the line splitter.
- `ProfileRefreshScheduler`: the same shape as the probe scheduler with easier properties.
- `node_snapshot` and `metrics` of the probe scheduler: views.
- File permissions, symbolic links and fsync of the store; a failed sync is an error after the operation took place.
- Timestamps of stream items, and the conversion of records to their wire form.
- `LocalRuleSet` editing and the byte limit on rule strings; positions in rules are characters, not bytes.
- A registration dropped after every token handle is gone does nothing, and is not modelled.
- `DirectoryLease`, the daemon, IPC framing, profiles, telemetry, the command line and the terminal interface.
