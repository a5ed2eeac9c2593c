# Verified models of outo-models

Dafny 4.11 models of the parts of outo-models, a self-hosted model repository server, where finite tests settle least:
Git LFS uploads from the client's files to the server's store, the per-repository lock registry, the three walks over a
git tree, resumable and parallel downloads, the start of a Space's container with its GPU, the resolution of GPU names
against CDI specs, storage accounting, the signup approval state machine, and presigned object-store URLs.
`dafny verify dfyconfig.toml` checks everything.

| file | models |
|---|---|
| `prelude.dfy`, `text.dfy`, `dedup.dfy`, `sums.dfy` | bytes and object ids; Python's string operations with their inverse laws; first-occurrence deduplication; sums over dictionaries |
| `lfs_pointer.dfy`, `lfs_wire.dfy`, `lfs_client.dfy` | pointer texts, the batch exchange, the client's upload from partitioning to commit |
| `lfs_server.dfy`, `object_store.dfy` | batch decisions and the PUT handler; the content-addressed store, one upload at a time |
| `concurrent_store.dfy`, `locality.dfy`, `interleaving.dfy`, `admission.dfy` | the store with any number of uploads interleaved; what a step can reach; an upload among others; which uploads may run beside each other |
| `quota.dfy`, `accounting.dfy` | caps and usage rows; conservation over create, push, delete and PUT |
| `lock_registry.dfy` | the lock registry together with asyncio's lock, step by step |
| `git_tree.dfy`, `repo_files.dfy`, `walk.dfy`, `build_context.dfy` | git trees and their recursive listing; the server's listing; the client's walk; the export with an explicit stack |
| `log_frames.dfy` | the length-prefixed log format |
| `cdi.dfy`, `cdi_hooks.dfy`, `cdi_edits.dfy`, `space_runtime.dfy` | device names and their resolution; what becomes of OCI hooks; the translated edits; ports, podman and the delivery ladder |
| `http_range.dfy`, `download.dfy`, `parallel_download.dfy` | the `Range` header on both sides; one resumable transfer; all transfers interleaved under the worker limit, killed and rerun |
| `approval.dfy` | registration, approval, denial, ban, unban, and the audit log |
| `presign.dfy` | presigned URLs as a printer whose output parses back |

sha256 is any function from bytes to object ids, HMAC any function from key and text to bytes: nothing is assumed of them.
What the code gets from outside (podman's answers, the network, other clients, bytes that change on disk) is a
parameter or an oracle over which every statement quantifies. Code that updates things in place is a class or a method
with loops, proved against a function of its inputs; code that is an expression is a function.

## Findings

Where the code and what it says of itself disagree, the model follows the code.

- Two uploads of the same object that overlap share one temporary file, and the store can end up holding other content
  under a name that is its hash no longer (`Admission.OverlapBreaksStore`). Letting an upload in beside others is safe if
  and only if those of the same object that are in flight are all bound to fail, and, where one of them has yet to open
  its file, the new one is bound to fail too (`Admission.AdmissionIsSafeIff`). So it is safe when none is in flight; and
  an upload with a wrong length, which can never succeed, can still spoil a good one that is let in before it has opened
  its file.
- A PUT without a Content-Length is held to the server's size limit as its exact size
  (`src/outo_models/git_smart/lfs.py:545-549`), so it succeeds only for a body of exactly that many bytes
  (`LfsServer.LfsService.HandlePut`, `HeldTo`).
- A batch offers an upload on the quota of the user who asks (`src/outo_models/git_smart/lfs_api.py:254-263`), while the PUT
  is held to the quota of the repository's owner (`src/outo_models/git_smart/lfs.py:553-565`). For an upload that is fine
  otherwise the two agree exactly when the object is over the limit or the two users' quotas agree on its size, so always
  in one's own repository (`LfsServer.OfferedIffAcceptable`).
- The lock registry promises to free a lock with its last user. A task cancelled while waiting keeps its count, and the
  lock stays for ever (`LockRegistry.CancelledWaiterLeaks`). The registry is empty again if and only if nobody was ever
  cancelled while waiting (`LockRegistry.RegistryEmptyAfterAllIff`; per key `LockRegistry.RegistryEmptiesIff`).
- A directory whose name holds a backslash, or is `.` or `..`, is listed as another directory or not at all; the
  client's walk misses every file below it (`Walk.WalkMissesOddDirectories`). It is complete exactly when all directories
  are plainly named, save those that are mistaken for a plainly named neighbour while neither of the two has a file below
  (`Walk.WalkIsCompleteIff`).
- A spec that defines both `0` and `gpu-0` does not hand each query the entry it literally named: the bare name `gpu-0`
  gets `0` (`Cdi.BareNameTakesTheAlias`). A bare name reaches the device so named exactly when it is its own normal form,
  or nothing is defined under that form and no earlier device shares it (`Cdi.BareNameIsLiteralIff`).
- Container names do not separate owner from name: `a-b/c` and `a/b-c` share one container
  (`SpaceRuntime.ContainerNamesMeetIff`).
- A start whose answer is lost can leave the container running although an error is reported; the exact condition is
  `SpaceRuntime.SpaceRuntimeManager.Start`.
- The downloader comments that a changed file makes it restart; it compares nothing, and the result is right exactly
  when the leftover is unused or a prefix of the new content (`Download.CompletedIff`).
- A file named like another one's `.part` file is moved over it (`ParallelDownload.PartNameClobbers`). With two or more
  workers every run is right if and only if no target has another's path or `.part` name; with one worker, if and only
  if the weaker condition `Ordered` holds (`ParallelDownload.AlwaysWholeIff`).
- Outcomes come in completion order (`ParallelDownload.OutcomeOrderIsFree`). They follow the documented tree order in
  every run if and only if there is at most one worker or one file (`ParallelDownload.OutcomesFollowTreeIff`).
- A username may end in a newline, and then in a dot or hyphen before it (`Approvals.ValidSlugIff`).
- Raw terminal output that happens to be a frame sequence loses its headers (`LogFrames.UntouchedIff`).
- The endpoint's host is documented as lower-cased but is used as given (`Presign.UpperCaseHostIsKept`); it is lower-case
  exactly when the endpoint's own host has no upper-case letter (`Presign.HostIsLowerIff`).

## Model

| member | source | states |
|---|---|---|
| `LfsClient.UploadLargeFiles` | omc/src/outo_models_cli/commands/upload.py:100-140 | end to end: every committed pointer names the hash and length of a local file over the threshold whose object the server then holds, and every such file has a pointer, whatever other clients do in between |
| `LfsClient.RunLfsUpload` | omc/src/outo_models_cli/commands/upload.py:189-241 | a normal return means every large file's object is stored under its own hash, whatever bytes were on disk when they were sent; stored objects only grow; a wanted object always has a local source |
| `LfsClient.UploadAll` | omc/src/outo_models_cli/api/lfs_upload.py:159-185 | without a failure every wanted object is stored; the first refusal ends it |
| `LfsClient.BatchOutcome` | omc/src/outo_models_cli/api/lfs_batch.py:98-161 | a response without errors leaves every file's object stored or asked for, and asks for nothing else |
| `LfsClient.PartitionFiles` | omc/src/outo_models_cli/api/lfs.py:136-181 | the large files are those over the threshold with the hash and length of what was read, largest first |
| `LfsClient.EachFileOnce` | omc/src/outo_models_cli/api/lfs.py:136-181 | every file lands in exactly one of the two lists, by its size when listed |
| `LfsClient.DedupeObjects` | omc/src/outo_models_cli/api/lfs.py:235-258 | one entry per distinct object in order of first appearance, each with the paths that share it |
| `LfsClient.PathsByOid` | omc/src/outo_models_cli/commands/upload.py:219-235 | each object id leads to all local paths with that content and no other |
| `LfsClient.FirstFileDecides` | omc/src/outo_models_cli/api/lfs.py:261-272 | every id gets a pointer, that of the first file with it |
| `LfsClient.PointerHandles` | omc/src/outo_models_cli/commands/_upload_commit.py:32-56 | exactly one pointer per distinct path, with the text of that file's object, under the display name for its path and place |
| `LfsWire.SplitResponse` | omc/src/outo_models_cli/api/lfs_batch.py:98-161 | the three lists are the wanted, the failed and the present entries |
| `LfsWire.EveryEntryIsAnswered` | omc/src/outo_models_cli/api/lfs_batch.py:98-161 | every entry that is an object lands in the list its content calls for |
| `LfsWire.ListsHoldNothingElse` | omc/src/outo_models_cli/api/lfs_batch.py:98-161 | the lists together hold as many items as there are objects in the response |
| `LfsPointer.PointerRoundTrip` | src/outo_models/repos/files.py:116-135 | the server reads from the client's pointer text exactly the size the client wrote |
| `LfsPointer.PointerTextInjective` | omc/src/outo_models_cli/api/lfs.py:62-69 | equal pointer texts name the same object and size |
| `LfsPointer.ReadPointerSize` | src/outo_models/repos/files.py:116-135 | the one-pass reader, with its early exit, means: short, version line first, an oid line, all sizes numerals, the last size counts |
| `LfsPointer.PointerMeans` | src/outo_models/repos/files.py:116-135 | a blob is read as a pointer to n bytes exactly when it has at most 4096 bytes, the version prefix and an oid line, all its size lines are numerals and the last states n |
| `LfsPointer.LineBreaksAre` | src/outo_models/repos/files.py:127 | what ends a line, by character codes |
| `Text.SpacesAre` | src/outo_models/repos/files.py:132 | what counts as white space, by character codes |
| `Text.StripPads` | src/outo_models/repos/files.py:132 | stripping takes away exactly the white space around the text |
| `Text.PlusSign` | src/outo_models/repos/files.py:132 | a numeral may have a plus sign in front |
| `Text.UnderscoreIgnored` | src/outo_models/repos/files.py:132 | a single underscore between digits changes nothing |
| `LfsServer.LfsService.HandlePut` | src/outo_models/git_smart/lfs.py:526-610 | OK if and only if limit, quota, free slot, size and hash all agree; then exactly this object is added and exactly its length is charged; otherwise no object and no usage changes, and the status says which check failed |
| `LfsServer.LfsService.HandleUploadBatch` | src/outo_models/git_smart/lfs_api.py:301-340 | one answer per distinct object in request order, each decided on its own, in terms of store, limit, user, usage and cap alone; nobody's usage changed |
| `LfsServer.LfsService.BuildUploadEntry` | src/outo_models/git_smart/lfs_api.py:206-270 | an upload is offered exactly for a free slot, a size within the limit, a known user and room in the quota, at an address that leads to this object; 401 and 413 come back exactly where the first check that fails calls for them |
| `LfsServer.OneAnswer` | src/outo_models/git_smart/lfs_api.py:206-270 | never both an offer and a refusal, and neither exactly for a stored object |
| `LfsServer.OfferedIffAcceptable` | src/outo_models/git_smart/lfs_api.py:206-270 | for content of the requested hash and length in a free slot, the offer and the acceptance of the PUT go together if and only if the object is over the limit or the quotas of the one who asks and of the owner agree on its size |
| `LfsServer.DedupObjects` | src/outo_models/git_smart/lfs_api.py:343-358 | the first occurrence of every pair of id and size, in order |
| `LfsServer.StreamRequestBody` | src/outo_models/git_smart/lfs.py:269-288 | the loop hands on what the list of body events amounts to |
| `LfsServer.ReceivedIsComplete` | src/outo_models/git_smart/lfs.py:269-288 | a body within the limit is handed on whole, and only such a body; over the limit exactly when the sum of its parts is |
| `LfsServer.PutGrows` | src/outo_models/objectstore/local.py:206-221 | accepting or refusing an object leaves every stored object as it was and the store sound |
| `Dedup.FirstOccurrencesExact` | src/outo_models/git_smart/lfs_api.py:343-358 | nothing lost, invented or kept twice |
| `Dedup.DedupIsIdempotent` | omc/src/outo_models_cli/api/lfs.py:235-258 | the server's deduplication keeps the client's list entry for entry |
| `ObjectStore.LocalObjectStore.WriteObject` | src/outo_models/objectstore/local.py:153-221 | succeeds if and only if the id is valid, the slot free, the body complete, of the announced size and hash; then exactly the content is added; a raising call touches no object |
| `ObjectStore.PathsCollide` | src/outo_models/objectstore/local.py:84-92 | two ids share a path only when they agree up to case; no object path is a temporary path |
| `ObjectStore.OnDiskInjective` | src/outo_models/objectstore/local.py:84-92 | the file names of objects and temporary files are all distinct |
| `ObjectStore.WriteKeepsSound` | src/outo_models/objectstore/local.py:206-221 | a checked upload keeps every object named after its hash |
| `ConcurrentStore.DisciplinedRunsStaySound` | src/outo_models/objectstore/local.py:153-221 | with one upload per object in flight, after every step of any interleaving, cancelled tasks with calls still under way and process deaths included, every object is named after its hash |
| `ConcurrentStore.NewStoreStaysSound` | src/outo_models/objectstore/local.py:153-221 | so in particular from an empty store |
| `ConcurrentStore.StepAddsAtMostOne` | src/outo_models/objectstore/local.py:185-221 | a step adds at most one object, correctly named, and only the final rename does |
| `ConcurrentStore.RunsKeepObjects` | src/outo_models/objectstore/local.py:153-221 | over a run no object changes or disappears |
| `ConcurrentStore.OpeningTruncates` | src/outo_models/objectstore/local.py:195 | opening a temporary path that has a file empties that very file for everybody who has it open; else it makes a new one |
| `ConcurrentStore.LoneUploadRefines` | src/outo_models/objectstore/local.py:153-221 | cut into steps and run on its own, an upload has the effect of the sequential method, a body that raises included |
| `Locality.StepIsLocal` | src/outo_models/objectstore/local.py:174-219 | whatever else is in flight, a step touches only the paths of its own object and the files its upload can reach |
| `Interleaving.RunProjects` | src/outo_models/objectstore/local.py:153-221 | what a run does to one object is what the steps of that object's upload do on their own |
| `Interleaving.UploadRefines` | src/outo_models/objectstore/local.py:153-221 | an upload that goes through all its pieces among uploads of other objects has the effect of the sequential method on its object, a body that raises included |
| `Admission.OverlapBreaksStore` | src/outo_models/objectstore/local.py:174-219 | of two uploads of one object, when one would succeed and the other has yet to open its file, an object with other content can come out, whatever the other's body |
| `Admission.AdmissionIsSafeIff` | src/outo_models/objectstore/local.py:171-219 | letting an upload in is safe if and only if those of the same object in flight are bound to fail, and the new one too where one of them has yet to open its file, or no content has another id; for every hash, from every state that keeps the invariant |
| `Quota.QuotaTable.EnsureQuotaRows` | src/outo_models/repos/quota.py:22-46 | rows appear, no cap and no usage changes |
| `Quota.QuotaTable.CheckPushAllowed` | src/outo_models/repos/quota.py:49-64 | allowed exactly when usage plus incoming bytes fit the cap, or nothing comes in |
| `Quota.QuotaTable.AddUsage` | src/outo_models/repos/quota.py:67-77 | one user's count moves by the delta, floored at zero |
| `Accounting.RunConserves` | src/outo_models/repos/quota.py:67-77 | over any run of create, push, delete and PUT, usage is recorded repository sizes plus LFS charges, and all charges together are the bytes in the store |
| `Accounting.ClampNeverFires` | src/outo_models/repos/quota.py:67-77 | the floor at zero never applies in a balanced ledger |
| `Accounting.UploadsStayWithinCap` | src/outo_models/git_smart/lfs.py:526-610 | no run of admitted uploads takes a user over an unchanged cap |
| `Accounting.Platform.CreateRepo` | src/outo_models/repos/create.py:46-140 | a repository starts at size zero, in balance |
| `Accounting.Platform.RecordPush` | src/outo_models/git_smart/service.py:753-826 | a push that moved a branch records the measured size and charges the difference |
| `Accounting.Platform.DeleteRepo` | src/outo_models/repos/delete.py:23-85 | deletion releases exactly the recorded size |
| `Accounting.Platform.PutObject` | src/outo_models/git_smart/lfs.py:526-610 | a successful PUT stores and charges the same number of bytes; any other leaves the books alone |
| `LockRegistry.MutualExclusion` | src/outo_models/repos/storage.py:91-117 | in every reachable state at most one use of a key is inside, and every use holds the lock registered for its key now, although locks are dropped and made anew |
| `LockRegistry.RefcountsExact` | src/outo_models/repos/storage.py:99-117 | both dictionaries have the same keys, and a count is the uses of the key plus those cancelled while waiting |
| `LockRegistry.LeavingNeverRaises` | src/outo_models/repos/storage.py:110-117 | leaving finds its key and a taken lock |
| `LockRegistry.WaitersAreNeverStranded` | src/outo_models/repos/storage.py:108-117 | behind every waiter somebody can move: no wake-up is lost, also when waiters are cancelled |
| `LockRegistry.RegistryEmptiesIff` | src/outo_models/repos/storage.py:108-117 | an unused key is gone exactly when nobody was cancelled while waiting for it |
| `LockRegistry.RegistryEmptyAfterAllIff` | src/outo_models/repos/storage.py:73-117 | once all uses have ended, both dictionaries are empty if and only if the run cancelled no waiting task |
| `LockRegistry.CancelledWaiterLeaks` | src/outo_models/repos/storage.py:108-117 | a run of five steps after which an unused lock stays registered |
| `LockRegistry.StepKeeps` | src/outo_models/repos/storage.py:91-117 | every step keeps the invariant |
| `LockRegistry.RepoLockRegistry.Enter` | src/outo_models/repos/storage.py:99-108 | the code up to the first await is the model's step |
| `LockRegistry.RepoLockRegistry.Resume` | src/outo_models/repos/storage.py:108-110 | a woken waiter takes the lock, a cancelled one gives up and keeps its count |
| `LockRegistry.RepoLockRegistry.Cancel` | src/outo_models/repos/storage.py:108-108 | a cancellation reaches the waiter's future only |
| `LockRegistry.RepoLockRegistry.Leave` | src/outo_models/repos/storage.py:110-117 | release, count down, drop both entries with the last use |
| `RepoFiles.ValidatePathInverts` | src/outo_models/repos/files.py:47-66 | parsing a printed path gives its segments back when all are plain |
| `Text.TrimPads` | src/outo_models/repos/files.py:56-59 | stripping slashes takes away exactly those around the text |
| `RepoFiles.Descend` | src/outo_models/repos/files.py:88-110 | the descent finds the tree the segments name, or the error |
| `RepoFiles.ListOneLevel` | src/outo_models/repos/files.py:138-175 | the rows are those of the entries, as a multiset, directories first and then by name |
| `RepoFiles.ListFilesSync` | src/outo_models/repos/files.py:178-206 | validation, descent and prefixing together |
| `RepoFiles.PointerIsListedWithRealSize` | src/outo_models/repos/files.py:157-164 | a pointer blob is listed with the size of its object, flagged as LFS |
| `RepoFiles.OtherFileIsListed` | src/outo_models/repos/files.py:157-175 | a file that is no pointer, or has 4096 bytes or more, is listed with the length of its own blob |
| `Walk.WalkIsComplete` | omc/src/outo_models_cli/downloader/walk.py:55-86 | with plain directory names the walk over the server's listing returns the filtered recursive flatten of the tree, each path once |
| `Walk.WalkIsCompleteIff` | omc/src/outo_models_cli/downloader/walk.py:55-86 | for every tree: the unfiltered walk is complete if and only if every directory is plainly named, or is mistaken for a plainly named neighbour while neither of the two has a file below |
| `Walk.PopulatedPlain` | omc/src/outo_models_cli/downloader/walk.py:55-86 | with a file below every directory this condition is that all directory names are plain |
| `RepoFiles.CheckedPath` | src/outo_models/repos/files.py:47-66 | a name below plain names is looked up without its backslashes, refused, or taken for the directory it lies in |
| `Walk.WalkMissesOddDirectories` | omc/src/outo_models_cli/downloader/walk.py:55-86 | in any tree: with a file below a directory that is not plainly named the walk is incomplete at every depth |
| `Walk.VisitedPathsArePlain` | omc/src/outo_models_cli/downloader/walk.py:67-83 | whatever the tree, only paths below plainly named directories come out |
| `Walk.BackslashDirectoryNeverEnds` | omc/src/outo_models_cli/downloader/walk.py:67-83 | a directory called backslash sends the walk round until the recursion limit |
| `Walk.RepoWalker.VisitDirectory` | omc/src/outo_models_cli/downloader/walk.py:67-83 | the recursive visit appends exactly what the specification yields, or stops with its error |
| `GitTree.FlattenDistinct` | src/outo_models/repos/files.py:138-175 | the recursive listing of a well-formed tree has no path twice |
| `BuildContext.IterTreeBlobs` | src/outo_models/spaces/build.py:38-61 | the stack loop ends, fails exactly when a needed object cannot be read, and yields the recursive listing as a multiset |
| `BuildContext.ReadableIff` | src/outo_models/spaces/build.py:38-61 | reading fails exactly when the walk comes to a directory that is no tree or a file whose object is gone, looking behind no excluded name and no submodule |
| `BuildContext.ExportedIffListed` | src/outo_models/spaces/build.py:38-61 | apart from symbolic links, the export holds exactly the files of the recursive listing below no excluded directory, for trees whose file entries lead to blobs and that do not use the second submodule mode |
| `BuildContext.SameLeaves` | src/outo_models/spaces/build.py:38-61 | for every tree: export and listing go through the same leaves in the same order, and `Listed` and `Exported` say which each of them takes |
| `BuildContext.GuardNeverFires` | src/outo_models/spaces/build.py:49-51 | the guard on the prefix is never taken |
| `BuildContext.FilesDistinct` | src/outo_models/spaces/build.py:38-61 | no path is exported twice |
| `BuildContext.NothingExcluded` | src/outo_models/spaces/build.py:54-56 | nothing below an excluded directory is exported |
| `LogFrames.ParseEncode` | src/outo_models/spaces/runtime_manager.py:227-248 | printed frames parse back to themselves |
| `LogFrames.EncodeParse` | src/outo_models/spaces/runtime_manager.py:227-248 | whatever parses re-encodes to the whole input |
| `LogFrames.SplitExact` | src/outo_models/spaces/runtime_manager.py:227-248 | both directions against the wire format alone |
| `LogFrames.SplitLogFrames` | src/outo_models/spaces/runtime_manager.py:227-248 | the offset loop with its early exits computes that split |
| `LogFrames.DecodeLogs` | src/outo_models/spaces/runtime_manager.py:251-255 | payloads joined, or the body as it is |
| `LogFrames.UntouchedIff` | src/outo_models/spaces/runtime_manager.py:251-255 | exactly the bodies that are no frame sequence pass untouched; others lose eight bytes a frame |
| `Cdi.DeviceNameIsIdempotent` | src/outo_models/spaces/cdi.py:139-154 | normalizing twice is normalizing once |
| `Cdi.IndexedName` | src/outo_models/spaces/cdi.py:139-154 | with `gpu-` in any case, digits and white space around them, the name is the digits without their leading zeros, the numeral of their value |
| `Cdi.IndexName` | src/outo_models/spaces/cdi.py:139-154 | `gpu-` and the numeral of any number mean that numeral |
| `Cdi.OtherName` | src/outo_models/spaces/cdi.py:139-154 | every other assignment comes back without the white space around it and otherwise unchanged |
| `Cdi.IndexExact` | src/outo_models/spaces/cdi.py:540-575 | every usable name once, in order of first mention, with its last device |
| `Cdi.BuildIndex` | src/outo_models/spaces/cdi.py:540-575 | both loops fill that index |
| `Cdi.MatchDevice` | src/outo_models/spaces/cdi.py:656-686 | with the per-kind cache the answer is that of rebuilding the index every time |
| `Cdi.ResolveNames` | src/outo_models/spaces/cdi.py:804-835 | all names, or the first failure |
| `Cdi.NamesAreStable` | src/outo_models/spaces/cdi.py:804-835 | names resolved from bare assignments resolve to themselves, whatever they contain |
| `Cdi.BareNameIsLiteralIff` | src/outo_models/spaces/cdi.py:578-593 | a defined device answers to its own bare name exactly when normalizing leaves the name alone, or nothing is defined under its normal form and no device named before it has the same |
| `Cdi.QualifiedIsLiteral` | src/outo_models/spaces/cdi.py:656-686 | the qualified spelling always means the device so named |
| `Cdi.BareNameTakesTheAlias` | src/outo_models/spaces/cdi.py:673-680 | with `0` and `gpu-0` defined, `gpu-0` means `0` |
| `CdiEdits.Collections.TranslateEdits` | src/outo_models/spaces/cdi.py:455-522 | succeeds exactly for known keys, KEY=VALUE entries and numeric group ids, and then adds exactly this block |
| `CdiEdits.ResolveEdits` | src/outo_models/spaces/cdi.py:726-801 | the loop over the assignments computes the merged edits, or the first failure |
| `CdiEdits.EditsIff` | src/outo_models/spaces/cdi.py:726-801 | edits exist exactly when names exist and all blocks of the named devices are translatable; then nodes, folders and notes are those of the blocks in order, the last value of a variable wins, every group id occurs once, the blocks' own mounts are all there in order, and every other mount is made for one of their links, each in its place |
| `CdiEdits.ResolvedEditsAre` | src/outo_models/spaces/cdi.py:726-801 | for assignments that all name a device, edits exist exactly when all blocks of these devices are translatable, and are what the blocks merge to, with the collected folders in the search path |
| `CdiEdits.UnresolvedFails` | src/outo_models/spaces/cdi.py:726-801 | if some assignment names no device there are no edits |
| `CdiEdits.NodesOneForOne` | src/outo_models/spaces/cdi.py:279-303 | device nodes one for one, path and attributes as in the spec |
| `CdiEdits.HostMountsOneByOne` | src/outo_models/spaces/cdi.py:279-303 | one bind mount, from host path to node, for every node with a host path, in order |
| `CdiEdits.NodeMountsFirst` | src/outo_models/spaces/cdi.py:488-500 | the nodes' mounts stand in front of the listed ones |
| `CdiEdits.TranslatableIff` | src/outo_models/spaces/cdi.py:478-517 | a block is translatable exactly for these five keys, variables with a value and numeric group ids |
| `CdiEdits.OwnBlockLast` | src/outo_models/spaces/cdi.py:765-789 | the spec-wide block is read before the device's own, so the device's own variables win |
| `CdiEdits.GidOfNumber` | src/outo_models/spaces/cdi.py:433-452 | an integer group id comes out as its numeral |
| `CdiEdits.GidOfText` | src/outo_models/spaces/cdi.py:433-452 | text is a group id exactly when it is digits, and then the number they spell |
| `CdiEdits.Collections.TranslateHooks` | src/outo_models/spaces/cdi.py:393-430 | the loop over the hooks adds their mounts and folders, and one note for what is lost |
| `CdiHooks.NothingLostSilently` | src/outo_models/spaces/cdi.py:393-430 | the note is written exactly when some hook is not delivered in full, and names every such hook |
| `CdiHooks.HookMeans` | src/outo_models/spaces/cdi.py:311-331 | both spellings of a hook, with its flag in front of every value, mean these links, these folders, nothing or an unknown command |
| `CdiHooks.NamelessHook` | src/outo_models/spaces/cdi.py:311-331 | without a command the hook goes by its own name, if it has one |
| `CdiHooks.FlagValuesIff` | src/outo_models/spaces/cdi.py:324-331 | only non-empty arguments right behind the flag count |
| `CdiHooks.NoteNamesAll` | src/outo_models/spaces/cdi.py:393-430 | one note if anything is lost and none otherwise, naming the device and everything that is lost |
| `CdiHooks.PairRead` | src/outo_models/spaces/cdi.py:362-364 | a pair is cut at its first separator and counts when neither half is blank |
| `CdiHooks.LinkIsBound` | src/outo_models/spaces/cdi.py:365-375 | a read-only bind mount at the link, of an absolute target as it is served |
| `CdiHooks.MountsGather` | src/outo_models/spaces/cdi.py:346-377 | hooks add one mount for each well-formed pair, at the pair's link, made from the mounts in front of it |
| `CdiHooks.RelativeLinkResolves` | src/outo_models/spaces/cdi.py:346-377 | a relative target is looked up next to its link, on the host path the link's directory is served from |
| `CdiHooks.BareLinkResolves` | src/outo_models/spaces/cdi.py:346-377 | the target of a link without a directory is looked up as written |
| `CdiEdits.LastEntryWins` | src/outo_models/spaces/cdi.py:498-511 | a variable is set exactly when an entry sets it, to the last one's value |
| `CdiEdits.FoldersComeFirst` | src/outo_models/spaces/cdi.py:378-390 | library folders first, the spec's own search path behind, nothing twice, other variables untouched |
| `SpaceRuntime.SpaceRuntimeManager.StartContainer` | src/outo_models/spaces/runtime_manager.py:772-835 | for any answers of podman: which calls were made and with which bodies; on success the container that runs is the one asked for or, after a retry, carries all nodes, mounts, variables and groups of the resolved edits; its port the least free one, other containers untouched, ports distinct and in range |
| `SpaceRuntime.SpaceRuntimeManager.Start` | src/outo_models/spaces/runtime_manager.py:772-835 | on success the same for the Space's name, image and normalized GPU ids; after a failure the container runs if and only if nothing removed a running old one, or a start was carried out whose answer got lost |
| `SpaceRuntime.SpaceRuntimeManager.DeliverGpuLadder` | src/outo_models/spaces/runtime_manager.py:729-746 | one attempt, and a second only for a refused GPU; success leaves exactly the body last sent running |
| `SpaceRuntime.SpaceRuntimeManager.RetryTranslated` | src/outo_models/spaces/runtime_manager.py:748-770 | the retry sends the resolved edits after a successful removal, and the container that then runs carries them field by field; a failed resolution makes no call |
| `SpaceRuntime.SpaceRuntimeManager.CreateAndStart` | src/outo_models/spaces/runtime_manager.py:686-706 | a start only after an accepted create; what is left running follows from the calls carried out |
| `SpaceRuntime.SpaceRuntimeManager.WriteBody` | src/outo_models/spaces/runtime_manager.py:795-830 | the body has the least free port and the names in the field this podman understands |
| `SpaceRuntime.SpaceRuntimeManager.Remove` | src/outo_models/spaces/runtime_manager.py:851-873 | removes at most this container and keeps the ports distinct |
| `SpaceRuntime.AtMostTwoCreates` | src/outo_models/spaces/runtime_manager.py:729-770 | at most two creates, two only with a GPU, a failed first attempt and a removal in between |
| `SpaceRuntime.OneContainer` | src/outo_models/spaces/runtime_manager.py:772-835 | no call names another container |
| `SpaceRuntime.FailureLeaves` | src/outo_models/spaces/runtime_manager.py:686-770 | what a call log without an answered start leaves running, both directions |
| `SpaceRuntime.OneSpelling` | src/outo_models/spaces/runtime_manager.py:708-727 | the first body only names devices, the translated one only carries edits |
| `SpaceRuntime.TranslationDelivers` | src/outo_models/spaces/runtime_manager.py:708-727 | nodes one for one in order, all mounts, the edits' variables over the body's, the edits' groups if there are any; no name is left, and name, image and ports stay |
| `SpaceRuntime.BootsAsAsked` | src/outo_models/spaces/runtime_manager.py:708-835 | the body sent last is the one asked for, with the names in the field this podman understands, or carries the resolved edits |
| `SpaceRuntime.ResolversAgree` | src/outo_models/spaces/runtime_manager.py:575-664 | there are names exactly when every id has a device, they are those devices' own names, and the edits are resolved from the same devices |
| `SpaceRuntime.MajorVersionRead` | src/outo_models/spaces/runtime_manager.py:191-197 | the leading number of a version, whatever follows its first dot |
| `SpaceRuntime.MajorVersionUnread` | src/outo_models/spaces/runtime_manager.py:191-197 | a version that starts with a letter counts as zero |
| `SpaceRuntime.DevicePathsResolve` | src/outo_models/spaces/runtime_manager.py:821-829 | the path written for a resolved name resolves to that very device |
| `SpaceRuntime.LeastFree` | src/outo_models/spaces/runtime_manager.py:449-461 | the least free port, none exactly when all are taken |
| `SpaceRuntime.PortsRunOutOnlyWhenFull` | src/outo_models/spaces/runtime_manager.py:449-461 | by counting: ports run out only with at least as many containers as ports |
| `SpaceRuntime.ContainerNamesMeetIff` | src/outo_models/spaces/runtime_manager.py:144-146 | exactly when two Spaces share a container name |
| `SpaceRuntime.ImageOfContainer` | src/outo_models/spaces/runtime_manager.py:144-151 | a Space's image and container go by the same name, so images are shared exactly when containers are |
| `HttpRange.ParseRange` | src/outo_models/server/routers/_resolve_helpers.py:499-538 | an accepted window lies inside the file |
| `HttpRange.ClientRangeIsUnderstood` | src/outo_models/server/routers/_resolve_helpers.py:499-538 | the client's header means: from there to the end, or nothing left |
| `HttpRange.ClosedRange` | src/outo_models/server/routers/_resolve_helpers.py:499-538 | `bytes=a-b`, the unit in any case and white space around the range: from a to b as far as the file goes |
| `HttpRange.SuffixRange` | src/outo_models/server/routers/_resolve_helpers.py:499-538 | `bytes=-n`: the last n bytes, or the whole file when it is shorter |
| `HttpRange.OpenRange` | src/outo_models/server/routers/_resolve_helpers.py:499-538 | `bytes=a-`: from a to the end |
| `HttpRange.OtherHeaders` | src/outo_models/server/routers/_resolve_helpers.py:499-538 | no header means the whole file; another unit, several ranges or no hyphen are not satisfiable |
| `Download.RespondToClient` | src/outo_models/server/routers/resolve.py:162-190 | header and window together: the whole file, the missing tail, or 416 |
| `Download.LocalDirectory.TransferOne` | omc/src/outo_models_cli/downloader/transfer.py:45-135 | for any interruption: success puts the continued or the whole content at the target and reports its length; failure leaves the target alone and the `.part` file old or a beginning of the result; the 416 restart ends |
| `Download.CompletedIff` | omc/src/outo_models_cli/downloader/transfer.py:80-96 | the result is the remote content exactly when the leftover is unused or a prefix |
| `ParallelDownload.DownloadsAreWhole` | omc/src/outo_models_cli/downloader/__init__.py:113-152 | for every interleaving the workers allow, failure and rerun: `.part` files stay beginnings, finished targets are whole, outcomes are the finished transfers, each once |
| `ParallelDownload.AlwaysWholeIff` | omc/src/outo_models_cli/downloader/transfer.py:45-135 | every run keeps this if and only if the entries do not disturb each other: exact for one worker and for more, for any contents, LFS or not, repeated paths included |
| `ParallelDownload.AllDone` | omc/src/outo_models_cli/downloader/__init__.py:143-152 | when all are finished every target is right and the outcomes are all files as a multiset |
| `ParallelDownload.AloneCompletes` | omc/src/outo_models_cli/downloader/transfer.py:45-135 | left alone, the steps of a transfer do what the sequential code promises, the restart after a 416 included |
| `ParallelDownload.PartNameClobbers` | omc/src/outo_models_cli/downloader/transfer.py:58-59 | a witness: a target named like another's `.part` file is lost, and the other is wrong unless one content begins with the other |
| `ParallelDownload.OutcomesFollowTreeIff` | omc/src/outo_models_cli/downloader/__init__.py:108-148 | outcomes follow the tree order in every completed run if and only if there is at most one worker or at most one file |
| `ParallelDownload.OutcomeOrderIsFree` | omc/src/outo_models_cli/downloader/__init__.py:146-148 | with two workers and two files, whatever was on disk, the first file can be the last outcome |
| `Approvals.ValidSlugIff` | src/outo_models/utils/slug.py:14-50 | what is accepted beyond the documented policy, exactly |
| `Approvals.SignupService.RegisterUser` | src/outo_models/auth/approval.py:110-211 | errors exactly for bad or taken names, else one user who is no admin, one row if approval is required, one entry; the tables stay consistent |
| `Approvals.SignupService.ApproveUser` | src/outo_models/auth/approval.py:214-252 | only from pending; user, row and entry change together, failure changes nothing |
| `Approvals.SignupService.DenyUser` | src/outo_models/auth/approval.py:255-295 | only from pending, with the reason on the row and in the entry |
| `Approvals.SignupService.BanUser` | src/outo_models/auth/approval.py:298-347 | refused exactly for one's own account or an admin's, before the status is looked at; the approval row stays |
| `Approvals.SignupService.UnbanUser` | src/outo_models/auth/approval.py:350-377 | only from banned, to approved; the approval row stays |
| `Approvals.SignupService.Decide` | src/outo_models/auth/approval.py:412-427 | at most one row per user, and it carries the decision |
| `Approvals.Moved` | src/outo_models/auth/approval.py:214-377 | a legal transition keeps: status and approver equal the replay of the log, the log is a path of the state machine, approval time exactly for approved users, names unique, rows are last decisions, the admins are who they were, and no log entry bans one of them |
| `Approvals.Joined` | src/outo_models/auth/approval.py:161-211 | the same for a registration |
| `Approvals.BannedUntilUnbanned` | src/outo_models/auth/approval.py:298-377 | in a legal log a banned user only moves by an unban |
| `Approvals.AdminsAreNotBanned` | src/outo_models/auth/approval.py:320-331 | an admin who is banned was so before the log began |
| `Presign.DecodeEncode` | src/outo_models/objectstore/s3.py:62-73 | percent-decoding inverts the encoding, for all bytes |
| `Presign.EncodeIsPlain` | src/outo_models/objectstore/s3.py:62-73 | only unreserved characters and percent signs are left |
| `Presign.EncodedByte` | src/outo_models/objectstore/s3.py:62-73 | any other byte becomes a percent sign and its two upper-case hex digits |
| `Presign.PlainByte` | src/outo_models/objectstore/s3.py:62-73 | letters, digits, hyphen, full stop, underscore and tilde pass unchanged |
| `Presign.DecodePath` | src/outo_models/objectstore/s3.py:76-85 | segment-wise encoded paths decode to the path |
| `Presign.ParseCanonicalQuery` | src/outo_models/objectstore/s3.py:128-138 | the canonical query parses back to the sorted parameters |
| `Presign.SortParamsSorts` | src/outo_models/objectstore/s3.py:128-138 | the parameters are in the code-point order of their names |
| `Presign.CanonicalRequestLines` | src/outo_models/objectstore/s3.py:141-163 | the signed text splits into its seven lines, so every field is covered |
| `Presign.StringToSignLines` | src/outo_models/objectstore/s3.py:166-170 | the string to sign splits into algorithm, timestamp, scope and hash |
| `Presign.KeyFollowsScope` | src/outo_models/objectstore/s3.py:88-104 | the key is derived along the parts of the scope that is signed |
| `Presign.PresignedUrlParses` | src/outo_models/objectstore/s3.py:245-287 | the URL taken apart gives the host, the canonical URI and the canonical query that were signed, bucket and key, and the parameters |
| `Presign.PresignedParameters` | src/outo_models/objectstore/s3.py:257-263 | the query holds the five parameters of the standard, in order, with these values |
| `Presign.PresignedUrlIsSigned` | src/outo_models/objectstore/s3.py:245-287 | the signature in the URL is the HMAC, under the key chained along the scope, of whatever text splits into the standard's four lines, over the hash of whatever request splits into its seven |
| `Presign.PresignedUrlVerifies` | src/outo_models/objectstore/s3.py:245-287 | a reader who signs what the URL says gets the signature in it, for every hash, key and secret |
| `Presign.PathEndsAtQuestionMarkIff` | src/outo_models/objectstore/s3.py:286-287 | the split at the question mark is right exactly when the origin holds none |
| `Presign.EndpointSplits` | src/outo_models/objectstore/s3.py:108-125 | the host is what stands between scheme and first slash, character for character |
| `Presign.HostIsLowerIff` | src/outo_models/objectstore/s3.py:108-125 | the documented lower-case host comes out exactly when the endpoint's host has no upper-case letter |
| `Presign.UpperCaseHostIsKept` | src/outo_models/objectstore/s3.py:108-125 | a witness: `https://S3.Example` keeps its capitals |
| `Presign.SameUri` | src/outo_models/objectstore/s3.py:253-255 | a signed path determines bucket and key when buckets hold no slash |

## Left out

- Transport: HTTP framing, headers other than `Range`, authentication, repository lookup, sessions, migrations, progress bars, prompts. A request is a method call; what is decided elsewhere comes in as a parameter.
- The database is a set of dictionaries and sequences with serialised transactions; a commit after a successful write is taken to succeed.
- dulwich, tar, YAML, Jinja, argon2, PASETO, sha256, HMAC: libraries. Trees are an inductive datatype, specs arrive parsed, hashes are parameters.
- The S3 backend's network calls; the end-to-end claim is for the local store. Of S3 only the URL is modelled.
- `reconcile_user` re-bases usage on the disk and charges the whole LFS tree to every user (src/outo_models/repos/quota.py:104-113); it is not a step of the conservation model.
- On-disk repository directories ignore the kind of a repository (src/outo_models/utils/paths.py:30); the model keys repositories with their kind as the database does.
- Where a pointer is committed inside the repository: the upload router that decides it is not part of this model.
- ConcurrentStore.DisciplinedRunsStaySound: assumes one upload per object in flight, because without it the statement is false (Admission.OverlapBreaksStore).
- LfsPointer.ReadPointerSize: digits are ASCII; Python's `int` takes those of other scripts as well.
- LfsClient.RunLfsUpload: other clients act between requests, not inside one; inside a request the interleaving is that of ConcurrentStore.
- SpaceRuntime.SpaceRuntimeManager.StartContainer: starts are serialised; two at once can pick the same port, as nothing locks between listing and creating. Only managed containers count as users of a port.
- Cdi.IndexedName: digits are ASCII, and the interpreter's limit on the length of numerals is not modelled.
- CdiEdits.ResolveEdits: error texts are not modelled; values YAML would turn into text arrive as text.
- SpaceRuntime.SpaceRuntimeManager.ResolveGpuEdits: the resolver is a parameter of the manager, `CdiResolver` being the real one; the helper container that reads specs from the host is a reading that may differ every time.
- ParallelDownload.DownloadsAreWhole: open files are known by their path, which is exact when no path is used twice. Workers are given out in tree order, as the fair semaphore does for tasks created in that order.
- Download.LocalDirectory.TransferOne: symbolic links, entity tags and content lengths play no part, as the code only records them.
- Presign.PresignUrl: HMAC and hexadecimal printing are parameters; time formatting is left out, the timestamp comes in formatted; `sign_request` builds headers from the same functions.
- Approvals.SignupService.RegisterUser: lower-casing is a parameter, any function; password hashing is left out.
- Walk.WalkIsCompleteIff: Python's recursion limit is the depth parameter; filters are one predicate on paths.
- BuildContext.IterTreeBlobs: names that are not UTF-8 are left out.
- BuildContext.ExportedIffListed: leaves out trees with a file entry that leads to no blob or with the second submodule mode; BuildContext.SameLeaves covers every tree.
- Listing pending users, login checks, social features, slugs elsewhere, human-readable sizes: short single-function claims.
