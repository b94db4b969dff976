# Verified models of the hashtree applications

A Dafny model of the parts of this repository where correctness rests on an argument rather than on a
reading: trees rebuilt over a content-addressed store, protocols that run under any interleaving, a merge
of unordered events, and printers with the parsers that read them back. `dafny verify dfyconfig.toml`
checks everything.

The project has four groups of files.

**Trees.** `HashTree` models the Merkle tree library: blocks, links, keys, reading and editing, with
`setEntry` as both editors run it. A content identifier is taken to be the tree it names, with a flag for
its key; the order in which a directory sorts its names is a parameter, as it depends on the locale. On it
stand the re-encryption migration (`Reencrypt`), the web-app saver (`PwaSaver`), the tile crawler with its
serialised chain of root updates (`CrawlTiles`), and archive extraction (`ArchiveUpload`). `PathPlan` is
the planning two of the writers share. `BTree` is the search tree whose nodes are directories; `BTreeOrders`
compares its two orders of keys, `BTreeLoss` says which keys an insertion loses where these agree, `BTreeLocale`
which any change loses under any locale, and `BTreeRuns` shows runs.

**Protocols.** `WorkerAdapter` and `StreamReader` model the worker adapter, `ServiceWorker` the hashtree-cc
service worker with its inactivity timers, `Relay` the in-memory Nostr relay, `FeedMerge` the feed event
handler. Each has a transition function over its events and a class whose methods are the handlers of the
source; every method is proved to take the step of its event. The results are about all runs, and compare
what the model did with functions that read off the events alone what it should have done.

**Formats and addresses.** `Varint` and `GraphFile` model the variable-length integers and the binary file
of the social graph; `PercentEncoding`, `QueryString`, `MediaUrl` and `AppRoute` the URLs; `RelativePath`
the references rewritten into style sheets.

**Names.** `ReleaseId` models the ids of releases. `Text` and `Wrappers` hold what several files use.

## What does not hold

Several properties that one would expect are false of the code. Each is proved to hold under an exact
condition, and where that condition is not plain to see there is also a concrete input on which it fails.

- Editing below a plain root loses the other entries of an encrypted directory
  (`HashTree.PlainEditLosesEncryptedSibling`, `HashTree.SetEntryPreservesIff`).
- For that reason an archive extracted into an encrypted directory of a plain tree replaces what stood
  there (`ArchiveUpload.ExtractionIff`).
- An edit of a plain root at a path with a slash in a segment can go through and be lost
  (`HashTree.SlashedEditIsLost`).
- The migration does not enter a directory that is stored in chunks, so keyless children stay keyless
  (`Reencrypt.ChunkedDirectoryKeepsKeylessChild`, `Reencrypt.RebuildEncryptsIff`).
- The migration changes the order of directories that were not in collation order
  (`Reencrypt.ByteOrderIsLost`, `Reencrypt.RebuildPreservesViewIff`).
- A B-tree loses keys when insertions follow a deletion (`BTreeRuns.InsertAfterDeleteLosesKey`,
  `BTreeLoss.PutLosesIff`, `BTreeLoss.RunFindsIff`) and when the locale sorts keys differently from `<`
  (`BTreeOrders.FilledFoundIff`, `BTreeOrders.PairFoundIff`, `BTreeLocale.DeletionLosesTied`); which keys,
  and in which runs, is exact for every locale (`BTreeLocale.PutLosesByIff`, `BTreeLocale.DeleteLosesByIff`,
  `BTreeLocale.RunFindsByIff`). Its ranges can miss small keys (`BTreeRuns.RangeMissesLateKey`,
  `BTree.RangeExactIff`).
- `ensureDirs` replaces a file that stands on its path (`CrawlTiles.EnsureDirsKeepsFilesIff`).
- `done` before `headers` leaves a response pending for ever (`ServiceWorker.RemovalSettlesIff`), and a
  second `headers` leaves its body open (`ServiceWorker.BodyFinishedIff`).
- The feed merge depends on the order of delivery, because a deletion overwrites a newer tombstone
  (`FeedMerge.LateDeletionRevives`, `FeedMerge.MergeConvergesIff`), and because of two videos of one second
  the first one stays (`FeedMerge.TieGoesToTheFirst`, `FeedMerge.OrderMattersIff`).
- One subscription with a malformed filter silences later ones (`Relay.ThrowingFilterSilencesOthers`,
  `Relay.BroadcastReachesIff`), and cuts its own replay short (`Relay.ReplayReachesIff`).
- Numbers from 2^31 on come back negative (`Varint.RoundTripIff`, `GraphFile.FileExactIff`), and a list that
  announces more than it has, or a key of another length, shifts the file (`GraphFile.FileRoundTrip`).
- Dot segments, reserved tree names and empty segments do not survive a URL
  (`MediaUrl.MediaUrlRoundTripIff`, `AppRoute.RouteRoundTripIff`).
- A relative path misleads when a segment is empty (`RelativePath.EmptySegmentMisleadsUp`,
  `RelativePath.EmptySegmentMisleadsDown`), gives a directory above a trailing slash, and is taken for a URL
  when it starts with a name like `a:b` (`RelativePath.RelativePathResolvesIff`).
- Cutting a release id at 80 characters can leave `.` or `-` at its end (`ReleaseId.SanitizeTwiceIff`).

## Model

| member | source | states |
|---|---|---|
| `HashTree.FindSort` | ts/packages/hashtree/src/tree/create.ts:73-104 | the stable sort of a written directory never changes which entry a name finds, duplicates included |
| `HashTree.ChildOfPut` | ts/packages/hashtree/src/tree/create.ts:73-104 | a directory that was just written answers every lookup as the list it was written from, sealed or not |
| `HashTree.ResolveCompose` | ts/packages/hashtree/src/hashtree.ts:250-273 | resolving a path in two pieces is resolving it whole |
| `HashTree.UniformWalk` | ts/packages/hashtree/src/tree/editEncrypted.ts:40-64 | where all directories of a path carry a key as the root does, the walk of an edit ends where a reader resolves |
| `HashTree.GraftBelow` | ts/packages/hashtree/src/tree/edit.ts:147-183 | below a replaced directory readers see the replacement |
| `HashTree.GraftAbove` | ts/packages/hashtree/src/tree/edit.ts:147-183 | above a replaced directory every directory keeps its place and kind |
| `HashTree.GraftBeside` | ts/packages/hashtree/src/tree/edit.ts:147-183 | beside a replaced directory readers see what they saw, at every path that leaves the rebuilt one |
| `HashTree.ReadBack` | ts/packages/hashtree/src/hashtree.ts:595-621 | the entry that was set is the entry read back, for every root, plain or encrypted, and every path |
| `HashTree.SetEntryFrame` | ts/packages/hashtree/src/hashtree.ts:595-621 | on a uniform path `setEntry` changes nothing outside the entry and the directories leading to it |
| `HashTree.SetEntryAbove` | ts/packages/hashtree/src/hashtree.ts:595-621 | the directories on the way keep their kinds, sizes and metadata and can be walked again |
| `HashTree.PutFileBytes` | ts/packages/hashtree/src/hashtree.ts:89-99 | a stored file is read back as its bytes, and has a key exactly if it was stored encrypted |
| `HashTree.SetEntryPreservesIff` | ts/packages/hashtree/src/tree/edit.ts:15-40 | the rest of the tree is preserved exactly when the target directory carries a key as the root does, or held no other name |
| `HashTree.PlainEditLosesEncryptedSibling` | ts/packages/hashtree/src/tree/edit.ts:15-40 | a concrete tree and edit that lose a sibling: a plain root over an encrypted directory |
| `HashTree.ResolvePathLoop` | ts/packages/hashtree/src/hashtree.ts:250-273 | the resolving loop computes `ResolvePath` |
| `HashTree.WalkLoop` | ts/packages/hashtree/src/tree/editEncrypted.ts:40-64 | the key-collecting walk computes `Walk` |
| `HashTree.ResolvePathArray` | ts/packages/hashtree/src/tree/edit.ts:142-145 | joining the path and resolving the string walks the path taken apart at its slashes, on every path; and the path itself, when its segments have none and are not empty |
| `HashTree.RebuildPath` | ts/packages/hashtree/src/tree/editEncrypted.ts:320-377 | rebuilding bottom-up, each parent reached in the old tree, computes `RebuildUp` on every path, and is the recursive replacement of one directory wherever joining the path loses nothing |
| `HashTree.SetEntryLoop` | ts/packages/hashtree/src/tree/editEncrypted.ts:79-132 | `setEntry` as the source runs it computes `SetEntryAt` on every path, and `SetEntry` for encrypted roots and for paths of non-empty segments without slashes |
| `HashTree.SlashedEditIsLost` | ts/packages/hashtree/src/tree/edit.ts:157-180 | on a plain root, an edit at a segment that no entry is named by goes through and changes nothing: the path was taken apart to find the directory, but not to rebuild |
| `HashTree.SlashedPathIsTakenApart` | ts/packages/hashtree/src/tree/edit.ts:142-145 | a concrete tree and path with a slash for which such an edit goes through |
| `Reencrypt.RebuildLoop` | apps/iris-files/src/migrations/reencrypt.ts:114-179 | the recursion with its loop over entries terminates and computes `Rebuild` |
| `Reencrypt.RebuildKeepsEntries` | apps/iris-files/src/migrations/reencrypt.ts:114-179 | for every tree, forced or not, the rebuilt tree has at every path the entry the migration saw there: same name, size, kind and metadata, with the rebuilt identifier as far as the rebuild came and the old one below keys and chunked directories |
| `Reencrypt.RebuildPreservesPaths` | apps/iris-files/src/migrations/reencrypt.ts:114-179 | for every tree, every path resolves after the migration exactly if it did before, to the same name, size, kind, metadata and bytes; what had a key and what is missing keep their identifiers |
| `Reencrypt.RebuildPreservesViewIff` | apps/iris-files/src/migrations/reencrypt.ts:114-179 | the whole view, with the order of every listing, is the same exactly when each directory the rebuild writes was in collation order |
| `Reencrypt.ByteOrderIsLost` | rust/crates/hashtree-core/src/builder.rs:299-299 | a concrete directory in byte order, as the Rust builder writes it, whose order the migration changes |
| `Reencrypt.ForcedRebuildView` | apps/iris-files/src/migrations/reencrypt.ts:114-179 | with `force` readers see the tree as it reads without keys down to chunked directories, order included, exactly when the rewritten directories were in order |
| `Reencrypt.RebuildEncryptsIff` | apps/iris-files/src/migrations/reencrypt.ts:114-179 | for every tree, forced or not, every node ends up with a key exactly when no file is missing and all that the rebuild does not enter, keyed subtrees without `force` and entries of chunked directories, is fully encrypted already |
| `Reencrypt.RebuildEncryptsAll` | apps/iris-files/src/migrations/reencrypt.ts:114-179 | from a key-free tree that is: exactly when no file is missing and no directory with entries is stored in chunks |
| `Reencrypt.ChunkedDirectoryKeepsKeylessChild` | apps/iris-files/src/migrations/reencrypt.ts:114-179 | a concrete chunked directory whose keyless file stays keyless |
| `PathPlan.GetDirectoryPaths` | apps/iris-files/src/lib/pwaSaver.ts:19-39 | the listed directories are exactly the proper prefixes of asset paths, each once, shallowest first and by name within a depth |
| `PathPlan.DirSetSound` | apps/iris-files/src/lib/pwaSaver.ts:19-39 | every listed directory lies above some asset |
| `PathPlan.DirSetComplete` | apps/iris-files/src/lib/pwaSaver.ts:19-39 | every directory above an asset is listed |
| `PwaSaver.SubdirsBuilt` | apps/iris-files/src/lib/pwaSaver.ts:45-133 | deepest first, the subdirectories of a directory are all built when its turn comes |
| `PwaSaver.BuildDirectories` | apps/iris-files/src/lib/pwaSaver.ts:45-133 | after the loop every directory CID holds exactly the assets below it |
| `PwaSaver.CollectEntries` | apps/iris-files/src/lib/pwaSaver.ts:45-133 | the inner loops collect the files of a directory, then its subdirectories |
| `PwaSaver.DirectoryMatches` | apps/iris-files/src/lib/pwaSaver.ts:45-133 | a directory assembled from matching parts resolves exactly the assets below it, nothing missing and nothing extra |
| `PwaSaver.SavePwa` | apps/iris-files/src/lib/pwaSaver.ts:45-133 | for well-formed paths the saved root resolves exactly the asset paths, each to an encrypted file of its bytes and size, and their directories |
| `CrawlTiles.EstimateTileCounts` | ts/scripts/maps/crawl-tiles.js:86-96 | the estimated total is the number of tiles the loops visit |
| `CrawlTiles.GridDistinct` | ts/scripts/maps/crawl-tiles.js:86-96 | the tiles visited are those in the range of their zoom level, and none is visited twice |
| `CrawlTiles.EnsureDirsLoop` | ts/scripts/maps/crawl-tiles.js:329-343 | the loop computes `EnsureDirs`, one segment at a time |
| `CrawlTiles.EnsureDirsMakesDirs` | ts/scripts/maps/crawl-tiles.js:329-343 | `ensureDirs` never throws on a key-free tree and leaves every prefix a directory |
| `CrawlTiles.EnsureDirsFrame` | ts/scripts/maps/crawl-tiles.js:329-343 | with no file in the way it disturbs no other path |
| `CrawlTiles.EnsureDirsKeepsFilesIff` | ts/scripts/maps/crawl-tiles.js:329-343 | it keeps every resolving file exactly when no file stands on the path |
| `CrawlTiles.TilePathInjective` | ts/scripts/maps/crawl-tiles.js:446-456 | different tiles have different paths, none of them that of the metadata |
| `CrawlTiles.StoreTileLaw` | ts/scripts/maps/crawl-tiles.js:452-458 | storing a tile succeeds, leaves a plain file of its bytes and size at its path, and keeps the tree fit for the next one |
| `CrawlTiles.FirstRootReady` | ts/scripts/maps/crawl-tiles.js:345-369 | the two awaited updates leave a root the run can start from, with the bytes of `meta.json` and no tile |
| `CrawlTiles.CrawlCorrect` | ts/scripts/maps/crawl-tiles.js:422-469 | for every interleaving: tasks in flight stay under the limit; at the end the download of every tile has ended once, and the three counters are the numbers of downloads that came back with bytes, with 404, and otherwise; the final root has `meta.json`, each tile that came back with bytes as a file of just these, and at every other tile path what it had |
| `CrawlTiles.IntegerConcurrency` | ts/scripts/maps/crawl-tiles.js:422-430 | whole-number limits are kept exactly |
| `CrawlTiles.Progress` | ts/scripts/maps/crawl-tiles.js:422-469 | until it has finished the crawler can always take a step, and every step uses up work |
| `CrawlTiles.RunsAreBounded` | ts/scripts/maps/crawl-tiles.js:422-469 | every run takes at most five steps for each tile, and until it has finished there is one to take |
| `ArchiveUpload.WriteElsewhere` | apps/iris-files/src/actions/file.ts:233-301 | one write leaves every path alone that is not at, below or above it, under encrypted and plain roots |
| `ArchiveUpload.WritesProgress` | apps/iris-files/src/actions/file.ts:228-301 | in any parented series of writes none throws, and the final root shows exactly what the writes say |
| `ArchiveUpload.SeenDirs` | apps/iris-files/src/actions/file.ts:223-257 | shallowest first, no directory creation wipes one made earlier |
| `ArchiveUpload.PlanSeen` | apps/iris-files/src/actions/file.ts:212-307 | the order of the plan leaves each file with its last content, each directory in place and nothing else below |
| `ArchiveUpload.PlanParented` | apps/iris-files/src/actions/file.ts:212-307 | every planned write is made under the base or a directory made before it and still there |
| `ArchiveUpload.ExtractionCorrect` | apps/iris-files/src/actions/file.ts:212-307 | whenever the base can be entered, under an encrypted or a plain root, the whole plan succeeds and the base shows exactly the archive, with the last bytes of each file; other paths read as before |
| `ArchiveUpload.ExtractionIff` | apps/iris-files/src/actions/file.ts:212-307 | on every encrypted root and every well-keyed plain one the plan succeeds exactly when the first edit reaches the base, and is right exactly when the base carries a key as the root does or holds only names that the archive replaces |
| `ArchiveUpload.PreparedOpens` | apps/iris-files/src/actions/file.ts:176-210 | the new subdirectory can be entered and nothing outside it has changed |
| `ArchiveUpload.CreateDirectories` | apps/iris-files/src/actions/file.ts:228-257 | the directory loop applies the directory writes, or throws where they do; without a root the first one makes a new tree |
| `ArchiveUpload.AddFiles` | apps/iris-files/src/actions/file.ts:259-307 | the file loop applies the file writes in archive order |
| `ArchiveUpload.UploadExtracted` | apps/iris-files/src/actions/file.ts:168-307 | the whole operation, with and without a subdirectory, on any root or none: nothing throws, the archive stands below the base path with the last bytes of each file, a new subdirectory holds nothing else, the rest is unchanged; an archive without files changes nothing at all |
| `WorkerAdapter.StepKeepsInv` | apps/iris-files/src/workerAdapter.ts:102-443 | every event keeps the invariant behind the following four results |
| `WorkerAdapter.RequestsSettleOnce` | apps/iris-files/src/workerAdapter.ts:318-334 | a request is pending exactly from its event until the first answer, error, timeout or crash after it, is settled once, as that event says, and is not left open after 120 s |
| `WorkerAdapter.MessagesDeliveredInOrder` | apps/iris-files/src/workerAdapter.ts:318-390 | the messages of all post and request events, in order, are those the incarnations were sent and then those queued; `init` comes first; there is an incarnation for the start and one for each restart; a ready worker has an empty queue |
| `WorkerAdapter.OthersHearNothing` | apps/iris-files/src/workerAdapter.ts:318-352 | an incarnation that was given up is sent nothing more |
| `WorkerAdapter.RestartsBounded` | apps/iris-files/src/workerAdapter.ts:336-351 | between two `ready` messages at most ten restarts, with delays that do not decrease, lie in 1..30 s and total at most 181 s, and each restart comes exactly its delay after the crash |
| `WorkerAdapter.HeartbeatVerdict` | apps/iris-files/src/workerAdapter.ts:290-309 | the heartbeat fires every 5 s from `ready` on; it declares the worker dead exactly if it has not answered for more than 15 s, and else sends one ping; no ready worker is silent for more than 20 s |
| `WorkerAdapter.RejectEach` | apps/iris-files/src/workerAdapter.ts:330-334 | the loop rejects every pending request once, in any order |
| `WorkerAdapter.Adapter.Init` | apps/iris-files/src/workerAdapter.ts:102-113 | `init` takes the step of its event: a second call starts nothing |
| `WorkerAdapter.Adapter.PostMessage` | apps/iris-files/src/workerAdapter.ts:380-390 | a message goes to the ready worker or to the back of the queue |
| `WorkerAdapter.Adapter.FlushMessageQueue` | apps/iris-files/src/workerAdapter.ts:354-359 | the loop delivers the queue from the front and empties it |
| `WorkerAdapter.Adapter.OnReady` | apps/iris-files/src/workerAdapter.ts:144-152 | the `ready` handler takes the step of its event |
| `WorkerAdapter.Adapter.SettlePending` | apps/iris-files/src/workerAdapter.ts:392-408 | a pending request is settled and forgotten; an unknown one changes nothing |
| `WorkerAdapter.Adapter.SendRequest` | apps/iris-files/src/workerAdapter.ts:410-429 | issuing a request files it with its deadline and posts its message |
| `WorkerAdapter.Adapter.OnRequestTimer` | apps/iris-files/src/workerAdapter.ts:415-420 | the timer settles a request only if it is still pending |
| `WorkerAdapter.Adapter.HandleWorkerCrash` | apps/iris-files/src/workerAdapter.ts:318-352 | a crash rejects everything pending and schedules a restart, up to the limit |
| `WorkerAdapter.Adapter.OnHeartbeat` | apps/iris-files/src/workerAdapter.ts:294-308 | the heartbeat pings, or declares the worker dead |
| `WorkerAdapter.Adapter.OnRestartTimer` | apps/iris-files/src/workerAdapter.ts:342-348 | the restart spawns a new incarnation, `init` first |
| `StreamReader.StreamFaithful` | apps/iris-files/src/workerAdapter.ts:761-791 | for every interleaving the chunks yielded, and then those buffered, are exactly the non-empty chunks that arrived from the first pull to `done`, in order and once each; the consumer waits only with everything handed over and `done` outstanding, and the stream ends only after `done` with everything handed over |
| `StreamReader.DrainsAfterDone` | apps/iris-files/src/workerAdapter.ts:787-790 | once `done` has come, as many pulls as chunks are left and one more end the stream, and everything that arrived was handed over |
| `StreamReader.Reader.HandleStreamChunk` | apps/iris-files/src/workerAdapter.ts:435-443 | the callback buffers a non-empty chunk, records `done` and wakes a waiting consumer |
| `StreamReader.Reader.Continue` | apps/iris-files/src/workerAdapter.ts:777-790 | the consumer runs from one suspension to the next as the two loops say |
| `ServiceWorker.StoppedTimerStays` | apps/hashtree-cc/src/lib/inactivityTimeout.ts:6-36 | a timer that fired or was cleared stays so; `touch` does not revive it |
| `ServiceWorker.TimerFiresOnce` | apps/hashtree-cc/src/lib/inactivityTimeout.ts:6-36 | whatever happens a timer fires at most once, and never after `clear` |
| `ServiceWorker.DownloadsCounted` | apps/hashtree-cc/src/sw.ts:168-178 | the counter always equals the number of requests that were served as downloads, not as `HEAD`, and are still pending, so its guard never decides; every request served is pending or gone; every pending one has a live timer due within 60 s |
| `ServiceWorker.TimesOutIff` | apps/hashtree-cc/src/sw.ts:184-245 | a pending request times out exactly 60 s after it was served, got its headers, or got a chunk after them |
| `ServiceWorker.EachRequestAlone` | apps/hashtree-cc/src/sw.ts:232-257 | a request that is served starts unsettled, without a body, with a timer of 60 s, and from then on runs on its own |
| `ServiceWorker.SilenceEmptiesPending` | apps/hashtree-cc/src/sw.ts:232-257 | after more than 60 s without messages nothing is pending and the count is 0 |
| `ServiceWorker.NonInterference` | apps/hashtree-cc/src/sw.ts:180-230 | for any interleaving, what becomes of a request depends on the clock and its own messages alone |
| `ServiceWorker.GoneStays` | apps/hashtree-cc/src/sw.ts:180-183 | nothing touches a request after its removal |
| `ServiceWorker.BodyIsTheChunks` | apps/hashtree-cc/src/sw.ts:180-221 | headers, chunks and an end, among any other traffic, leave a body that is exactly the chunks in order: closed if the end is `done`, aborted if it is an error or the timeout |
| `ServiceWorker.RemovalSettlesIff` | apps/hashtree-cc/src/sw.ts:217-228 | removing a request leaves its promise unsettled exactly when `done` comes before any `headers`, and rejected exactly when an error or the timeout does; a body stays as it was written, closed exactly by `done` and aborted otherwise |
| `ServiceWorker.DoneFirstNeverSettles` | apps/hashtree-cc/src/sw.ts:217-221 | the shortest run in which that happens: the promise stays pending whatever follows |
| `ServiceWorker.BodyFinishedIff` | apps/hashtree-cc/src/sw.ts:184-228 | the body the page holds is finished when its request goes exactly if it got one `headers`; a second leaves it open for ever |
| `ServiceWorker.PromiseFollowsStreams` | apps/hashtree-cc/src/sw.ts:180-230 | in every run a pending promise is unsettled while no body was opened, and then settled with the first one |
| `ServiceWorker.InactivityTimer.ArmTimer` | apps/hashtree-cc/src/lib/inactivityTimeout.ts:10-21 | arming replaces the deadline of an active timer and leaves a stopped one alone |
| `ServiceWorker.InactivityTimer.OnTimeout` | apps/hashtree-cc/src/lib/inactivityTimeout.ts:15-20 | the timeout calls back only while the timer is active, and stops it |
| `ServiceWorker.Worker.ServeViaWorker` | apps/hashtree-cc/src/sw.ts:232-257 | a new request is filed under a fresh id with a running timer, and counted if it is a tracked download |
| `ServiceWorker.Worker.ClearPending` | apps/hashtree-cc/src/sw.ts:168-178 | clearing stops the timer, forgets the request and releases its share of the counter |
| `ServiceWorker.Worker.HandleWorkerMessage` | apps/hashtree-cc/src/sw.ts:180-230 | each of the four message types takes its step, and a message for an unknown request none |
| `ServiceWorker.Worker.OnInactivity` | apps/hashtree-cc/src/sw.ts:240-245 | a timeout aborts the body, rejects the promise and forgets the request |
| `FeedMerge.Feed.OnEvent` | apps/iris-files/src/stores/feedStore.ts:338-386 | the handler moves the one video an event is about by one step and no other, and flushes exactly when the videos changed |
| `FeedMerge.PutsIff` | apps/iris-files/src/stores/feedStore.ts:338-384 | an event puts a video exactly if it names its author, tree and hash in the first tags of their names and has no tag of a private video; time, hash and key are those of the event |
| `FeedMerge.DeletesIff` | apps/iris-files/src/stores/feedStore.ts:338-356 | an event about a video deletes it exactly if it names no hash |
| `FeedMerge.AboutNothing` | apps/iris-files/src/stores/feedStore.ts:339-345 | an event that is about no video of an author is ignored |
| `FeedMerge.OnlyPublished` | apps/iris-files/src/stores/feedStore.ts:338-386 | over any run, whatever the feed shows was published, as a public video, by one of the events |
| `FeedMerge.VideosAreIndependent` | apps/iris-files/src/stores/feedStore.ts:338-386 | over any run, what becomes of a video depends on the events about it, in their order, alone |
| `FeedMerge.MergeConvergesIff` | apps/iris-files/src/stores/feedStore.ts:350-377 | every order of delivery gives a right answer, a newest video or none if a deletion beats it, exactly when no deletion older than the newest video can overwrite the tombstone that beats it |
| `FeedMerge.OrderMattersIff` | apps/iris-files/src/stores/feedStore.ts:350-377 | two orders of the same events end differently exactly if that can happen, or if nothing beats the newest video and another one has its timestamp |
| `FeedMerge.FeedConverges` | apps/iris-files/src/stores/feedStore.ts:338-386 | for a whole run of the handler, a video that is not fragile ends up right |
| `FeedMerge.LateDeletionRevives` | apps/iris-files/src/stores/videoDeletes.ts:32-35 | three concrete orders: a late older deletion brings a deleted video back |
| `FeedMerge.UnbeatenFirst` | apps/iris-files/src/stores/feedStore.ts:358-377 | of the newest videos that no deletion beats, the one delivered first stays |
| `FeedMerge.TieGoesToTheFirst` | apps/iris-files/src/stores/feedStore.ts:358-377 | two events: of two videos of one time, whichever comes first stays |
| `FeedMerge.KeepingTheLargestConvergesIff` | apps/iris-files/src/stores/videoDeletes.ts:32-35 | if `recordDeletedVideo` kept the largest timestamp, every order would give a right answer, except for a video of time 0 whose deletions are all of time 0 |
| `FeedMerge.TombstoneIs` | apps/iris-files/src/stores/videoDeletes.ts:32-46 | the tombstone kept is the time of the last deletion, unless a newer video was delivered after it |
| `FeedMerge.NothingFromDeletions` | apps/iris-files/src/stores/feedStore.ts:348-356 | deletions alone never leave a video |
| `Relay.SameNamespace` | apps/iris-files/e2e/relay/index.js:52-59 | a query and trailing slashes do not change the namespace of a path |
| `Relay.GidInjective` | apps/iris-files/e2e/relay/index.js:138-138 | subscription keys of different connections or names differ |
| `Relay.TablesAreDisjointUnion` | apps/iris-files/e2e/relay/index.js:93-176 | the table of a namespace is the disjoint union of the tables of its open connections |
| `Relay.BroadcastReachesIff` | apps/iris-files/e2e/relay/index.js:126-130 | publishing sends the event to a subscription exactly when its filters match and no subscription up to it throws, and then once |
| `Relay.ReplayReachesIff` | apps/iris-files/e2e/relay/index.js:145-152 | in every reachable state asking sends a stored event exactly when the filters match and throw on no event up to it, and then once |
| `Relay.TablesFollowActions` | apps/iris-files/e2e/relay/index.js:93-176 | in every reachable state the relay holds of each namespace, under each id, the last event published since the events were cleared, and of each connection its namespace and the subscriptions asked for and not closed, with the filters asked for last |
| `Relay.PublishAnsweredIff` | apps/iris-files/e2e/relay/index.js:120-134 | OK comes, last, exactly when no subscription threw |
| `Relay.RequestAnsweredIff` | apps/iris-files/e2e/relay/index.js:136-156 | EOSE comes, last, exactly when the filters threw on no stored event |
| `Relay.SubscribersAreServed` | apps/iris-files/e2e/relay/index.js:120-156 | an open subscription was sent the last event published in its namespace under each id since the events were cleared, if it matches, whichever of REQ and EVENT came first, in every run in which no earlier subscription throws on that event and its own filters throw on no earlier event; what throws elsewhere does not matter |
| `Relay.ThrowingFilterSilencesOthers` | apps/iris-files/e2e/relay/index.js:126-130 | a concrete run in which a filter that throws keeps an event from a later subscriber |
| `Relay.NothingCrossesNamespaces` | apps/iris-files/e2e/relay/index.js:93-156 | whatever a connection was sent was published by an earlier action in its namespace, and matches filters that it asked for under that name |
| `Relay.GlobalAfterLeaving` | apps/iris-files/e2e/relay/index.js:170-176 | closing a connection removes its subscriptions from the namespace table and no others |
| `Relay.ClosedHearsNothing` | apps/iris-files/e2e/relay/index.js:158-176 | a subscription that is not open is sent no event until it is asked for again |
| `Relay.Relay.OnConnection` | apps/iris-files/e2e/relay/index.js:93-97 | a connection joins its namespace, made on first use |
| `Relay.Relay.Broadcast` | apps/iris-files/e2e/relay/index.js:126-130 | the loop delivers to each connection, in table order, up to the first subscription that throws |
| `Relay.Relay.OnEvent` | apps/iris-files/e2e/relay/index.js:120-134 | the EVENT branch stores, broadcasts, and answers OK only if nothing threw |
| `Relay.Relay.OnReq` | apps/iris-files/e2e/relay/index.js:136-156 | the REQ branch files the subscription, replays the stored events, and sends EOSE only if nothing threw |
| `Relay.Relay.OnDisconnect` | apps/iris-files/e2e/relay/index.js:170-176 | the close loop removes every subscription of the connection |
| `Relay.Relay.OnTimer` | apps/iris-files/e2e/relay/index.js:87-91 | the timer empties the event table of every namespace and nothing else |
| `Varint.EncodeVarint` | ts/packages/nostr-social-graph/benchmark-varint.js:5-16 | the loop computes `Encode` |
| `Varint.DecodeVarint` | ts/packages/nostr-social-graph/benchmark-varint.js:18-35 | the loop computes `Decode`, on any bytes and from any offset |
| `Varint.DecodeOfEncode` | ts/packages/nostr-social-graph/benchmark-varint.js:5-35 | decoding at the offset of an encoded integer, any integer and any surroundings, reads its exact length and gives its low 32 bits as a signed number |
| `Varint.RoundTripIff` | ts/packages/nostr-social-graph/benchmark-varint.js:5-35 | the round trip is exact for the naturals below 2^31 and no other integer; from 2^31 to 2^32 it gives the value less 2^32 |
| `Varint.PrefixFree` | ts/packages/nostr-social-graph/benchmark-varint.js:5-16 | no encoding of any integer is the beginning of a different one, so a stream can be read in one way only; below 2^32 different numbers have different encodings |
| `Varint.LengthIsGroups` | ts/packages/nostr-social-graph/benchmark-varint.js:5-16 | the length is the number of seven-bit groups |
| `Varint.EncodingIsShortest` | ts/packages/nostr-social-graph/benchmark-varint.js:5-35 | whatever bytes decode to the bits of a number are at least as many as the encoding |
| `GraphFile.HexRoundTrip` | ts/packages/nostr-social-graph/src/SocialGraphBinary.ts:114-131 | hexadecimal to bytes and back is the same string in lower case |
| `GraphFile.FileRoundTrip` | ts/packages/nostr-social-graph/src/SocialGraphBinary.ts:155-393 | for every graph that can be written, `fromBinary` after `toBinary` gives every id, list and entry in order, keys in lower case, numbers as their low 32 bits read as signed, exactly when keys have 64 digits, lists are counted right and blocks have fewer than 2^31 entries |
| `GraphFile.FileExactIff` | ts/packages/nostr-social-graph/src/SocialGraphBinary.ts:155-393 | the graph comes back unchanged exactly when moreover every number in it is below 2^31: a time stamp is until January 2038 |
| `GraphFile.WrongCountShiftsTheRest` | ts/packages/nostr-social-graph/src/SocialGraphBinary.ts:256-269 | in the bytes of the file, with its varints: a list that announces one entry more than it has is not counted right, and takes the owner of the next list for an entry |
| `GraphFile.Writer.WriteBytes` | ts/packages/nostr-social-graph/src/SocialGraphBinary.ts:218-231 | bytes are appended across buffer boundaries; full buffers are handed out |
| `GraphFile.Writer.WriteVar` | ts/packages/nostr-social-graph/src/SocialGraphBinary.ts:233-240 | the byte loop appends the variable-length form of the low 32 bits |
| `GraphFile.ToBinaryChunks` | ts/packages/nostr-social-graph/src/SocialGraphBinary.ts:155-293 | the chunks in order are the bytes of the graph; none is empty and all but the last are full; a bad key gives nothing |
| `GraphFile.FromBinary` | ts/packages/nostr-social-graph/src/SocialGraphBinary.ts:314-393 | the reading loops compute `FromBytes` on any bytes at all |
| `GraphFile.WriteThenRead` | ts/packages/nostr-social-graph/src/SocialGraphBinary.ts:155-393 | writing in chunks and reading the joined chunks: nothing is written for a bad key, and the rest comes back under exactly those conditions |
| `PercentEncoding.DecodeEncode` | apps/iris-files/src/lib/mediaUrl.ts:231-236 | `decodeURIComponent` undoes `encodeURIComponent`, for every string of Unicode scalar values |
| `PercentEncoding.EncodeSafe` | apps/iris-files/src/lib/mediaUrl.ts:231-236 | an encoded string consists of unreserved characters and percent signs |
| `PercentEncoding.DecodeEncodeAll` | apps/iris-files/src/sw.ts:715-717 | the same component by component |
| `MediaUrl.EncodedDot` | apps/iris-files/src/lib/mediaUrl.ts:231-236 | an encoded string is a dot segment only if the string is dots itself |
| `MediaUrl.RemainingClean` | apps/iris-files/src/sw.ts:680-686 | whatever dots a URL holds, none are among the segments that reach the handler |
| `MediaUrl.KeyBack` | apps/iris-files/src/sw.ts:687-688 | the client id comes back from the query, with the cache bust beside it or without |
| `MediaUrl.ServedIff` | apps/iris-files/src/sw.ts:712-717 | the segments are served as they were meant exactly when none of them is dots |
| `MediaUrl.MediaUrlRoundTripIff` | apps/iris-files/src/lib/mediaUrl.ts:210-236 | a media URL reaches the service worker as the same npub, tree, path and client key exactly when neither tree name nor a path segment is `.` or `..` |
| `AppRoute.BuildRouteUrl` | apps/iris-files/src/actions/route.ts:18-36 | the pushes of the parts and the string built from them make `RouteUrl`, whose meaning is what `RouteRoundTripIff` states: the parser gets the route back |
| `AppRoute.PartsBack` | apps/iris-files/src/stores/route.ts:34-108 | of any parts, the empty ones are lost and all others come back, with the link key |
| `AppRoute.RouteRoundTripIff` | apps/iris-files/src/stores/route.ts:34-108 | a file route built and parsed back is the same exactly when the tree has a name that is not reserved and no path segment is empty |
| `RelativePath.GetRelativePath` | apps/iris-files/src/lib/pwaFetcher.ts:319-340 | the loops compute the common prefix, the `..` and the names |
| `RelativePath.RelativePathResolvesIff` | apps/iris-files/src/lib/pwaFetcher.ts:319-340 | resolved as a browser does, segment by segment, in the directory, empty segments included, the relative path gives the target exactly when the target is not the directory or above it, unless it ends in a slash, neither has an empty segment below what they share (but for that slash), and the way does not go straight down by a name that reads as a scheme |
| `RelativePath.ColonReadsAsScheme` | apps/iris-files/src/lib/pwaFetcher.ts:319-340 | from the top, the file `a:b` is referred to as a URL of scheme `a` |
| `RelativePath.EmptySegmentMisleadsUp` | apps/iris-files/src/lib/pwaFetcher.ts:319-340 | from the directory `x//y` the file `c` is looked for in `x` |
| `RelativePath.EmptySegmentMisleadsDown` | apps/iris-files/src/lib/pwaFetcher.ts:319-340 | from the top, the file `a//b` is referred to as `a/b` |
| `RelativePath.CssReferenceResolves` | apps/iris-files/src/lib/pwaFetcher.ts:294-312 | the reference put into a style sheet leads from it to the file meant, for all paths without dot segments, under exactly that condition |
| `RelativePath.MovesAreShortest` | apps/iris-files/src/lib/pwaFetcher.ts:319-340 | no shorter series of `..` and names leads there |
| `RelativePath.NoShorterWalk` | apps/iris-files/src/lib/pwaFetcher.ts:319-340 | any walk takes at least as many moves as segments lie between |
| `ReleaseId.SanitizedShape` | apps/iris-files/src/stores/releases.ts:86-95 | every sanitized id is at most 80 safe characters without double dashes and does not start with `.` or `-` |
| `ReleaseId.UnchangedIff` | apps/iris-files/src/stores/releases.ts:86-95 | a string is left alone exactly when it has that shape and does not end with `.` or `-` |
| `ReleaseId.SanitizeTwiceIff` | apps/iris-files/src/stores/releases.ts:86-95 | sanitizing twice is sanitizing once exactly when the cleaned title has at most 80 characters or its 80th is neither `.` nor `-` |
| `ReleaseId.CutLeavesDash` | apps/iris-files/src/stores/releases.ts:86-95 | a concrete title that is cut to end with a dash, which the second time goes |
| `ReleaseId.SanitizedEmptyIff` | apps/iris-files/src/stores/releases.ts:86-95 | nothing is left exactly of a title without letter, digit or underscore |
| `ReleaseId.WordsKept` | apps/iris-files/src/stores/releases.ts:86-95 | the words of a title are kept, in order; a title that is too long loses words from the end only, the last one kept perhaps in part |
| `ReleaseId.EnsureUniqueReleaseId` | apps/iris-files/src/stores/releases.ts:97-105 | the search terminates, by counting distinct numerals, and gives the first free id of its order |
| `ReleaseId.GoodIsSegment` | apps/iris-files/src/stores/releases.ts:313-317 | such an id is a single path segment |
| `ReleaseId.NewReleaseId` | apps/iris-files/src/stores/releases.ts:309-317 | a new release gets a fresh, non-empty, safe id: the sanitized tag or title if that is free, and one made from the time if nothing of it is left |
| `BTree.FindChild` | ts/packages/hashtree-index/src/btree.ts:413-424 | the loop finds the child `Index` names |
| `BTree.Around` | ts/packages/hashtree-index/src/btree.ts:413-424 | the keys before the chosen child are smaller than the key sought, those after it larger |
| `BTree.GetFinds` | ts/packages/hashtree-index/src/btree.ts:44-62 | in a shaped tree `get` finds exactly what the walk over all entries would find |
| `BTree.InsertFits` | ts/packages/hashtree-index/src/btree.ts:307-363 | an insertion anywhere below keeps shape and names, and the entries become the old ones with the key placed among them, split or not |
| `BTree.RangeIs` | ts/packages/hashtree-index/src/btree.ts:512-545 | `range` gives exactly the entries of the range, in order, when its end lies after the first name of the node |
| `BTree.RangeExactIff` | ts/packages/hashtree-index/src/btree.ts:508-545 | for trees made by insertions that condition is exact, unless the range is empty anyway |
| `BTree.DeleteRemoves` | ts/packages/hashtree-index/src/btree.ts:448-481 | deleting removes the key and nothing else and keeps the shape searching relies on |
| `BTreeOrders.InsertSame` | ts/packages/hashtree-index/src/btree.ts:307-363 | where the locale sorts the keys and names of the tree and the new key as `<` does, it does not matter which of the two is used |
| `BTreeOrders.GetAfterPut` | ts/packages/hashtree-index/src/btree.ts:21-42 | in a tree made by insertions an insertion sets its key and leaves every other key as it was, if the locale sorts the keys at hand as `<` does |
| `BTreeOrders.FilledFinds` | ts/packages/hashtree-index/src/btree.ts:21-62 | after any series of insertions every key has its last value, for every order from 2 on, if the locale sorts the inserted keys as `<` does |
| `BTreeOrders.FilledFoundIff` | ts/packages/hashtree-index/src/btree.ts:365-430 | for every order: once one key more than fits was inserted, all are found exactly when the cut of the locale-sorted entries separates smaller from larger keys; ties count in the order of insertion |
| `BTreeOrders.PairFoundIff` | ts/packages/hashtree-index/src/btree.ts:413-430 | in a tree of order 2 two inserted keys are both found exactly when the locale sorts them as `<` does, and if they tie, exactly when the smaller came first |
| `BTreeOrders.GetAfterDelete` | ts/packages/hashtree-index/src/btree.ts:448-481 | after a deletion every other key is found as before |
| `BTreeLoss.PutLosesIff` | ts/packages/hashtree-index/src/btree.ts:21-42 | where the locale sorts the keys at hand as `<` does, inserting into any tree that can be searched: a key is lost exactly when its search goes astray under the names the cut children get, which names and sizes decide beforehand; all other keys are found as before |
| `BTreeLoss.PutKeepsAllIff` | ts/packages/hashtree-index/src/btree.ts:21-42 | the new key and all others are found exactly when the insertion changes nothing or no key of the tree goes astray |
| `BTreeLoss.InsertionsAreSafe` | ts/packages/hashtree-index/src/btree.ts:21-42 | in a tree made by insertions alone none ever does |
| `BTreeLoss.AstrayIff` | ts/packages/hashtree-index/src/btree.ts:340-363 | in one node, with names within bounds, it is the keys of the cut child below the name of its left half, unless it is the first child |
| `BTreeLoss.CutInBounds` | ts/packages/hashtree-index/src/btree.ts:340-411 | where no first child is named below the bound of its node, the halves of a cut child get names within bounds, so that this is all that is lost |
| `BTreeLoss.InsertedInBounds` | ts/packages/hashtree-index/src/btree.ts:340-411 | trees made by insertions are of that kind |
| `BTreeLoss.DeletedInBounds` | ts/packages/hashtree-index/src/btree.ts:448-481 | and deletions keep them so |
| `BTreeLoss.PutKeepsShape` | ts/packages/hashtree-index/src/btree.ts:307-363 | a safe insertion leaves a tree that can be searched |
| `BTreeLoss.RunFindsIff` | ts/packages/hashtree-index/src/btree.ts:21-481 | any series of insertions and deletions of keys that the locale sorts as `<` does: after every change the tree finds exactly what it should, if and only if every insertion is safe when its turn comes |
| `BTreeLocale.RoutedFinds` | ts/packages/hashtree-index/src/btree.ts:44-62 | in a tree where every key is looked for where it lies, however its names are sorted, the keys found are the keys that are there |
| `BTreeLocale.CutByIs` | ts/packages/hashtree-index/src/btree.ts:307-411 | under any locale, whether an insertion cuts a node, and the names of the halves, are told by the names and sizes below it |
| `BTreeLocale.PutLosesByIff` | ts/packages/hashtree-index/src/btree.ts:21-42 | under any locale, inserting into any tree that can be searched: a key is lost exactly when its search goes astray under the names that come out of the cuts, which names and sizes decide beforehand; all other keys are found as before, and the new one has its value |
| `BTreeLocale.PutKeepsAllByIff` | ts/packages/hashtree-index/src/btree.ts:21-42 | the new key and all others are found exactly when the insertion changes nothing or no key goes astray |
| `BTreeLocale.PutRouted` | ts/packages/hashtree-index/src/btree.ts:307-411 | then the tree can still be searched |
| `BTreeLocale.DeleteLosesByIff` | ts/packages/hashtree-index/src/btree.ts:448-481 | under any locale, deleting from any tree that can be searched: the key is gone, another key is lost exactly when its search goes astray under the names left, and all others are found as before |
| `BTreeLocale.DeleteRouted` | ts/packages/hashtree-index/src/btree.ts:448-481 | where none goes astray the tree can still be searched |
| `BTreeLocale.RunFindsByIff` | ts/packages/hashtree-index/src/btree.ts:21-481 | any series of insertions and deletions, any locale, every order from 2 on: after every change the tree finds exactly what it should, if and only if every change is safe when its turn comes |
| `BTreeLocale.SafeRunsAgree` | ts/packages/hashtree-index/src/btree.ts:21-481 | where the locale sorts the keys of the run as `<` does, the runs that are safe are those of `BTreeLoss.RunFindsIff` |
| `BTreeLocale.AlwaysListed` | ts/packages/hashtree/src/tree/edit.ts:31-36 | over any run under any locale all listings stay in its order, so putting an entry behind its ties is what appending and the stable sort do |
| `BTreeLocale.DeletionLosesTied` | ts/packages/hashtree-index/src/btree.ts:448-481 | concrete keys that the locale holds equal, of which deleting one loses another |
| `BTreeRuns.InsertAfterDeleteLosesKey` | ts/packages/hashtree-index/src/btree.ts:340-363 | a concrete run of insertions with one deletion after which an inserted key is not found |
| `BTreeRuns.RangeMissesLateKey` | ts/packages/hashtree-index/src/btree.ts:512-545 | a concrete tree in which a small key inserted late is missing from its range |

## Left out

- Hashing and encryption: a content identifier is the tree it names, so two trees share one only if they are equal; collisions and key derivation are not modelled. Content whose blocks are missing is.
- Chunking: a file is its bytes, and whether a directory is stored in chunks is a property of its block; the chunk size is not modelled.
- `localeCompare`: any order on names that is reflexive; ties keep their order, as `sort` does.
- Entry metadata is an optional string.
- ArchiveUpload.UploadExtracted: archive paths do not conflict and have no empty segments; a new tree is always the user's own. A plain root is entered by paths of non-empty segments without slashes; for others `HashTree.SlashedEditIsLost` says what happens.
- ArchiveUpload.ExtractionIff: plain roots that are not well-keyed, where a key stands beside a block that was never encrypted or the other way round.
- CrawlTiles: the tile bounds are given, as computing them from latitudes is floating-point trigonometry; retries of a download, and store failures, are outside; the concurrency limit is any positive real number.
- BTree: key escaping, prefixes, merging and link values; a key is its place in the order of `<`; an order of 1, in which a split throws.
- BTreeOrders.GetAfterPut: is about trees made by insertions; `BTreeLoss.PutLosesIff` is about the others.
- BTreeLoss.AstrayIff: asks for names within bounds. Insertions that follow deletions may leave a first child named below the bound of its node; then more keys go astray, and `BTreeLoss.PutLosesIff` tells which.
- WorkerAdapter: `close()`, account switching and the WebRTC proxy; events come from the live worker only; timers fire on time, and request ids are fresh.
- StreamReader: a worker that crashes never sends `done`, and its streams never end.
- ServiceWorker: response headers, ports and the broadcast of transfer activity; a streamed body that the page cancels.
- FeedMerge: `fromHex` throwing on a bad hash; the flags and timers that delay a flush; what `pubkeyToNpub` makes of a key is part of the event.
- Relay.TablesAreDisjointUnion: subscription ids are strings; the server takes any JSON value, and the ids 1 and "1" of one connection share a key, which then stands under two names.
- Relay: matching of filters is a library call and a parameter; connection ids are taken to be fresh, as they are random; a handshake delay; sending to a socket that is closing.
- Varint and GraphFile: numbers are exact integers, so naturals from 2^53 on are beyond the source's number type; `planBudget`, the streaming reader, and the graph rebuilt from the lists.
- PercentEncoding: lone surrogates, on which the encoder throws.
- QueryString: malformed percent signs in a query, which the browser replaces, stay as they are.
- MediaUrl: URLs by content hash, the fallback for failed prefixes, and the states of the prefix itself; of the browser's URL parser only what the text built here can meet.
- AppRoute: `compareBranches` and the other query parameters; link keys are made of unreserved characters; whether an `nhash1` or `npath1` string decodes is a parameter.
- RelativePath: paths are pathnames of URLs, without `?`, `#` and backslashes.
- ReleaseId.NewReleaseId: an id given by the caller is only trimmed, not sanitized, and so promises nothing.
- Search ranking, settings, recents, toasts, upload history, accounts and bookmarks, retry and polling stores: bounded lists and timing that would only add easy members.
